/** Descriptor sets as a registry: under each id the descriptors to keep, those marked for removal, and the duplicates.
    Every operation on the list of sets is a simple one on the registry. */
module FdViews {
  import opened FdSets

  /** What an id stands for; nothing at all if there is no such set. */
  datatype Entry = Entry(live: multiset<int>, marked: multiset<int>, dups: multiset<int>)

  const NOTHING := Entry(multiset{}, multiset{}, multiset{})

  function Live(fds: seq<Fd>): multiset<int> {
    if fds == [] then multiset{} else LiveOf(fds[0]) + Live(fds[1..])
  }

  function LiveOf(f: Fd): multiset<int> {
    if f.removed then multiset{} else multiset{f.fd}
  }

  function Marked(fds: seq<Fd>): multiset<int> {
    if fds == [] then multiset{} else MarkedOf(fds[0]) + Marked(fds[1..])
  }

  function MarkedOf(f: Fd): multiset<int> {
    if f.removed then multiset{f.fd} else multiset{}
  }

  function EntryOf(s: Fdset): Entry {
    Entry(Live(s.fds), Marked(s.fds), multiset(s.dups))
  }

  function View(sets: seq<Fdset>, id: int): Entry {
    if sets == [] then NOTHING else if sets[0].id == id then EntryOf(sets[0]) else View(sets[1..], id)
  }

  // ---------------------------------------------------------------- the registry's operations

  /** While the machine runs, what is marked goes; and everything goes that has no duplicate and no monitor. */
  function Cleaned(e: Entry, refcount: int, running: bool): Entry {
    if !running then e
    else if refcount == 0 && e.dups == multiset{} then NOTHING
    else e.(marked := multiset{})
  }

  /** One descriptor of that number is marked, unless the one found is marked already. */
  ghost predicate Marks(e: Entry, e': Entry, fd: int) {
    || (fd in e.live && e' == e.(live := e.live - multiset{fd}, marked := e.marked + multiset{fd}))
    || (fd in e.marked && e' == e)
  }

  /** The smallest id that stands for nothing. */
  ghost predicate Unused(sets: seq<Fdset>, id: int) {
    id >= 0 && View(sets, id) == NOTHING && forall j :: 0 <= j < id ==> View(sets, j) != NOTHING
  }

  /** The smallest id with this duplicate. */
  ghost predicate First(sets: seq<Fdset>, id: int, dup: int) {
    dup in View(sets, id).dups && forall j :: j < id ==> dup !in View(sets, j).dups
  }

  /** What an event does to what an id stands for. */
  ghost predicate Becomes(m: Monitor, e: Event, id: int, v: Entry) {
    var was := View(m.sets, id);
    match e
    case AddUnnamed(fd) => v == if Unused(m.sets, id) then Entry(multiset{fd}, multiset{}, multiset{}) else was
    case AddNamed(fd, i) => v == if i == id && id >= 0 then was.(live := was.live + multiset{fd}) else was
    case RemoveSet(i) =>
      v == if i == id then Cleaned(was.(live := multiset{}, marked := was.live + was.marked), m.refcount, m.running) else was
    case RemoveFd(i, fd) =>
      if i == id && (fd in was.live || fd in was.marked) then
        exists marked :: Marks(was, marked, fd) && v == Cleaned(marked, m.refcount, m.running)
      else v == was
    case DupAdd(i, dup) =>
      v == if i == id && was != NOTHING && dup !in was.dups then was.(dups := was.dups + multiset{dup}) else was
    case DupRemove(dup) =>
      if First(m.sets, id, dup) then
        var less := was.(dups := was.dups - multiset{dup});
        v == if less.dups == multiset{} then Cleaned(less, m.refcount, m.running) else less
      else v == was
    case Close => v == Cleaned(was, m.refcount - 1, m.running)
    case _ => v == was
  }

  // ---------------------------------------------------------------- views of changed lists

  lemma {:induction false} ViewNone(sets: seq<Fdset>, id: int)
    requires forall i :: 0 <= i < |sets| ==> sets[i].id != id
    ensures View(sets, id) == NOTHING
  {
    if sets != [] { ViewNone(sets[1..], id); }
  }

  lemma {:induction false} ViewAt(sets: seq<Fdset>, k: nat)
    requires Ordered(sets) && k < |sets|
    ensures View(sets, sets[k].id) == EntryOf(sets[k])
  {
    if k > 0 {
      OrderedTail(sets);
      ViewAt(sets[1..], k - 1);
    }
  }

  lemma OrderedTail(sets: seq<Fdset>)
    requires Ordered(sets) && sets != []
    ensures Ordered(sets[1..])
  {
  }

  /** Lists that agree on a set say the same of its id. */
  lemma SameView(a: seq<Fdset>, b: seq<Fdset>, id: int)
    requires Ordered(a) && Ordered(b)
    requires forall i :: 0 <= i < |a| && a[i].id == id ==> a[i] in b
    requires forall i :: 0 <= i < |b| && b[i].id == id ==> b[i] in a
    ensures View(a, id) == View(b, id)
  {
    if i :| 0 <= i < |a| && a[i].id == id {
      var j :| 0 <= j < |b| && b[j] == a[i];
      ViewAt(a, i);
      ViewAt(b, j);
    } else {
      ViewNone(a, id);
      ViewNone(b, id);
    }
  }

  lemma SpliceView(sets: seq<Fdset>, k: nat, mid: seq<Fdset>, id: int)
    requires Ordered(sets) && k < |sets| && (mid == [] || (|mid| == 1 && mid[0].id == sets[k].id))
    ensures Ordered(Splice(sets, k, mid))
    ensures View(Splice(sets, k, mid), id) ==
            if id != sets[k].id then View(sets, id) else if mid == [] then NOTHING else EntryOf(mid[0])
  {
    hide EntryOf;
    var r := Splice(sets, k, mid);
    SpliceOrdered(sets, k, mid);
    if id != sets[k].id {
      forall i | 0 <= i < |r| && r[i].id == id ensures r[i] in sets {
        assert i != k || mid == [];
        assert r[i] == sets[if i < k || mid != [] then i else i + 1];
      }
      forall i | 0 <= i < |sets| && sets[i].id == id ensures sets[i] in r {
        assert i != k;
        assert sets[i] == r[if i < k || mid != [] then i else i - 1];
      }
      SameView(r, sets, id);
    } else if mid == [] {
      forall i | 0 <= i < |r| ensures r[i].id != id {
        assert r[i] == sets[if i < k then i else i + 1];
      }
      ViewNone(r, id);
    } else {
      assert r[k] == mid[0];
      ViewAt(r, k);
    }
  }

  lemma {:induction false} KeptView(fds: seq<Fd>, dups: bool, refcount: int, running: bool)
    ensures var kept := Kept(fds, dups, refcount, running);
            && Live(kept) == (if running && !dups && refcount == 0 then multiset{} else Live(fds))
            && Marked(kept) == (if running then multiset{} else Marked(fds))
  {
    if fds != [] {
      KeptView(fds[1..], dups, refcount, running);
      var rest := Kept(fds[1..], dups, refcount, running);
      assert ([fds[0]] + rest)[1..] == rest;
    }
  }

  lemma {:induction false} EmptyFds(fds: seq<Fd>)
    ensures fds == [] <==> Live(fds) == multiset{} == Marked(fds)
  {
    if fds != [] {
      assert fds[0].fd in Live(fds) + Marked(fds);
    }
  }

  lemma InUseIsSomething(s: Fdset)
    ensures s.InUse() <==> EntryOf(s) != NOTHING
  {
    EmptyFds(s.fds);
    assert s.dups != [] ==> s.dups[0] in multiset(s.dups);
  }

  lemma CleanAtView(m: Monitor, k: nat, id: int)
    requires Ordered(m.sets) && k < |m.sets|
    ensures var r := CleanAt(m, k).sets;
            && Ordered(r)
            && View(r, id) ==
                 if id == m.sets[k].id then Cleaned(EntryOf(m.sets[k]), m.refcount, m.running) else View(m.sets, id)
  {
    hide Kept, Closings, View, Live, Marked;
    var s := m.sets[k];
    var kept := s.(fds := Kept(s.fds, s.dups != [], m.refcount, m.running));
    KeptView(s.fds, s.dups != [], m.refcount, m.running);
    InUseIsSomething(kept);
    assert s.dups != [] ==> s.dups[0] in multiset(s.dups);
    SpliceView(m.sets, k, if kept.InUse() then [kept] else [], id);
  }

  /** One of the sets from `i` on has this id. */
  ghost predicate From(sets: seq<Fdset>, i: nat, id: int) {
    exists k :: i <= k < |sets| && sets[k].id == id
  }

  lemma FromNext(sets: seq<Fdset>, i: nat, id: int)
    requires Ordered(sets) && i < |sets|
    ensures From(sets, i, id) <==> sets[i].id == id || From(sets, i + 1, id)
    ensures sets[i].id == id ==> !From(sets, i + 1, id)
  {
  }

  /** After the set at `i` the list goes on as before. */
  lemma CleanAtTail(m: Monitor, i: nat, id: int)
    requires i < |m.sets|
    ensures var c := CleanAt(m, i);
            var j := if |c.sets| == |m.sets| then i + 1 else i;
            && j <= |c.sets| && c.refcount == m.refcount && c.running == m.running
            && (From(c.sets, j, id) <==> From(m.sets, i + 1, id))
  {
    hide Kept, Closings, View, From;
    var c := CleanAt(m, i);
    var j := if |c.sets| == |m.sets| then i + 1 else i;
    assert c.sets[j..] == m.sets[i + 1..];
    FromTail(c.sets, j, id);
    FromTail(m.sets, i + 1, id);
  }

  lemma FromTail(sets: seq<Fdset>, i: nat, id: int)
    requires i <= |sets|
    ensures From(sets, i, id) <==> HasId(sets[i..], id)
  {
    if k :| i <= k < |sets| && sets[k].id == id { assert sets[i..][k - i].id == id; }
    if HasId(sets[i..], id) {
      var k :| 0 <= k < |sets[i..]| && sets[i..][k].id == id;
      assert sets[i + k].id == id;
    }
  }

  /** Cleaning from the set at `i` on: the ids there are cleaned, those before are left. */
  lemma {:induction false} CleanFromView(m: Monitor, i: nat, id: int)
    requires Ordered(m.sets) && i <= |m.sets|
    ensures View(CleanFrom(m, i).sets, id) ==
            if From(m.sets, i, id) then Cleaned(View(m.sets, id), m.refcount, m.running) else View(m.sets, id)
    decreases |m.sets| - i
  {
    if i == |m.sets| {
      assert !From(m.sets, i, id);
    } else {
      hide Cleaned, View, EntryOf, From, CleanAt, Ordered;
      var c := CleanAt(m, i);
      CleanAtView(m, i, id);
      ViewAt(m.sets, i);
      FromNext(m.sets, i, id);
      CleanAtTail(m, i, id);
      CleanAtLength(m, i);
      CleanFromView(c, if |c.sets| == |m.sets| then i + 1 else i, id);
    }
  }

  lemma AllCleaned(m: Monitor, id: int)
    requires Ordered(m.sets)
    ensures View(CleanFrom(m, 0).sets, id) == Cleaned(View(m.sets, id), m.refcount, m.running)
  {
    hide CleanFrom, View;
    CleanFromView(m, 0, id);
    if !From(m.sets, 0, id) { ViewNone(m.sets, id); }
  }

  // ---------------------------------------------------------------- each operation

  lemma SetAtView(m: Monitor, k: nat, s: Fdset, id: int)
    requires Ordered(m.sets) && k < |m.sets| && s.id == m.sets[k].id
    ensures Ordered(SetAt(m, k, s).sets)
    ensures View(SetAt(m, k, s).sets, id) == if id == s.id then EntryOf(s) else View(m.sets, id)
  {
    hide View, EntryOf;
    assert SetAt(m, k, s).sets == Splice(m.sets, k, [s]);
    SpliceView(m.sets, k, [s], id);
  }

  /** A set changed and cleaned. */
  lemma ChangeView(m: Monitor, k: nat, s: Fdset, id: int)
    requires Ordered(m.sets) && k < |m.sets| && s.id == m.sets[k].id
    ensures View(CleanAt(SetAt(m, k, s), k).sets, id) ==
            if id == s.id then Cleaned(EntryOf(s), m.refcount, m.running) else View(m.sets, id)
  {
    hide View, EntryOf, CleanAt, Cleaned;
    SetAtView(m, k, s, id);
    CleanAtView(SetAt(m, k, s), k, id);
  }

  lemma LiveCons(f: Fd, fds: seq<Fd>)
    ensures Live([f] + fds) == LiveOf(f) + Live(fds)
    ensures Marked([f] + fds) == MarkedOf(f) + Marked(fds)
  {
    assert ([f] + fds)[1..] == fds;
  }

  lemma InsertView(sets: seq<Fdset>, k: nat, s: Fdset, id: int)
    requires k <= |sets| && Ordered(sets) && Ordered(sets[..k] + [s] + sets[k..])
    ensures View(sets[..k] + [s] + sets[k..], id) == if id == s.id then EntryOf(s) else View(sets, id)
  {
    hide EntryOf;
    var r := sets[..k] + [s] + sets[k..];
    assert r[k] == s;
    if id == s.id {
      ViewAt(r, k);
    } else {
      forall i | 0 <= i < |r| && r[i].id == id ensures r[i] in sets {
        assert r[i] == sets[if i < k then i else i - 1];
      }
      forall i | 0 <= i < |sets| && sets[i].id == id ensures sets[i] in r {
        assert sets[i] == r[if i < k then i else i + 1];
      }
      SameView(r, sets, id);
    }
  }

  lemma Grown(s: Fdset, fd: int)
    ensures EntryOf(s.(fds := [Fd(fd, false)] + s.fds)) == EntryOf(s).(live := EntryOf(s).live + multiset{fd})
  {
    hide Live, Marked;
    LiveCons(Fd(fd, false), s.fds);
  }

  lemma Fresh(id: int, fd: int)
    ensures EntryOf(Fdset(id, [Fd(fd, false)], [])) == NOTHING.(live := multiset{fd})
  {
    Grown(Fdset(id, [], []), fd);
    assert [Fd(fd, false)] + [] == [Fd(fd, false)];
  }

  lemma AddToView(m: Monitor, id': int, fd: int, id: int)
    requires Inv(m) && id' >= 0
    ensures var was := View(m.sets, id);
            View(AddTo(m, id', fd).sets, id) == if id == id' then was.(live := was.live + multiset{fd}) else was
  {
    hide View, EntryOf, Place, Balanced, Justified, AllInUse;
    var k, new_ := Place(m.sets, id'), Fd(fd, false);
    PlaceSplits(m.sets, id');
    if k < |m.sets| && m.sets[k].id == id' {
      ViewAt(m.sets, k);
      Grown(m.sets[k], fd);
      SetAtView(m, k, m.sets[k].(fds := [new_] + m.sets[k].fds), id);
    } else {
      Fresh(id', fd);
      InsertOrdered(m.sets, k, Fdset(id', [new_], []));
      InsertView(m.sets, k, Fdset(id', [new_], []), id);
      if id == id' { ViewNone(m.sets, id); }
    }
  }

  lemma {:induction false} MarkAllView(fds: seq<Fd>)
    ensures Live(MarkAll(fds)) == multiset{} && Marked(MarkAll(fds)) == Live(fds) + Marked(fds)
  {
    if fds != [] {
      MarkAllView(fds[1..]);
      LiveCons(fds[0].(removed := true), MarkAll(fds[1..]));
    }
  }

  lemma {:induction false} LiveUpdate(fds: seq<Fd>, j: nat, f: Fd)
    requires j < |fds|
    ensures Live(fds[j := f]) + LiveOf(fds[j]) == Live(fds) + LiveOf(f)
  {
    hide LiveOf;
    if j > 0 {
      LiveUpdate(fds[1..], j - 1, f);
      assert fds[j := f][1..] == fds[1..][j - 1 := f];
      Shift(LiveOf(fds[0]), Live(fds[1..][j - 1 := f]), LiveOf(fds[j]), Live(fds[1..]), LiveOf(f));
    } else {
      assert fds[0 := f][1..] == fds[1..];
      Swap(LiveOf(f), Live(fds[1..]), LiveOf(fds[0]));
    }
  }

  lemma {:induction false} MarkedUpdate(fds: seq<Fd>, j: nat, f: Fd)
    requires j < |fds|
    ensures Marked(fds[j := f]) + MarkedOf(fds[j]) == Marked(fds) + MarkedOf(f)
  {
    hide MarkedOf;
    if j > 0 {
      MarkedUpdate(fds[1..], j - 1, f);
      assert fds[j := f][1..] == fds[1..][j - 1 := f];
      Shift(MarkedOf(fds[0]), Marked(fds[1..][j - 1 := f]), MarkedOf(fds[j]), Marked(fds[1..]), MarkedOf(f));
    } else {
      assert fds[0 := f][1..] == fds[1..];
      Swap(MarkedOf(f), Marked(fds[1..]), MarkedOf(fds[0]));
    }
  }

  lemma Shift(a: multiset<int>, x: multiset<int>, b: multiset<int>, y: multiset<int>, c: multiset<int>)
    requires x + b == y + c
    ensures a + x + b == a + y + c
  {
    assert a + x + b == a + (x + b);
    assert a + y + c == a + (y + c);
  }

  lemma Swap(a: multiset<int>, x: multiset<int>, b: multiset<int>)
    ensures a + x + b == b + x + a
  {
  }

  lemma {:induction false} MarkFdFirst(fds: seq<Fd>, fd: int) returns (j: nat)
    requires HasFd(fds, fd)
    ensures j < |fds| && fds[j].fd == fd && MarkFd(fds, fd) == fds[j := fds[j].(removed := true)]
  {
    j := 0;
    while fds[j].fd != fd
      invariant j < |fds| && forall i :: 0 <= i < j ==> fds[i].fd != fd
      decreases |fds| - j
    {
      j := j + 1;
    }
    MarkFdIs(fds, fd, j);
  }

  lemma MarkFdView(fds: seq<Fd>, fd: int, dups: multiset<int>)
    requires HasFd(fds, fd)
    ensures Marks(Entry(Live(fds), Marked(fds), dups), Entry(Live(MarkFd(fds, fd)), Marked(MarkFd(fds, fd)), dups), fd)
  {
    hide Live, Marked, MarkFd, HasFd;
    var j := MarkFdFirst(fds, fd);
    if fds[j].removed {
      assert fds[j := fds[j].(removed := true)] == fds;
      MarkedHas(fds, j);
    } else {
      LiveUpdate(fds, j, fds[j].(removed := true));
      MarkedUpdate(fds, j, fds[j].(removed := true));
      var live, live' := Live(fds), Live(MarkFd(fds, fd));
      assert live == live' + multiset{fd};
      assert fd in live && live' == live - multiset{fd};
    }
  }

  lemma {:induction false} MarkedHas(fds: seq<Fd>, j: nat)
    requires j < |fds| && fds[j].removed
    ensures fds[j].fd in Marked(fds)
  {
    if j > 0 { MarkedHas(fds[1..], j - 1); }
  }

  lemma OneOf(f: Fd, fd: int)
    ensures fd in LiveOf(f) || fd in MarkedOf(f) <==> f.fd == fd
  {
  }

  lemma HasFdCons(fds: seq<Fd>, fd: int)
    requires fds != []
    ensures HasFd(fds, fd) <==> fds[0].fd == fd || HasFd(fds[1..], fd)
  {
    if HasFd(fds[1..], fd) {
      var i :| 0 <= i < |fds[1..]| && fds[1..][i].fd == fd;
      assert fds[i + 1].fd == fd;
    }
    if HasFd(fds, fd) && fds[0].fd != fd {
      var i :| 0 <= i < |fds| && fds[i].fd == fd;
      assert fds[1..][i - 1].fd == fd;
    }
  }

  lemma {:induction false} HasFdView(fds: seq<Fd>, fd: int)
    ensures HasFd(fds, fd) <==> fd in Live(fds) || fd in Marked(fds)
  {
    if fds == [] {
      assert !HasFd(fds, fd);
    } else {
      hide HasFd, LiveOf, MarkedOf;
      HasFdCons(fds, fd);
      OneOf(fds[0], fd);
      HasFdView(fds[1..], fd);
    }
  }

  lemma {:induction false} WithoutMoves(dups: seq<int>, dup: int)
    requires dup in dups
    ensures multiset(dups) == multiset(Without(dups, dup)) + multiset{dup}
  {
    assert dups == [dups[0]] + dups[1..];
    if dups[0] != dup { WithoutMoves(dups[1..], dup); }
  }

  /** Where a set with this id is, and what it stands for. */
  lemma Located(m: Monitor, id: int)
    requires Inv(m)
    ensures var k := IndexOf(m.sets, id);
            if k < |m.sets| then View(m.sets, id) == EntryOf(m.sets[k]) != NOTHING else View(m.sets, id) == NOTHING
  {
    hide View, Live, Marked, Balanced, Justified;
    var k := IndexOf(m.sets, id);
    if k < |m.sets| {
      ViewAt(m.sets, k);
      InUseIsSomething(m.sets[k]);
    } else {
      ViewNone(m.sets, id);
    }
  }

  lemma UnusedIsFree(m: Monitor, id: int)
    requires Inv(m)
    ensures Unused(m.sets, id) <==> id == FirstFree(m.sets, 0)
  {
    hide View, Balanced, Justified, Ordered, AllInUse, FirstFree;
    var k := FirstFree(m.sets, 0);
    OrderedOf(m);
    SmallestUnused(m, 0);
    forall j ensures View(m.sets, j) != NOTHING <==> HasId(m.sets, j) {
      Located(m, j);
    }
  }

  lemma FirstIsIndex(m: Monitor, dup: int, id: int)
    requires Inv(m)
    ensures var k := DupIndex(m.sets, dup);
            && (k < |m.sets| ==> (First(m.sets, id, dup) <==> id == m.sets[k].id))
            && (k == |m.sets| ==> !First(m.sets, id, dup))
  {
    hide View, Balanced, Justified, AllInUse, Live, Marked;
    var k := DupIndex(m.sets, dup);
    if k < |m.sets| { FirstAt(m.sets, k, dup); }
    if dup in View(m.sets, id).dups {
      var j := Seen(m.sets, id, dup);
      assert j >= k;
      if k < |m.sets| && First(m.sets, id, dup) { assert m.sets[k].id <= id; }
    }
  }

  /** An id with a duplicate is that of some set that has it. */
  lemma Seen(sets: seq<Fdset>, id: int, dup: int) returns (j: nat)
    requires Ordered(sets) && dup in View(sets, id).dups
    ensures j < |sets| && sets[j].id == id && dup in sets[j].dups
  {
    if i :| 0 <= i < |sets| && sets[i].id == id {
      ViewAt(sets, i);
      j := i;
    } else {
      ViewNone(sets, id);
    }
  }

  lemma FirstAt(sets: seq<Fdset>, k: nat, dup: int)
    requires Ordered(sets) && k < |sets| && dup in sets[k].dups && forall i :: 0 <= i < k ==> dup !in sets[i].dups
    ensures First(sets, sets[k].id, dup)
  {
    hide View;
    ViewAt(sets, k);
    forall j | j < sets[k].id ensures dup !in View(sets, j).dups {
      if dup in View(sets, j).dups {
        var i := Seen(sets, j, dup);
        assert false;
      }
    }
  }

  lemma DupRemoveBecomes(m: Monitor, dup: int, id: int)
    requires Inv(m)
    ensures Becomes(m, DupRemove(dup), id, View(Step(m, DupRemove(dup)).sets, id))
  {
    hide View, Balanced, Justified, AllInUse, Live, Marked, CleanAt, Cleaned, First, Ordered;
    OrderedOf(m);
    FirstIsIndex(m, dup, id);
    var k := DupIndex(m.sets, dup);
    if k < |m.sets| {
      var s := m.sets[k].(dups := Without(m.sets[k].dups, dup));
      ViewAt(m.sets, k);
      WithoutMoves(m.sets[k].dups, dup);
      assert s.dups != [] ==> s.dups[0] in multiset(s.dups);
      ChangeView(m, k, s, id);
      SetAtView(m, k, s, id);
    }
  }

  lemma RemoveSetBecomes(m: Monitor, id': int, id: int)
    requires Inv(m)
    ensures Becomes(m, RemoveSet(id'), id, View(Step(m, RemoveSet(id')).sets, id))
  {
    hide View, Balanced, Justified, AllInUse, Live, Marked, CleanAt, Ordered;
    OrderedOf(m);
    Located(m, id');
    var k := IndexOf(m.sets, id');
    if k < |m.sets| {
      MarkAllView(m.sets[k].fds);
      ChangeView(m, k, m.sets[k].(fds := MarkAll(m.sets[k].fds)), id);
    }
  }

  lemma RemoveFdBecomes(m: Monitor, id': int, fd: int, id: int)
    requires Inv(m)
    ensures Becomes(m, RemoveFd(id', fd), id, View(Step(m, RemoveFd(id', fd)).sets, id))
  {
    hide View, Balanced, Justified, AllInUse, Live, Marked, CleanAt, Cleaned, Ordered, Marks, HasFd;
    OrderedOf(m);
    Located(m, id');
    var k := IndexOf(m.sets, id');
    if k < |m.sets| {
      var fds := m.sets[k].fds;
      HasFdView(fds, fd);
      if HasFd(fds, fd) {
        MarkFdView(fds, fd, multiset(m.sets[k].dups));
        ChangeView(m, k, m.sets[k].(fds := MarkFd(fds, fd)), id);
      }
    }
  }

  lemma DupAddBecomes(m: Monitor, id': int, dup: int, id: int)
    requires Inv(m)
    ensures Becomes(m, DupAdd(id', dup), id, View(Step(m, DupAdd(id', dup)).sets, id))
  {
    hide View, Balanced, Justified, AllInUse, Live, Marked, Ordered;
    OrderedOf(m);
    Located(m, id');
    var k := IndexOf(m.sets, id');
    if k < |m.sets| {
      SetAtView(m, k, m.sets[k].(dups := [dup] + m.sets[k].dups), id);
    }
  }

  /** Every operation does to every id what the registry's does. */
  lemma StepBecomes(m: Monitor, e: Event, id: int)
    requires Inv(m)
    ensures Becomes(m, e, id, View(Step(m, e).sets, id))
  {
    hide View, Inv, AddTo, CleanAt, CleanFrom, Cleaned, Unused, First, Marks;
    match e
    case AddUnnamed(fd) =>
      UnusedIsFree(m, id);
      AddToView(m, FirstFree(m.sets, 0), fd, id);
      if Unused(m.sets, id) { UnusedIsNothing(m.sets, id); }
    case AddNamed(fd, i) => if i >= 0 { AddToView(m, i, fd, id); }
    case RemoveSet(i) => RemoveSetBecomes(m, i, id);
    case RemoveFd(i, fd) => RemoveFdBecomes(m, i, fd, id);
    case DupAdd(i, dup) => DupAddBecomes(m, i, dup, id);
    case DupRemove(dup) => DupRemoveBecomes(m, dup, id);
    case Close =>
      OrderedOf(m);
      AllCleaned(m.(refcount := m.refcount - 1), id);
    case _ =>
  }

  lemma UnusedIsNothing(sets: seq<Fdset>, id: int)
    requires Unused(sets, id)
    ensures View(sets, id) == NOTHING && id >= 0
  {
  }

  /** In every state of every run. */
  lemma RunBecomes(running: bool, events: seq<Event>, e: Event, id: int)
    ensures var m := Run(Monitor([], 0, running, [], []), events); Becomes(m, e, id, View(Step(m, e).sets, id))
  {
    hide Becomes, View, Step, Inv;
    EmptyInv(running);
    RunInv(Monitor([], 0, running, [], []), events);
    StepBecomes(Run(Monitor([], 0, running, [], []), events), e, id);
  }
}
