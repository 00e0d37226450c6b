/** The monitor's sets of file descriptors passed to it: which it keeps, and when it may close them. */
module FdSets {

  datatype Fd = Fd(fd: int, removed: bool)

  datatype Fdset = Fdset(id: int, fds: seq<Fd>, dups: seq<int>) {
    predicate InUse() {
      fds != [] || dups != []
    }
  }

  /** A close, and what was so at the time. */
  datatype Closing = Closing(fd: int, removed: bool, dups: bool, refcount: int, running: bool)

  /** The list of sets, the number of connected monitors and the run state; and what an observer has seen:
      the descriptors taken and the closes. */
  datatype Monitor = Monitor(sets: seq<Fdset>, refcount: int, running: bool, accepted: seq<int>, closed: seq<Closing>)

  // ---------------------------------------------------------------- cleanup

  /** The condition for closing in monitor_fdset_cleanup. */
  predicate Closes(f: Fd, dups: bool, refcount: int, running: bool) {
    (f.removed || (!dups && refcount == 0)) && running
  }

  function Kept(fds: seq<Fd>, dups: bool, refcount: int, running: bool): seq<Fd> {
    if fds == [] then []
    else if Closes(fds[0], dups, refcount, running) then Kept(fds[1..], dups, refcount, running)
    else [fds[0]] + Kept(fds[1..], dups, refcount, running)
  }

  function Closings(fds: seq<Fd>, dups: bool, refcount: int, running: bool): seq<Closing> {
    if fds == [] then []
    else if Closes(fds[0], dups, refcount, running) then
      [Closing(fds[0].fd, fds[0].removed, dups, refcount, running)] + Closings(fds[1..], dups, refcount, running)
    else Closings(fds[1..], dups, refcount, running)
  }

  /** monitor_fdset_cleanup of the set at `i`. */
  function CleanAt(m: Monitor, i: nat): Monitor
    requires i < |m.sets|
  {
    var s := m.sets[i];
    var kept := s.(fds := Kept(s.fds, s.dups != [], m.refcount, m.running));
    m.(sets := m.sets[..i] + (if kept.InUse() then [kept] else []) + m.sets[i + 1..],
       closed := m.closed + Closings(s.fds, s.dups != [], m.refcount, m.running))
  }

  /** monitor_fdsets_cleanup from the set at `i` on. */
  function CleanFrom(m: Monitor, i: nat): Monitor
    requires i <= |m.sets|
    decreases |m.sets| - i
  {
    if i == |m.sets| then m
    else
      var c := CleanAt(m, i);
      CleanFrom(c, if |c.sets| == |m.sets| then i + 1 else i)
  }

  // ---------------------------------------------------------------- operations

  predicate HasId(sets: seq<Fdset>, id: int) {
    exists i :: 0 <= i < |sets| && sets[i].id == id
  }

  /** How many sets at the front have a smaller id: where a set with this id is, or would go. */
  function Place(sets: seq<Fdset>, id: int): (k: nat)
    ensures k <= |sets|
  {
    if sets == [] || sets[0].id >= id then 0 else 1 + Place(sets[1..], id)
  }

  /** The first id that is not in its place, from `n` on. */
  function FirstFree(sets: seq<Fdset>, n: nat): (k: nat)
    requires n <= |sets|
    ensures n <= k <= |sets|
    decreases |sets| - n
  {
    if n < |sets| && sets[n].id == n then FirstFree(sets, n + 1) else n
  }

  /** monitor_fdset_add_fd into the set with this id, made if need be. */
  function AddTo(m: Monitor, id: int, fd: int): Monitor {
    var k := Place(m.sets, id);
    var new_ := Fd(fd, false);
    var sets :=
      if k < |m.sets| && m.sets[k].id == id then m.sets[k := m.sets[k].(fds := [new_] + m.sets[k].fds)]
      else m.sets[..k] + [Fdset(id, [new_], [])] + m.sets[k..];
    m.(sets := sets, accepted := m.accepted + [fd])
  }

  /** The first descriptor with this number is marked; with none, nothing is. */
  function MarkFd(fds: seq<Fd>, fd: int): seq<Fd> {
    if fds == [] then []
    else if fds[0].fd == fd then [fds[0].(removed := true)] + fds[1..]
    else [fds[0]] + MarkFd(fds[1..], fd)
  }

  function MarkAll(fds: seq<Fd>): seq<Fd> {
    if fds == [] then [] else [fds[0].(removed := true)] + MarkAll(fds[1..])
  }

  function IndexOf(sets: seq<Fdset>, id: int): (k: nat)
    ensures k <= |sets| && (k < |sets| ==> sets[k].id == id)
    ensures k < |sets| <==> HasId(sets, id)
  {
    if sets == [] then 0
    else if sets[0].id == id then 0
    else
      var k := IndexOf(sets[1..], id);
      assert HasId(sets, id) <==> HasId(sets[1..], id) by {
        if i :| 0 <= i < |sets| && sets[i].id == id { assert sets[1..][i - 1].id == id; }
        if i :| 0 <= i < |sets[1..]| && sets[1..][i].id == id { assert sets[i + 1].id == id; }
      }
      1 + k
  }

  function Without(dups: seq<int>, dup: int): seq<int> {
    if dups == [] then []
    else if dups[0] == dup then dups[1..]
    else [dups[0]] + Without(dups[1..], dup)
  }

  /** The first set with this duplicate. */
  function DupIndex(sets: seq<Fdset>, dup: int): (k: nat)
    ensures k <= |sets| && (k < |sets| ==> dup in sets[k].dups)
    ensures forall i :: 0 <= i < k ==> dup !in sets[i].dups
  {
    if sets == [] || dup in sets[0].dups then 0 else 1 + DupIndex(sets[1..], dup)
  }

  datatype Event =
    | AddUnnamed(fd: int)
    | AddNamed(fd: int, id: int)
    | RemoveSet(id: int)
    | RemoveFd(id: int, fd: int)
    | DupAdd(id: int, dup: int)
    | DupRemove(dup: int)
    | Open
    | Close
    | RunState(running: bool)

  predicate HasFd(fds: seq<Fd>, fd: int) {
    exists i :: 0 <= i < |fds| && fds[i].fd == fd
  }

  function SetAt(m: Monitor, k: nat, s: Fdset): Monitor
    requires k < |m.sets|
  {
    m.(sets := m.sets[k := s])
  }

  function Step(m: Monitor, e: Event): Monitor {
    match e
    case AddUnnamed(fd) => AddTo(m, FirstFree(m.sets, 0), fd)
    case AddNamed(fd, id) => if id < 0 then m else AddTo(m, id, fd)
    case RemoveSet(id) =>
      var k := IndexOf(m.sets, id);
      if k == |m.sets| then m
      else CleanAt(SetAt(m, k, m.sets[k].(fds := MarkAll(m.sets[k].fds))), k)
    case RemoveFd(id, fd) =>
      var k := IndexOf(m.sets, id);
      if k == |m.sets| || !HasFd(m.sets[k].fds, fd) then m
      else CleanAt(SetAt(m, k, m.sets[k].(fds := MarkFd(m.sets[k].fds, fd))), k)
    case DupAdd(id, dup) =>
      var k := IndexOf(m.sets, id);
      if k == |m.sets| || dup in m.sets[k].dups then m
      else SetAt(m, k, m.sets[k].(dups := [dup] + m.sets[k].dups))
    case DupRemove(dup) =>
      var k := DupIndex(m.sets, dup);
      if k == |m.sets| then m
      else
        var s := m.sets[k].(dups := Without(m.sets[k].dups, dup));
        if s.dups == [] then CleanAt(SetAt(m, k, s), k) else SetAt(m, k, s)
    case Open => m.(refcount := m.refcount + 1)
    case Close => CleanFrom(m.(refcount := m.refcount - 1), 0)
    case RunState(running) => m.(running := running)
  }

  // ---------------------------------------------------------------- what every run keeps

  /** Ids are not negative, and ascend. */
  predicate Ordered(sets: seq<Fdset>) {
    && (forall i :: 0 <= i < |sets| ==> sets[i].id >= 0)
    && forall i, j :: 0 <= i < j < |sets| ==> sets[i].id < sets[j].id
  }

  predicate AllInUse(sets: seq<Fdset>) {
    forall i :: 0 <= i < |sets| ==> sets[i].InUse()
  }

  function Numbers(fds: seq<Fd>): multiset<int> {
    if fds == [] then multiset{} else multiset{fds[0].fd} + Numbers(fds[1..])
  }

  function Held(sets: seq<Fdset>): multiset<int> {
    if sets == [] then multiset{} else Numbers(sets[0].fds) + Held(sets[1..])
  }

  function Closed(log: seq<Closing>): multiset<int> {
    if log == [] then multiset{} else multiset{log[0].fd} + Closed(log[1..])
  }

  /** Every descriptor taken is held or was closed, as often as it was taken. */
  predicate Balanced(m: Monitor) {
    multiset(m.accepted) == Held(m.sets) + Closed(m.closed)
  }

  /** A descriptor not marked removed was closed with no duplicate live and no monitor connected; and
      nothing is closed while the machine does not run. */
  predicate Justified(log: seq<Closing>) {
    forall i :: 0 <= i < |log| ==> log[i].running && (log[i].removed || (!log[i].dups && log[i].refcount == 0))
  }

  predicate Inv(m: Monitor) {
    Ordered(m.sets) && AllInUse(m.sets) && Balanced(m) && Justified(m.closed)
  }

  lemma {:induction false} HeldSplit(a: seq<Fdset>, b: seq<Fdset>)
    ensures Held(a + b) == Held(a) + Held(b)
  {
    if a == [] {
      assert a + b == b;
    } else {
      assert (a + b)[1..] == a[1..] + b;
      HeldSplit(a[1..], b);
    }
  }

  lemma {:induction false} ClosedSplit(a: seq<Closing>, b: seq<Closing>)
    ensures Closed(a + b) == Closed(a) + Closed(b)
  {
    if a == [] {
      assert a + b == b;
    } else {
      assert (a + b)[1..] == a[1..] + b;
      ClosedSplit(a[1..], b);
    }
  }

  lemma NumbersCons(f: Fd, fds: seq<Fd>)
    ensures Numbers([f] + fds) == multiset{f.fd} + Numbers(fds)
  {
    assert ([f] + fds)[1..] == fds;
  }

  lemma ClosedCons(c: Closing, log: seq<Closing>)
    ensures Closed([c] + log) == multiset{c.fd} + Closed(log)
  {
    assert ([c] + log)[1..] == log;
  }

  lemma {:induction false} KeptOrClosed(fds: seq<Fd>, dups: bool, refcount: int, running: bool)
    ensures Numbers(fds) == Numbers(Kept(fds, dups, refcount, running)) + Closed(Closings(fds, dups, refcount, running))
  {
    hide Closes;
    if fds != [] {
      var f, kept, log := fds[0], Kept(fds[1..], dups, refcount, running), Closings(fds[1..], dups, refcount, running);
      KeptOrClosed(fds[1..], dups, refcount, running);
      NumbersCons(f, kept);
      ClosedCons(Closing(f.fd, f.removed, dups, refcount, running), log);
    }
  }

  lemma {:induction false} ClosingsJustified(fds: seq<Fd>, dups: bool, refcount: int, running: bool)
    ensures Justified(Closings(fds, dups, refcount, running))
  {
    if fds != [] {
      ClosingsJustified(fds[1..], dups, refcount, running);
    }
  }

  /** The descriptors held, with the set at `k` apart. */
  lemma HeldAt(sets: seq<Fdset>, k: nat)
    requires k < |sets|
    ensures Held(sets) == Held(sets[..k]) + Numbers(sets[k].fds) + Held(sets[k + 1..])
  {
    assert sets == sets[..k] + sets[k..] && sets[k..] == [sets[k]] + sets[k + 1..];
    HeldSplit(sets[..k], sets[k..]);
  }

  lemma HeldWith(before: seq<Fdset>, mid: seq<Fdset>, after: seq<Fdset>)
    requires |mid| <= 1
    ensures Held(before + mid + after) == Held(before) + (if mid == [] then multiset{} else Numbers(mid[0].fds)) + Held(after)
  {
    HeldSplit(before + mid, after);
    HeldSplit(before, mid);
    assert mid != [] ==> Held(mid) == Numbers(mid[0].fds) + Held([]);
  }

  /** Everything but that each set is in use, which cleanup restores. */
  predicate Sound(m: Monitor) {
    Ordered(m.sets) && Balanced(m) && Justified(m.closed)
  }

  /** All sets but the one at `k` are in use. */
  predicate OthersInUse(sets: seq<Fdset>, k: nat) {
    forall i :: 0 <= i < |sets| && i != k ==> sets[i].InUse()
  }

  /** The set at `k` replaced by one with its id, or by none. */
  function Splice(sets: seq<Fdset>, k: nat, mid: seq<Fdset>): seq<Fdset>
    requires k < |sets|
  {
    sets[..k] + mid + sets[k + 1..]
  }

  lemma SpliceOrdered(sets: seq<Fdset>, k: nat, mid: seq<Fdset>)
    requires k < |sets| && Ordered(sets) && (mid == [] || (|mid| == 1 && mid[0].id == sets[k].id))
    ensures Ordered(Splice(sets, k, mid))
  {
    var r := Splice(sets, k, mid);
    if mid != [] {
      assert forall i :: 0 <= i < |r| ==> r[i].id == sets[i].id;
    } else {
      assert forall i :: 0 <= i < |r| ==> r[i] == sets[if i < k then i else i + 1];
    }
  }

  lemma SpliceInUse(sets: seq<Fdset>, k: nat, mid: seq<Fdset>)
    requires k < |sets| && OthersInUse(sets, k) && (mid == [] || (|mid| == 1 && mid[0].InUse()))
    ensures AllInUse(Splice(sets, k, mid))
  {
    var r := Splice(sets, k, mid);
    forall i | 0 <= i < |r| ensures r[i].InUse() {
      if i >= k && mid == [] {
        assert r[i] == sets[i + 1];
      }
    }
  }

  lemma CleanAtBalanced(m: Monitor, k: nat)
    requires k < |m.sets| && Balanced(m)
    ensures Balanced(CleanAt(m, k))
  {
    hide Kept, Closings, Closed, Held, Numbers;
    var s := m.sets[k];
    var fds, log := Kept(s.fds, s.dups != [], m.refcount, m.running), Closings(s.fds, s.dups != [], m.refcount, m.running);
    KeptOrClosed(s.fds, s.dups != [], m.refcount, m.running);
    ClosedSplit(m.closed, log);
    HeldAt(m.sets, k);
    NoNumbers();
    HeldWith(m.sets[..k], if s.(fds := fds).InUse() then [s.(fds := fds)] else [], m.sets[k + 1..]);
  }

  lemma NoNumbers()
    ensures Numbers([]) == multiset{}
  {
  }

  lemma CleanAtSound(m: Monitor, k: nat)
    requires k < |m.sets| && Sound(m)
    ensures Sound(CleanAt(m, k))
    ensures OthersInUse(m.sets, k) ==> AllInUse(CleanAt(m, k).sets)
  {
    hide Kept, Closings, Balanced, Ordered, OthersInUse, AllInUse;
    var s := m.sets[k];
    var kept := s.(fds := Kept(s.fds, s.dups != [], m.refcount, m.running));
    var mid := if kept.InUse() then [kept] else [];
    SpliceOrdered(m.sets, k, mid);
    if OthersInUse(m.sets, k) { SpliceInUse(m.sets, k, mid); }
    CleanAtBalanced(m, k);
    ClosingsJustified(s.fds, s.dups != [], m.refcount, m.running);
  }

  lemma {:induction false} CleanFromSound(m: Monitor, i: nat)
    requires i <= |m.sets| && Sound(m) && AllInUse(m.sets)
    ensures Inv(CleanFrom(m, i))
    decreases |m.sets| - i
  {
    hide Ordered, Balanced, Justified, CleanAt;
    if i < |m.sets| {
      CleanAtSound(m, i);
      CleanAtLength(m, i);
      var c := CleanAt(m, i);
      CleanFromSound(c, if |c.sets| == |m.sets| then i + 1 else i);
    }
  }

  lemma CleanAtLength(m: Monitor, i: nat)
    requires i < |m.sets|
    ensures |m.sets| - 1 <= |CleanAt(m, i).sets| <= |m.sets|
  {
  }

  lemma SetAtSound(m: Monitor, k: nat, s: Fdset)
    requires k < |m.sets| && Sound(m) && s.id == m.sets[k].id && Numbers(s.fds) == Numbers(m.sets[k].fds)
    ensures Sound(SetAt(m, k, s))
    ensures AllInUse(m.sets) ==> OthersInUse(SetAt(m, k, s).sets, k)
  {
    hide Held, Numbers;
    assert m.sets[k := s] == Splice(m.sets, k, [s]);
    SpliceOrdered(m.sets, k, [s]);
    HeldAt(m.sets, k);
    HeldWith(m.sets[..k], [s], m.sets[k + 1..]);
  }

  lemma {:induction false} MarkAllNumbers(fds: seq<Fd>)
    ensures Numbers(MarkAll(fds)) == Numbers(fds)
  {
    if fds != [] {
      MarkAllNumbers(fds[1..]);
      NumbersCons(fds[0].(removed := true), MarkAll(fds[1..]));
    }
  }

  lemma {:induction false} MarkFdNumbers(fds: seq<Fd>, fd: int)
    ensures Numbers(MarkFd(fds, fd)) == Numbers(fds)
  {
    if fds != [] {
      MarkFdNumbers(fds[1..], fd);
      NumbersCons(fds[0].(removed := true), fds[1..]);
      NumbersCons(fds[0], MarkFd(fds[1..], fd));
    }
  }

  /** Where a set with this id is or goes: after the smaller ids and before the larger. */
  lemma {:induction false} PlaceSplits(sets: seq<Fdset>, id: int)
    requires Ordered(sets)
    ensures var k := Place(sets, id);
            && (forall i :: 0 <= i < k ==> sets[i].id < id)
            && (forall i :: k <= i < |sets| ==> sets[i].id >= id)
  {
    if sets != [] && sets[0].id < id {
      PlaceSplits(sets[1..], id);
      var k := Place(sets[1..], id);
      assert forall i :: 0 <= i < k ==> sets[i + 1] == sets[1..][i];
      forall i | 1 + k <= i < |sets| ensures sets[i].id >= id { assert sets[i] == sets[1..][i - 1]; }
      forall i | 0 <= i < 1 + k ensures sets[i].id < id { assert i > 0 ==> sets[i] == sets[1..][i - 1]; }
    }
  }

  lemma InsertOrdered(sets: seq<Fdset>, k: nat, s: Fdset)
    requires k <= |sets| && Ordered(sets) && s.id >= 0
    requires (forall i :: 0 <= i < k ==> sets[i].id < s.id) && (forall i :: k <= i < |sets| ==> sets[i].id > s.id)
    ensures Ordered(sets[..k] + [s] + sets[k..])
  {
    var r := sets[..k] + [s] + sets[k..];
    assert forall i :: 0 <= i < |r| ==> r[i] == if i < k then sets[i] else if i == k then s else sets[i - 1];
  }

  lemma GrowSound(m: Monitor, k: nat, fd: int)
    requires Inv(m) && k < |m.sets|
    ensures Inv(m.(sets := m.sets[k := m.sets[k].(fds := [Fd(fd, false)] + m.sets[k].fds)], accepted := m.accepted + [fd]))
  {
    hide Held, Numbers, Ordered;
    var s := m.sets[k].(fds := [Fd(fd, false)] + m.sets[k].fds);
    assert m.sets[k := s] == Splice(m.sets, k, [s]);
    SpliceOrdered(m.sets, k, [s]);
    NumbersCons(Fd(fd, false), m.sets[k].fds);
    HeldAt(m.sets, k);
    HeldWith(m.sets[..k], [s], m.sets[k + 1..]);
  }

  lemma MakeSound(m: Monitor, k: nat, s: Fdset, fd: int)
    requires Inv(m) && k <= |m.sets| && s.fds == [Fd(fd, false)] && Ordered(m.sets[..k] + [s] + m.sets[k..])
    ensures Inv(m.(sets := m.sets[..k] + [s] + m.sets[k..], accepted := m.accepted + [fd]))
  {
    hide Held, Numbers, Ordered;
    NoNumbers();
    NumbersCons(Fd(fd, false), []);
    assert [Fd(fd, false)] + [] == s.fds;
    HeldWith(m.sets[..k], [s], m.sets[k..]);
    HeldSplit(m.sets[..k], m.sets[k..]);
    assert m.sets[..k] + m.sets[k..] == m.sets;
  }

  /** A set made, or one grown by one descriptor. */
  lemma AddToSound(m: Monitor, id: int, fd: int)
    requires Inv(m) && id >= 0
    ensures Inv(AddTo(m, id, fd))
  {
    hide Held, Numbers, Place, Balanced, Justified, AllInUse;
    var k, s := Place(m.sets, id), Fdset(id, [Fd(fd, false)], []);
    PlaceSplits(m.sets, id);
    if k < |m.sets| && m.sets[k].id == id {
      GrowSound(m, k, fd);
    } else {
      assert forall i :: k <= i < |m.sets| ==> m.sets[i].id > id;
      InsertOrdered(m.sets, k, s);
      MakeSound(m, k, s, fd);
    }
  }

  lemma {:induction false} FirstFreeScan(sets: seq<Fdset>, n: nat)
    requires n <= |sets|
    ensures forall j :: n <= j < FirstFree(sets, n) ==> sets[j].id == j
    ensures var k := FirstFree(sets, n); k < |sets| ==> sets[k].id != k
    decreases |sets| - n
  {
    if n < |sets| && sets[n].id == n { FirstFreeScan(sets, n + 1); }
  }

  lemma {:induction false} IdsSpread(sets: seq<Fdset>, i: nat)
    requires Ordered(sets) && i < |sets|
    ensures sets[i].id >= i
  {
    if i > 0 { IdsSpread(sets, i - 1); }
  }

  /** An unnamed add gets the smallest id not in use. */
  lemma SmallestUnused(m: Monitor, fd: int)
    requires Ordered(m.sets)
    ensures var k := FirstFree(m.sets, 0);
            && !HasId(m.sets, k)
            && (forall j :: 0 <= j < k ==> HasId(m.sets, j))
            && Step(m, AddUnnamed(fd)) == AddTo(m, k, fd)
  {
    var k := FirstFree(m.sets, 0);
    FirstFreeScan(m.sets, 0);
    forall i | 0 <= i < |m.sets| ensures m.sets[i].id != k {
      IdsSpread(m.sets, i);
      if k < i { IdsSpread(m.sets, k); }
    }
    forall j | 0 <= j < k ensures HasId(m.sets, j) { assert m.sets[j].id == j; }
  }

  lemma StepInv(m: Monitor, e: Event)
    requires Inv(m)
    ensures Inv(Step(m, e))
  {
    hide Ordered, Balanced, Justified, CleanAt, CleanFrom, AddTo, Numbers, MarkAll, MarkFd;
    match e
    case AddUnnamed(fd) => AddToSound(m, FirstFree(m.sets, 0), fd);
    case AddNamed(fd, id) => if id >= 0 { AddToSound(m, id, fd); }
    case RemoveSet(id) =>
      var k := IndexOf(m.sets, id);
      if k < |m.sets| {
        var s := m.sets[k].(fds := MarkAll(m.sets[k].fds));
        MarkAllNumbers(m.sets[k].fds);
        SetAtSound(m, k, s);
        CleanAtSound(SetAt(m, k, s), k);
      }
    case RemoveFd(id, fd) =>
      var k := IndexOf(m.sets, id);
      if k < |m.sets| {
        var s := m.sets[k].(fds := MarkFd(m.sets[k].fds, fd));
        MarkFdNumbers(m.sets[k].fds, fd);
        SetAtSound(m, k, s);
        CleanAtSound(SetAt(m, k, s), k);
      }
    case DupAdd(id, dup) =>
      var k := IndexOf(m.sets, id);
      if k < |m.sets| { SetAtSound(m, k, m.sets[k].(dups := [dup] + m.sets[k].dups)); }
    case DupRemove(dup) =>
      var k := DupIndex(m.sets, dup);
      if k < |m.sets| {
        var s := m.sets[k].(dups := Without(m.sets[k].dups, dup));
        SetAtSound(m, k, s);
        CleanAtSound(SetAt(m, k, s), k);
      }
    case Open => Untouched(m, m.(refcount := m.refcount + 1));
    case Close =>
      Untouched(m, m.(refcount := m.refcount - 1));
      CleanFromSound(m.(refcount := m.refcount - 1), 0);
    case RunState(running) => Untouched(m, m.(running := running));
  }

  lemma Untouched(m: Monitor, n: Monitor)
    requires Inv(m) && n.sets == m.sets && n.accepted == m.accepted && n.closed == m.closed
    ensures Inv(n)
  {
  }

  function Run(m: Monitor, events: seq<Event>): Monitor
    decreases events
  {
    if events == [] then m else Run(Step(m, events[0]), events[1..])
  }

  lemma {:induction false} RunInv(m: Monitor, events: seq<Event>)
    requires Inv(m)
    ensures Inv(Run(m, events))
    decreases events
  {
    hide Inv, Step;
    if events != [] {
      StepInv(m, events[0]);
      RunInv(Step(m, events[0]), events[1..]);
    }
  }

  // ---------------------------------------------------------------- descriptors in use

  /** A set with this id holds the descriptor, not marked removed. */
  predicate Holds(sets: seq<Fdset>, id: int, fd: int) {
    exists i :: 0 <= i < |sets| && sets[i].id == id && Fd(fd, false) in sets[i].fds
  }

  /** A set with this id has a duplicate. */
  predicate LiveDup(sets: seq<Fdset>, id: int) {
    exists i :: 0 <= i < |sets| && sets[i].id == id && sets[i].dups != []
  }

  /** The event asks for the removal of the descriptor. */
  predicate Removes(e: Event, id: int, fd: int) {
    e == RemoveSet(id) || e == RemoveFd(id, fd)
  }

  lemma {:induction false} KeptHas(fds: seq<Fd>, f: Fd, dups: bool, refcount: int, running: bool)
    requires f in fds && !Closes(f, dups, refcount, running)
    ensures f in Kept(fds, dups, refcount, running)
  {
    hide Closes;
    if f != fds[0] {
      KeptHas(fds[1..], f, dups, refcount, running);
    }
  }

  /** A cleanup takes nothing unmarked from a set with a duplicate, or while a monitor is connected. */
  lemma CleanAtHolds(m: Monitor, k: nat, id: int, fd: int)
    requires k < |m.sets| && Ordered(m.sets) && Holds(m.sets, id, fd) && (LiveDup(m.sets, id) || m.refcount != 0)
    ensures Holds(CleanAt(m, k).sets, id, fd)
  {
    hide Kept, Closings;
    var i :| 0 <= i < |m.sets| && m.sets[i].id == id && Fd(fd, false) in m.sets[i].fds;
    var s, r := m.sets[k], CleanAt(m, k).sets;
    var kept := Kept(s.fds, s.dups != [], m.refcount, m.running);
    if i < k {
      assert r[i] == m.sets[i];
    } else if i == k {
      assert LiveDup(m.sets, id) ==> s.dups != [];
      KeptHas(s.fds, Fd(fd, false), s.dups != [], m.refcount, m.running);
      assert r[k] == s.(fds := kept);
    } else {
      var j := if s.(fds := kept).InUse() then i else i - 1;
      assert r[j] == m.sets[i];
    }
  }

  lemma CleanAtDups(m: Monitor, k: nat, id: int)
    requires k < |m.sets| && LiveDup(CleanAt(m, k).sets, id)
    ensures LiveDup(m.sets, id)
  {
    hide Kept, Closings;
    var r := CleanAt(m, k).sets;
    var i :| 0 <= i < |r| && r[i].id == id && r[i].dups != [];
    var j := if i < k || |r| == |m.sets| then i else i + 1;
    assert r[i].id == m.sets[j].id && r[i].dups == m.sets[j].dups;
  }

  lemma {:induction false} CleanFromDups(m: Monitor, i: nat, id: int)
    requires i <= |m.sets| && LiveDup(CleanFrom(m, i).sets, id)
    ensures LiveDup(m.sets, id)
    decreases |m.sets| - i
  {
    hide CleanAt, LiveDup;
    if i < |m.sets| {
      var c := CleanAt(m, i);
      CleanAtLength(m, i);
      CleanFromDups(c, if |c.sets| == |m.sets| then i + 1 else i, id);
      CleanAtDups(m, i, id);
    }
  }

  lemma {:induction false} CleanFromHolds(m: Monitor, i: nat, id: int, fd: int)
    requires i <= |m.sets| && Sound(m) && Holds(m.sets, id, fd)
    requires LiveDup(CleanFrom(m, i).sets, id) || m.refcount != 0
    ensures Holds(CleanFrom(m, i).sets, id, fd)
    decreases |m.sets| - i
  {
    hide CleanAt, LiveDup, Holds, Ordered, Balanced, Justified;
    if i < |m.sets| {
      var c := CleanAt(m, i);
      var j := if |c.sets| == |m.sets| then i + 1 else i;
      CleanAtLength(m, i);
      CleanAtRefcount(m, i);
      CleanAtSound(m, i);
      if LiveDup(CleanFrom(m, i).sets, id) { CleanFromDups(m, i, id); }
      CleanAtHolds(m, i, id, fd);
      CleanFromHolds(c, j, id, fd);
    }
  }

  lemma CleanAtRefcount(m: Monitor, i: nat)
    requires i < |m.sets|
    ensures CleanAt(m, i).refcount == m.refcount
  {
  }

  lemma {:induction false} MarkFdHas(fds: seq<Fd>, g: int, f: Fd)
    requires f in fds && f.fd != g
    ensures f in MarkFd(fds, g)
  {
    if fds[0].fd != g && f != fds[0] {
      MarkFdHas(fds[1..], g, f);
    }
  }

  lemma AddToHolds(m: Monitor, id': int, new_: int, id: int, fd: int)
    requires Holds(m.sets, id, fd)
    ensures Holds(AddTo(m, id', new_).sets, id, fd)
  {
    var i :| 0 <= i < |m.sets| && m.sets[i].id == id && Fd(fd, false) in m.sets[i].fds;
    var k, r := Place(m.sets, id'), AddTo(m, id', new_).sets;
    if |r| == |m.sets| {
      assert r[i].id == id && Fd(fd, false) in r[i].fds;
    } else {
      assert r[if i < k then i else i + 1] == m.sets[i];
    }
  }

  /** One set replaced: the descriptor is still held if it is in the new one. */
  lemma SetAtHolds(m: Monitor, k: nat, s: Fdset, id: int, fd: int)
    requires k < |m.sets| && Ordered(m.sets) && Holds(m.sets, id, fd) && s.id == m.sets[k].id
    requires s.id == id && Fd(fd, false) in m.sets[k].fds ==> Fd(fd, false) in s.fds
    ensures Holds(SetAt(m, k, s).sets, id, fd)
  {
    var i :| 0 <= i < |m.sets| && m.sets[i].id == id && Fd(fd, false) in m.sets[i].fds;
    assert i == k ==> SetAt(m, k, s).sets[k] == s;
    assert i != k ==> SetAt(m, k, s).sets[i] == m.sets[i];
  }

  /** A change of one set and its cleanup. */
  lemma ChangeHolds(m: Monitor, k: nat, s: Fdset, id: int, fd: int)
    requires Inv(m) && k < |m.sets| && Holds(m.sets, id, fd) && s.id == m.sets[k].id && Numbers(s.fds) == Numbers(m.sets[k].fds)
    requires s.id == id && Fd(fd, false) in m.sets[k].fds ==> Fd(fd, false) in s.fds
    requires var c := CleanAt(SetAt(m, k, s), k); LiveDup(c.sets, id) || c.refcount != 0
    ensures Holds(CleanAt(SetAt(m, k, s), k).sets, id, fd)
  {
    hide CleanAt, LiveDup, Holds, Ordered, Balanced, Justified, Numbers;
    var n := SetAt(m, k, s);
    SetAtSound(m, k, s);
    SetAtHolds(m, k, s, id, fd);
    CleanAtRefcount(n, k);
    if LiveDup(CleanAt(n, k).sets, id) { CleanAtDups(n, k, id); }
    CleanAtHolds(n, k, id, fd);
  }

  /** A descriptor not marked removed stays with its set, whatever happens but its own removal, if the set
      still has a duplicate after it or a monitor is still connected. */
  lemma UnmarkedKept(m: Monitor, e: Event, id: int, fd: int)
    requires Inv(m) && Holds(m.sets, id, fd) && !Removes(e, id, fd)
    requires LiveDup(Step(m, e).sets, id) || Step(m, e).refcount != 0
    ensures Holds(Step(m, e).sets, id, fd)
  {
    hide CleanAt, CleanFrom, LiveDup, Holds, AddTo, Balanced, Justified, Numbers, MarkAll, MarkFd, AllInUse, Ordered;
    match e
    case AddUnnamed(g) => AddToHolds(m, FirstFree(m.sets, 0), g, id, fd);
    case AddNamed(g, id') => if id' >= 0 { AddToHolds(m, id', g, id, fd); }
    case RemoveSet(id') =>
      var k := IndexOf(m.sets, id');
      if k < |m.sets| {
        MarkAllNumbers(m.sets[k].fds);
        ChangeHolds(m, k, m.sets[k].(fds := MarkAll(m.sets[k].fds)), id, fd);
      }
    case RemoveFd(id', g) =>
      var k := IndexOf(m.sets, id');
      if k < |m.sets| && HasFd(m.sets[k].fds, g) {
        MarkFdNumbers(m.sets[k].fds, g);
        if id' == id && Fd(fd, false) in m.sets[k].fds { MarkFdHas(m.sets[k].fds, g, Fd(fd, false)); }
        ChangeHolds(m, k, m.sets[k].(fds := MarkFd(m.sets[k].fds, g)), id, fd);
      }
    case DupAdd(id', dup) =>
      var k := IndexOf(m.sets, id');
      if k < |m.sets| { SetAtHolds(m, k, m.sets[k].(dups := [dup] + m.sets[k].dups), id, fd); }
    case DupRemove(dup) =>
      var k := DupIndex(m.sets, dup);
      if k < |m.sets| {
        var s := m.sets[k].(dups := Without(m.sets[k].dups, dup));
        if s.dups == [] { ChangeHolds(m, k, s, id, fd); } else { SetAtHolds(m, k, s, id, fd); }
      }
    case Open =>
    case Close =>
      var n := m.(refcount := m.refcount - 1);
      Untouched(m, n);
      CleanFromRefcount(n, 0);
      CleanFromHolds(n, 0, id, fd);
    case RunState(_) =>
  }

  lemma {:induction false} CleanFromRefcount(m: Monitor, i: nat)
    requires i <= |m.sets|
    ensures CleanFrom(m, i).refcount == m.refcount
    decreases |m.sets| - i
  {
    if i < |m.sets| {
      var c := CleanAt(m, i);
      CleanFromRefcount(c, if |c.sets| == |m.sets| then i + 1 else i);
    }
  }

  /** Along the run nothing asks for the descriptor's removal, and after each event its set has a duplicate or
      a monitor is connected. */
  predicate InUseThroughout(m: Monitor, events: seq<Event>, id: int, fd: int)
    decreases events
  {
    events == [] ||
    (var n := Step(m, events[0]);
     !Removes(events[0], id, fd) && (LiveDup(n.sets, id) || n.refcount != 0) && InUseThroughout(n, events[1..], id, fd))
  }

  lemma {:induction false} InUseKept(m: Monitor, events: seq<Event>, id: int, fd: int)
    requires Inv(m) && Holds(m.sets, id, fd) && InUseThroughout(m, events, id, fd)
    ensures Holds(Run(m, events).sets, id, fd)
    decreases events
  {
    hide Inv, Step, LiveDup, Holds, Removes;
    if events != [] {
      UnmarkedKept(m, events[0], id, fd);
      StepInv(m, events[0]);
      InUseKept(Step(m, events[0]), events[1..], id, fd);
    }
  }

  /** Descriptor ownership over whole runs from the start: ids ascend from zero, no set is empty, every
      descriptor taken is held or closed as often as it was taken, so that one taken once is either held
      once or closed once; and one that is held unmarked at any point stays held for as long as it is in use. */
  lemma Ownership(running: bool, events: seq<Event>, more: seq<Event>, id: int, fd: int)
    ensures var m := Run(Monitor([], 0, running, [], []), events);
            && Inv(m)
            && (forall g :: multiset(m.accepted)[g] == 1 ==> Held(m.sets)[g] + Closed(m.closed)[g] == 1)
            && (Holds(m.sets, id, fd) && InUseThroughout(m, more, id, fd) ==> Holds(Run(m, more).sets, id, fd))
  {
    hide Holds, InUseThroughout, Run, Held, Closed;
    var m := Run(Monitor([], 0, running, [], []), events);
    EmptyInv(running);
    RunInv(Monitor([], 0, running, [], []), events);
    if Holds(m.sets, id, fd) && InUseThroughout(m, more, id, fd) { InUseKept(m, more, id, fd); }
  }

  lemma EmptyInv(running: bool)
    ensures Inv(Monitor([], 0, running, [], []))
  {
  }

  // ---------------------------------------------------------------- in place

  lemma {:induction false} PlaceIs(sets: seq<Fdset>, id: int, k: nat)
    requires k <= |sets| && (forall i :: 0 <= i < k ==> sets[i].id < id) && (k < |sets| ==> sets[k].id >= id)
    ensures Place(sets, id) == k
  {
    if k > 0 { PlaceIs(sets[1..], id, k - 1); }
  }

  lemma {:induction false} FirstFreeIs(sets: seq<Fdset>, n: nat, k: nat)
    requires n <= k <= |sets| && (forall i :: n <= i < k ==> sets[i].id == i) && (k < |sets| ==> sets[k].id != k)
    ensures FirstFree(sets, n) == k
    decreases k - n
  {
    if n < k { FirstFreeIs(sets, n + 1, k); }
  }

  lemma {:induction false} KeptSnoc(fds: seq<Fd>, f: Fd, dups: bool, refcount: int, running: bool)
    ensures Kept(fds + [f], dups, refcount, running) ==
            if Closes(f, dups, refcount, running) then Kept(fds, dups, refcount, running) else Kept(fds, dups, refcount, running) + [f]
    ensures Closings(fds + [f], dups, refcount, running) ==
            if Closes(f, dups, refcount, running)
            then Closings(fds, dups, refcount, running) + [Closing(f.fd, f.removed, dups, refcount, running)]
            else Closings(fds, dups, refcount, running)
  {
    hide Closes;
    if fds != [] {
      assert (fds + [f])[1..] == fds[1..] + [f];
      KeptSnoc(fds[1..], f, dups, refcount, running);
    }
  }

  lemma {:induction false} IndexOfIs(sets: seq<Fdset>, id: int, k: nat)
    requires k <= |sets| && (forall i :: 0 <= i < k ==> sets[i].id != id) && (k < |sets| ==> sets[k].id == id)
    ensures IndexOf(sets, id) == k
  {
    if k > 0 { IndexOfIs(sets[1..], id, k - 1); }
  }

  lemma IndexOfFinds(sets: seq<Fdset>, id: int)
    ensures IndexOf(sets, id) < |sets| <==> HasId(sets, id)
  {
  }

  lemma {:induction false} DupIndexIs(sets: seq<Fdset>, dup: int, k: nat)
    requires k <= |sets| && (forall i :: 0 <= i < k ==> dup !in sets[i].dups) && (k < |sets| ==> dup in sets[k].dups)
    ensures DupIndex(sets, dup) == k
  {
    if k > 0 { DupIndexIs(sets[1..], dup, k - 1); }
  }

  lemma {:induction false} WithoutIs(dups: seq<int>, dup: int, j: nat)
    requires j < |dups| && dups[j] == dup && forall i :: 0 <= i < j ==> dups[i] != dup
    ensures Without(dups, dup) == dups[..j] + dups[j + 1..]
  {
    if j > 0 {
      WithoutIs(dups[1..], dup, j - 1);
      assert [dups[0]] + (dups[1..][..j - 1] + dups[1..][j..]) == dups[..j] + dups[j + 1..];
    }
  }

  /** Removing the duplicate leaves nothing of the set. */
  predicate FreesSet(s: Fdset, dup: int, refcount: int, running: bool) {
    Without(s.dups, dup) == [] && forall i :: 0 <= i < |s.fds| ==> Closes(s.fds[i], false, refcount, running)
  }

  lemma {:induction false} KeptNothing(fds: seq<Fd>, dups: bool, refcount: int, running: bool)
    ensures Kept(fds, dups, refcount, running) == [] <==> forall i :: 0 <= i < |fds| ==> Closes(fds[i], dups, refcount, running)
  {
    hide Closes;
    if fds != [] {
      KeptNothing(fds[1..], dups, refcount, running);
      assert forall i :: 0 < i < |fds| ==> fds[i] == fds[1..][i - 1];
      if Kept(fds, dups, refcount, running) == [] {
        forall i | 0 <= i < |fds| ensures Closes(fds[i], dups, refcount, running) { assert i > 0 ==> fds[i] == fds[1..][i - 1]; }
      }
      if forall i :: 0 <= i < |fds| ==> Closes(fds[i], dups, refcount, running) {
        assert forall i :: 0 <= i < |fds[1..]| ==> fds[1..][i] == fds[i + 1];
      }
    }
  }

  lemma CleanAtFrees(m: Monitor, k: nat)
    requires k < |m.sets| && m.sets[k].dups == []
    ensures |CleanAt(m, k).sets| < |m.sets| <==>
            forall i :: 0 <= i < |m.sets[k].fds| ==> Closes(m.sets[k].fds[i], false, m.refcount, m.running)
    ensures |CleanAt(m, k).sets| <= |m.sets|
  {
    hide Kept, Closings, Closes;
    KeptNothing(m.sets[k].fds, false, m.refcount, m.running);
  }

  lemma {:induction false} MarkFdIs(fds: seq<Fd>, fd: int, j: nat)
    requires j < |fds| && fds[j].fd == fd && forall i :: 0 <= i < j ==> fds[i].fd != fd
    ensures MarkFd(fds, fd) == fds[j := fds[j].(removed := true)]
  {
    if j > 0 {
      MarkFdIs(fds[1..], fd, j - 1);
    }
  }

  lemma {:induction false} MarkAllAt(fds: seq<Fd>)
    ensures |MarkAll(fds)| == |fds| && forall i :: 0 <= i < |fds| ==> MarkAll(fds)[i] == fds[i].(removed := true)
  {
    if fds != [] { MarkAllAt(fds[1..]); }
  }

  /** The search and marking of qmp_remove_fd, with a descriptor given. */
  method Mark(all: seq<Fd>, fd: int) returns (found: bool, fds: seq<Fd>)
    ensures found <==> HasFd(all, fd)
    ensures found ==> fds == MarkFd(all, fd)
  {
    var j := 0;
    while j < |all| && all[j].fd != fd
      invariant j <= |all| && forall i :: 0 <= i < j ==> all[i].fd != fd
    {
      j := j + 1;
    }
    if j == |all| {
      return false, all;
    }
    MarkFdIs(all, fd, j);
    return true, all[j := all[j].(removed := true)];
  }

  /** The same without: every descriptor. */
  method MarkEach(all: seq<Fd>) returns (fds: seq<Fd>)
    ensures fds == MarkAll(all)
  {
    fds := all;
    for j := 0 to |all|
      invariant |fds| == |all| && forall i :: 0 <= i < |all| ==> fds[i] == if i < j then all[i].(removed := true) else all[i]
    {
      fds := fds[j := fds[j].(removed := true)];
    }
    MarkAllAt(all);
  }

  lemma KeptNone(dups: bool, refcount: int, running: bool)
    ensures Kept([], dups, refcount, running) == [] && Closings([], dups, refcount, running) == []
  {
  }

  lemma OrderedOf(m: Monitor)
    requires Inv(m)
    ensures Ordered(m.sets)
  {
  }

  lemma FoundId(m: Monitor, k: nat)
    requires Inv(m) && k < |m.sets|
    ensures m.sets[k].id >= 0
  {
  }

  class FdMonitor {
    var sets: seq<Fdset>
    var refcount: int
    var running: bool
    ghost var accepted: seq<int>
    ghost var closed: seq<Closing>

    ghost function State(): Monitor
      reads this
    {
      Monitor(sets, refcount, running, accepted, closed)
    }

    constructor (running: bool)
      ensures State() == Monitor([], 0, running, [], []) && Inv(State())
    {
      sets, refcount, this.running := [], 0, running;
      accepted, closed := [], [];
    }

    /** The loop of monitor_fdset_cleanup, which closes what it may as it goes along the list, and leaves the
        rest. */
    method CloseFds(all: seq<Fd>, dups: bool) returns (fds: seq<Fd>)
      modifies this`closed
      ensures fds == Kept(all, dups, refcount, running)
      ensures closed == old(closed) + Closings(all, dups, refcount, running)
    {
      hide Closes, Kept, Closings;
      fds := [];
      ghost var log := [];
      KeptNone(dups, refcount, running);
      for i := 0 to |all|
        invariant closed == old(closed)
        invariant fds == Kept(all[..i], dups, refcount, running)
        invariant log == Closings(all[..i], dups, refcount, running)
      {
        assert all[..i + 1] == all[..i] + [all[i]];
        KeptSnoc(all[..i], all[i], dups, refcount, running);
        if Closes(all[i], dups, refcount, running) {
          log := log + [Closing(all[i].fd, all[i].removed, dups, refcount, running)];
        } else {
          fds := fds + [all[i]];
        }
      }
      assert all[..|all|] == all;
      closed := closed + log;
    }

    /** monitor_fdset_cleanup. */
    method CleanupSet(i: nat)
      requires i < |sets|
      modifies this`sets, this`closed
      ensures State() == CleanAt(old(State()), i)
    {
      hide Kept, Closings;
      var fds := CloseFds(sets[i].fds, sets[i].dups != []);
      var kept := sets[i].(fds := fds);
      sets := sets[..i] + (if kept.InUse() then [kept] else []) + sets[i + 1..];
    }

    /** monitor_fdsets_cleanup. */
    method CleanupAll()
      modifies this`sets, this`closed
      ensures State() == CleanFrom(old(State()), 0)
    {
      hide CleanAt;
      var i := 0;
      while i < |sets|
        invariant i <= |sets| && CleanFrom(State(), i) == CleanFrom(old(State()), 0)
        decreases |sets| - i
      {
        var n := |sets|;
        CleanAtLength(State(), i);
        CleanupSet(i);
        if |sets| == n {
          i := i + 1;
        }
      }
    }

    /** monitor_fdset_add_fd: the id of the set, or -1 for a negative id, when the caller closes the
        descriptor. */
    method AddFd(fd: int, named: bool, id: int) returns (r: int)
      requires Inv(State())
      modifies this`sets, this`accepted
      ensures Inv(State()) && State() == Step(old(State()), if named then AddNamed(fd, id) else AddUnnamed(fd))
      ensures r == if named then (if id < 0 then -1 else id) else FirstFree(old(sets), 0)
    {
      hide Inv, Place, FirstFree;
      StepInv(State(), if named then AddNamed(fd, id) else AddUnnamed(fd));
      OrderedOf(State());
      if named {
        var k := FindPlace(id);
        if k < |sets| && sets[k].id == id {
          sets := sets[k := sets[k].(fds := [Fd(fd, false)] + sets[k].fds)];
          accepted := accepted + [fd];
          FoundId(old(State()), k);
          return id;
        }
        if id < 0 {
          return -1;
        }
        MakeSet(k, id, fd);
        return id;
      } else {
        var k := FindFree();
        MakeSet(k, k, fd);
        return k;
      }
    }

    /** The list is ordered by id: the first set with this id or a larger one. */
    method FindPlace(id: int) returns (k: nat)
      ensures k == Place(sets, id)
    {
      k := 0;
      while k < |sets| && id > sets[k].id
        invariant k <= |sets| && forall i :: 0 <= i < k ==> sets[i].id < id
      {
        k := k + 1;
      }
      PlaceIs(sets, id, k);
    }

    /** The first id available, which is also the place of the new set. */
    method FindFree() returns (k: nat)
      requires Ordered(sets)
      ensures k == FirstFree(sets, 0) == Place(sets, k) && (k < |sets| ==> sets[k].id != k)
    {
      var prev := -1;
      k := 0;
      while k < |sets| && prev == sets[k].id - 1
        invariant k <= |sets| && prev == k - 1 && forall i :: 0 <= i < k ==> sets[i].id == i
      {
        prev := sets[k].id;
        k := k + 1;
      }
      FirstFreeIs(sets, 0, k);
      if k < |sets| { IdsSpread(sets, k); }
      PlaceIs(sets, k, k);
    }

    method MakeSet(k: nat, id: int, fd: int)
      requires k == Place(sets, id) && !(k < |sets| && sets[k].id == id)
      modifies this`sets, this`accepted
      ensures State() == AddTo(old(State()), id, fd)
    {
      hide Place;
      sets := sets[..k] + [Fdset(id, [Fd(fd, false)], [])] + sets[k..];
      accepted := accepted + [fd];
    }

    /** The set with this id, or the number of sets. */
    method FindSet(id: int) returns (k: nat)
      ensures k == IndexOf(sets, id)
    {
      k := 0;
      while k < |sets| && sets[k].id != id
        invariant k <= |sets| && forall i :: 0 <= i < k ==> sets[i].id != id
      {
        k := k + 1;
      }
      IndexOfIs(sets, id, k);
    }

    /** qmp_remove_fd: false when there is no such set or descriptor. */
    method Remove(id: int, hasFd: bool, fd: int) returns (found: bool)
      modifies this`sets, this`closed
      ensures State() == Step(old(State()), if hasFd then RemoveFd(id, fd) else RemoveSet(id))
      ensures found <==> HasId(old(sets), id) && (hasFd ==> HasFd(old(sets)[IndexOf(old(sets), id)].fds, fd))
    {
      hide CleanAt, IndexOf, HasFd;
      IndexOfFinds(sets, id);
      var k := FindSet(id);
      if k == |sets| {
        return false;
      }
      var fds := sets[k].fds;
      if hasFd {
        found, fds := Mark(fds, fd);
        if !found {
          return;
        }
      } else {
        fds := MarkEach(fds);
      }
      sets := sets[k := sets[k].(fds := fds)];
      CleanupSet(k);
      return true;
    }

    /** monitor_fdset_dup_fd_add: false when there is no such set, or it has the duplicate already. */
    method AddDup(id: int, dup: int) returns (added: bool)
      modifies this`sets
      ensures State() == Step(old(State()), DupAdd(id, dup))
      ensures added <==> State() != old(State())
    {
      var k := FindSet(id);
      if k == |sets| {
        return false;
      }
      var dups := sets[k].dups;
      var j := 0;
      while j < |dups| && dups[j] != dup
        invariant j <= |dups| && forall i :: 0 <= i < j ==> dups[i] != dup
      {
        j := j + 1;
      }
      if j < |dups| {
        return false;
      }
      assert |[dup] + dups| == |dups| + 1;
      sets := sets[k := sets[k].(dups := [dup] + dups)];
      assert sets[k] != old(sets)[k];
      return true;
    }

    /** monitor_fdset_dup_fd_find_remove: the id of the set with the duplicate, or -1. The id is read after the
        cleanup, and is not `defined` when that has freed the set: when the duplicate was the last and every
        descriptor of the set was closed. */
    method RemoveDup(dup: int) returns (id: int, defined: bool)
      modifies this`sets, this`closed
      ensures State() == Step(old(State()), DupRemove(dup))
      ensures var k := DupIndex(old(sets), dup); id == if k < |old(sets)| then old(sets)[k].id else -1
      ensures defined <==> !(DupIndex(old(sets), dup) < |old(sets)| && FreesSet(old(sets)[DupIndex(old(sets), dup)], dup, refcount, running))
    {
      hide CleanAt, DupIndex, Without, Closes;
      var k := 0;
      while k < |sets|
        invariant k <= |sets| && sets == old(sets) && closed == old(closed) && forall i :: 0 <= i < k ==> dup !in sets[i].dups
      {
        var dups := sets[k].dups;
        var j := 0;
        while j < |dups| && dups[j] != dup
          invariant j <= |dups| && forall i :: 0 <= i < j ==> dups[i] != dup
        {
          j := j + 1;
        }
        if j < |dups| {
          DupIndexIs(sets, dup, k);
          WithoutIs(dups, dup, j);
          id, defined := sets[k].id, true;
          dups := dups[..j] + dups[j + 1..];
          sets := sets[k := sets[k].(dups := dups)];
          if dups == [] {
            CleanAtFrees(State(), k);
            var n := |sets|;
            CleanupSet(k);
            defined := |sets| == n;
          }
          return;
        }
        k := k + 1;
      }
      DupIndexIs(sets, dup, k);
      return -1, true;
    }

    method MonitorOpened()
      modifies this`refcount
      ensures State() == Step(old(State()), Open)
    {
      refcount := refcount + 1;
    }

    method MonitorClosed()
      modifies this
      ensures State() == Step(old(State()), Close)
    {
      refcount := refcount - 1;
      CleanupAll();
    }
  }
}
