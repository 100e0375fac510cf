/**
 The copy-on-write slot list of a thread-safe signal, as a step system.

 Any number of threads emit (copy the list handle under the lock, walk the list outside it, drop the
 handle) and edit (lock, `write()`, change the list in place, unlock).  Every access to shared memory
 is one step: reading the payload pointer, raising the count, the uniqueness check, the clone, the
 swap, the decrement, the delete, and the two halves of an in-place change.  A schedule is any
 sequence of moves by any threads.
 */
module CopyOnWrite {
  import opened SlotLists
  import opened Prelude

  type Address = nat
  type Thread = nat

  /** A heap payload; `torn` holds while an in-place change is half done. */
  datatype Payload = Payload(count: int, value: Groups, torn: bool)

  /** Where a thread stands.  From `ReadLocked` on it holds the lock. */
  datatype Pc =
    | Idle
    | Walking(list: Address, seen: nat)        // emitting from a copy taken after `seen` edits
    | Deleting(list: Address)                  // its decrement reached zero
    | ReadLocked
    | ReadCopied(list: Address)                // pointer copied, count not raised yet
    | ReadCounted(list: Address)
    | WriteLocked(edit: Edit)
    | Cloning(edit: Edit)                      // the uniqueness check failed
    | Cloned(edit: Edit, clone: Address)       // the temporary owns the clone
    | Swapped(edit: Edit, list: Address)       // the temporary owns the previous list
    | DeletingPrevious(edit: Edit, list: Address)
    | Owning(edit: Edit)
    | Editing(edit: Edit)
    | Edited

  datatype Move =
    | StartRead
    | StartWrite(edit: Edit)
    | Look                                     // an emitter reads its list
    | Advance
    | Destroy                                  // the signal's own handle goes away

  datatype Shared = Shared(
    heap: map<Address, Payload>,
    freed: multiset<Address>,
    next: Address,
    slots: Option<Address>,
    owner: Option<Thread>,
    edits: seq<Edit>,
    crashed: bool)

  datatype State = State(shared: Shared, threads: map<Thread, Pc>)

  // ---------------------------------------------------------------- steps

  /** Adds `d` to a payload's count; touching a payload that is gone is a crash. */
  function Count(h: Shared, p: Address, d: int): Shared {
    if p in h.heap then h.(heap := h.heap[p := h.heap[p].(count := h.heap[p].count + d)])
    else h.(crashed := true)
  }

  function Delete(h: Shared, p: Address): Shared {
    h.(heap := h.heap - {p}, freed := h.freed + multiset{p}, crashed := h.crashed || p !in h.heap)
  }

  /** Reads a payload; reading one that is gone or half changed is a crash. */
  function Read(h: Shared, p: Address): Shared {
    if p in h.heap && !h.heap[p].torn then h else h.(crashed := true)
  }

  /** Drops a handle; the thread whose decrement reaches zero goes on to delete. */
  function Dropped(h: Shared, p: Address, last: Pc, otherwise: Pc): (Shared, Pc) {
    var h' := Count(h, p, -1);
    (h', if p in h'.heap && h'.heap[p].count == 0 then last else otherwise)
  }

  function Act(h: Shared, t: Thread, pc: Pc, m: Move): (Shared, Pc) {
    match m
    case StartRead =>
      if pc.Idle? && h.owner.None? && h.slots.Some? then (h.(owner := Some(t)), ReadLocked) else (h, pc)
    case StartWrite(edit) =>
      if pc.Idle? && h.owner.None? && h.slots.Some? then (h.(owner := Some(t)), WriteLocked(edit)) else (h, pc)
    case Destroy =>
      if pc.Idle? && h.owner.None? && h.slots.Some?
      then Dropped(h.(slots := None), h.slots.value, Deleting(h.slots.value), Idle) else (h, pc)
    case Look => if pc.Walking? then (Read(h, pc.list), pc) else (h, pc)
    case Advance => if pc.Idle? then (h, pc) else if h.owner == Some(t) then Locked(h, pc) else Unlocked(h, pc)
  }

  function Unlocked(h: Shared, pc: Pc): (Shared, Pc) {
    match pc
    case Walking(p, _) => Dropped(h, p, Deleting(p), Idle)
    case Deleting(p) => (Delete(h, p), Idle)
    case _ => (h, pc)
  }

  /** A step of the owner of the lock. */
  function Locked(h: Shared, pc: Pc): (Shared, Pc) {
    if h.slots.None? || h.slots.value !in h.heap then (h.(crashed := true), pc)
    else
      var p := h.slots.value;
      match pc
      case ReadLocked => (h, ReadCopied(p))
      case ReadCopied(q) => (Count(h, q, 1), ReadCounted(q))
      case ReadCounted(q) => (h.(owner := None), Walking(q, |h.edits|))
      case WriteLocked(e) => (h, if h.heap[p].count == 1 then Owning(e) else Cloning(e))
      case Cloning(e) =>
        var q := h.next;
        (Read(h, p).(heap := h.heap[q := Payload(1, h.heap[p].value, false)], next := q + 1), Cloned(e, q))
      case Cloned(e, q) => (h.(slots := Some(q)), Swapped(e, p))
      case Swapped(e, q) => Dropped(h, q, DeletingPrevious(e, q), Owning(e))
      case DeletingPrevious(e, q) => (Delete(h, q), Owning(e))
      case Owning(e) => (h.(heap := h.heap[p := h.heap[p].(torn := true)]), Editing(e))
      case Editing(e) =>
        (h.(heap := h.heap[p := h.heap[p].(value := Apply(h.heap[p].value, e), torn := false)],
            edits := h.edits + [e]), Edited)
      case Edited => (h.(owner := None), Idle)
      case _ => (h, pc)
  }

  function Step(s: State, t: Thread, m: Move): State {
    if t !in s.threads then s
    else
      var (h, pc) := Act(s.shared, t, s.threads[t], m);
      State(h, s.threads[t := pc])
  }

  function Run(s: State, schedule: seq<(Thread, Move)>): State
    decreases schedule
  {
    if schedule == [] then s else Run(Step(s, schedule[0].0, schedule[0].1), schedule[1..])
  }

  function Initial(threads: set<Thread>): State {
    State(Shared(map[0 := Payload(1, [], false)], multiset{}, 1, Some(0), None, [], false),
          map t | t in threads :: Idle)
  }

  /** The list one thread would have after the edits, made one at a time. */
  function Replay(edits: seq<Edit>): Groups {
    if edits == [] then [] else Apply(Replay(edits[..|edits| - 1]), edits[|edits| - 1])
  }

  // ---------------------------------------------------------------- invariant

  /** The payload a thread's own handle points at. */
  function Handle(pc: Pc): Option<Address> {
    if pc.Walking? || pc.ReadCounted? || pc.Swapped? then Some(pc.list)
    else if pc.Cloned? then Some(pc.clone) else None
  }

  /** The payload a thread is about to delete. */
  function Doomed(pc: Pc): Option<Address> {
    if pc.Deleting? || pc.DeletingPrevious? then Some(pc.list) else None
  }

  predicate HoldsLock(pc: Pc) {
    !pc.Idle? && !pc.Walking? && !pc.Deleting?
  }

  ghost function Holders(threads: map<Thread, Pc>, p: Address): set<Thread> {
    set t | t in threads && Handle(threads[t]) == Some(p)
  }

  ghost function Deleters(threads: map<Thread, Pc>, p: Address): set<Thread> {
    set t | t in threads && Doomed(threads[t]) == Some(p)
  }

  /** How many handles point at a payload: the threads' and the signal's own. */
  ghost function Handles(s: State, p: Address): nat {
    |Holders(s.threads, p)| + (if s.shared.slots == Some(p) then 1 else 0)
  }

  function Tally(h: Shared, p: Address): int {
    if p in h.heap then h.heap[p].count else 0
  }

  function Orphaned(h: Shared, p: Address): int {
    if p in h.heap && h.heap[p].count == 0 then 1 else 0
  }

  /** A payload counts its handles; a live one without any is about to be deleted by exactly one thread. */
  ghost predicate CountedAt(s: State, p: Address) {
    Tally(s.shared, p) == Handles(s, p) && Orphaned(s.shared, p) == |Deleters(s.threads, p)|
  }

  ghost predicate Counted(s: State) {
    forall p: Address :: CountedAt(s, p)
  }

  /** Every address handed out is alive or was freed exactly once; no other was ever used. */
  predicate FreedOnceAt(h: Shared, p: Address) {
    if p in h.heap then p < h.next && h.freed[p] == 0
    else h.freed[p] == if p < h.next then 1 else 0
  }

  ghost predicate FreedOnce(h: Shared) {
    forall p: Address :: FreedOnceAt(h, p)
  }

  /** Nothing crashed, the signal's list is alive, and only it, and only under the lock, may be half changed. */
  ghost predicate Sound(h: Shared) {
    && !h.crashed
    && (h.slots.Some? ==> h.slots.value in h.heap && h.heap[h.slots.value].count >= 1)
    && (h.owner.Some? ==> h.slots.Some?)
    && (forall p :: p in h.heap && h.heap[p].torn ==> h.slots == Some(p) && h.owner.Some? && h.heap[p].count == 1)
  }

  /** The signal's list is what all edits so far produce. */
  ghost predicate Current(h: Shared) {
    h.slots.Some? && h.slots.value in h.heap ==> h.heap[h.slots.value].value == Replay(h.edits)
  }

  /** The signal's handle is the only one to its list. */
  predicate Sole(h: Shared) {
    h.slots.Some? && h.slots.value in h.heap && h.heap[h.slots.value].count == 1
  }

  /** A live payload counts `n` handles of threads besides the signal's. */
  predicate Counts(h: Shared, p: Address, n: nat) {
    p in h.heap && h.heap[p].count >= (if h.slots == Some(p) then n + 1 else n)
  }

  /** What a thread may rely on where it stands, whatever the other threads do. */
  ghost predicate Knows(h: Shared, t: Thread, pc: Pc) {
    Rights(h, t, pc) && Sees(h, pc)
  }

  ghost predicate Rights(h: Shared, t: Thread, pc: Pc) {
    && (HoldsLock(pc) <==> h.owner == Some(t))
    && (HoldsLock(pc) && !pc.Editing? ==> h.slots.Some? && h.slots.value in h.heap && !h.heap[h.slots.value].torn)
    && (Handle(pc).Some? ==> Counts(h, Handle(pc).value, 1))
    && (Doomed(pc).Some? ==> Doomed(pc).value in h.heap && h.heap[Doomed(pc).value].count == 0)
    && match pc
       case ReadCopied(p) => h.slots == Some(p)
       case ReadCounted(p) => h.slots == Some(p)
       case Cloned(_, q) => h.slots != Some(q) && h.heap[q].count == 1
       case Swapped(_, p) => h.slots != Some(p) && Sole(h)
       case DeletingPrevious(_, p) => h.slots != Some(p) && Sole(h)
       case Owning(_) => Sole(h)
       case Editing(_) => Sole(h)
       case _ => true
  }

  /** An emission walks what the edits before its copy had produced; a clone holds what all edits have. */
  ghost predicate Sees(h: Shared, pc: Pc) {
    match pc
    case Walking(p, k) => k <= |h.edits| && p in h.heap && h.heap[p].value == Replay(h.edits[..k])
    case Cloned(_, q) => q in h.heap && h.heap[q].value == Replay(h.edits)
    case _ => true
  }

  /** Two threads never hold the lock or delete the same payload, and both their handles are counted. */
  predicate Apart(h: Shared, pc: Pc, pc': Pc) {
    && !(HoldsLock(pc) && HoldsLock(pc'))
    && (Doomed(pc).Some? ==> Doomed(pc) != Doomed(pc'))
    && (Handle(pc).Some? && Handle(pc) == Handle(pc') ==> Counts(h, Handle(pc).value, 2))
  }

  ghost predicate Inv(s: State) {
    && Counted(s) && FreedOnce(s.shared) && Sound(s.shared) && Current(s.shared)
    && (forall t :: t in s.threads ==> Knows(s.shared, t, s.threads[t]))
    && (s.shared.owner.Some? ==> s.shared.owner.value in s.threads)
  }

  // ---------------------------------------------------------------- one step, seen by the thread making it

  lemma ActKeepsFreed(h: Shared, t: Thread, pc: Pc, m: Move)
    requires Sound(h) && Rights(h, t, pc) && FreedOnce(h)
    ensures FreedOnce(Act(h, t, pc, m).0)
  {
    var h' := Act(h, t, pc, m).0;
    forall p: Address ensures FreedOnceAt(h', p) {
      assert FreedOnceAt(h, p) && FreedOnceAt(h, h.next);
    }
  }

  lemma ActKeepsSound(h: Shared, t: Thread, pc: Pc, m: Move)
    requires Sound(h) && Rights(h, t, pc) && FreedOnce(h)
    ensures Sound(Act(h, t, pc, m).0)
  {
    assert FreedOnceAt(h, h.next);
  }

  lemma ActKeepsCurrent(h: Shared, t: Thread, pc: Pc, m: Move)
    requires Sound(h) && Rights(h, t, pc) && FreedOnce(h) && Current(h) && Sees(h, pc)
    ensures Current(Act(h, t, pc, m).0)
  {
    assert FreedOnceAt(h, h.next);
  }

  lemma ActKeepsRights(h: Shared, t: Thread, pc: Pc, m: Move)
    requires Sound(h) && Rights(h, t, pc) && FreedOnce(h)
    ensures Rights(Act(h, t, pc, m).0, t, Act(h, t, pc, m).1)
  {
    if m.Advance? && h.owner == Some(t) {
      LockedKeepsRights(h, t, pc);
    }
  }

  lemma LockedKeepsRights(h: Shared, t: Thread, pc: Pc)
    requires Sound(h) && Rights(h, t, pc) && FreedOnce(h) && h.owner == Some(t)
    ensures Rights(Locked(h, pc).0, t, Locked(h, pc).1)
  {
    assert FreedOnceAt(h, h.next);
  }

  lemma ActKeepsSight(h: Shared, t: Thread, pc: Pc, m: Move)
    requires Sound(h) && Rights(h, t, pc) && Current(h) && Sees(h, pc)
    ensures Sees(Act(h, t, pc, m).0, Act(h, t, pc, m).1)
  {
    assert h.edits[..|h.edits|] == h.edits;
  }

  // ---------------------------------------------------------------- one step, seen by another thread

  lemma ActKeepsOthersRights(h: Shared, t: Thread, pc: Pc, m: Move, u: Thread, pc': Pc)
    requires Sound(h) && FreedOnce(h) && t != u && Rights(h, t, pc) && Rights(h, u, pc') && Apart(h, pc, pc')
    ensures Rights(Act(h, t, pc, m).0, u, pc')
  {
    assert FreedOnceAt(h, h.next);
  }

  lemma ActKeepsOthersSight(h: Shared, t: Thread, pc: Pc, m: Move, u: Thread, pc': Pc)
    requires Sound(h) && FreedOnce(h) && t != u && Rights(h, t, pc) && Rights(h, u, pc') && Sees(h, pc')
    requires Apart(h, pc, pc')
    ensures Sees(Act(h, t, pc, m).0, pc')
  {
    assert FreedOnceAt(h, h.next);
    var h' := Act(h, t, pc, m).0;
    if pc'.Walking? && h'.edits != h.edits {
      assert h'.edits[..pc'.seen] == h.edits[..pc'.seen];
    }
  }

  // ---------------------------------------------------------------- counting handles

  /** What moving from `pc` to `pc'` adds to the handles of `p`. */
  function Change(pc: Option<Address>, pc': Option<Address>, p: Address): int {
    (if pc' == Some(p) then 1 else 0) - (if pc == Some(p) then 1 else 0)
  }

  /** The count of `p` follows its handles; whoever takes the last one deletes it, and nobody else. */
  predicate Settled(h: Shared, h': Shared, pc: Pc, pc': Pc, p: Address) {
    && Tally(h', p) == Tally(h, p) + Change(Handle(pc), Handle(pc'), p) + Change(h.slots, h'.slots, p)
    && Orphaned(h', p) == Orphaned(h, p) + Change(Doomed(pc), Doomed(pc'), p)
  }

  lemma LockedCounts(h: Shared, t: Thread, pc: Pc, p: Address)
    requires Sound(h) && Rights(h, t, pc) && FreedOnce(h) && h.owner == Some(t)
    ensures var (h', pc') := Locked(h, pc);
      Tally(h', p) == Tally(h, p) + Change(Handle(pc), Handle(pc'), p) + Change(h.slots, h'.slots, p)
  {
    assert FreedOnceAt(h, h.next);
  }

  lemma LockedDooms(h: Shared, t: Thread, pc: Pc, p: Address)
    requires Sound(h) && Rights(h, t, pc) && FreedOnce(h) && h.owner == Some(t)
    ensures var (h', pc') := Locked(h, pc); Orphaned(h', p) == Orphaned(h, p) + Change(Doomed(pc), Doomed(pc'), p)
  {
    assert FreedOnceAt(h, h.next);
  }

  lemma ActSettles(h: Shared, t: Thread, pc: Pc, m: Move, p: Address)
    requires Sound(h) && Rights(h, t, pc) && FreedOnce(h)
    ensures Settled(h, Act(h, t, pc, m).0, pc, Act(h, t, pc, m).1, p)
  {
    if m.Advance? && h.owner == Some(t) {
      LockedCounts(h, t, pc, p);
      LockedDooms(h, t, pc, p);
    }
  }

  lemma MovedCardinality(a: set<Thread>, b: set<Thread>, t: Thread, isIn: bool)
    requires b == (a - {t}) + (if isIn then {t} else {})
    ensures |b| == |a| - (if t in a then 1 else 0) + (if isIn then 1 else 0)
  {
    if t in a { assert a == (a - {t}) + {t}; }
    if isIn { assert b - {t} == a - {t}; }
    assert t !in a ==> a - {t} == a;
  }

  lemma HoldersMoved(threads: map<Thread, Pc>, t: Thread, pc: Pc, p: Address)
    requires t in threads
    ensures |Holders(threads[t := pc], p)| == |Holders(threads, p)| + Change(Handle(threads[t]), Handle(pc), p)
  {
    MovedCardinality(Holders(threads, p), Holders(threads[t := pc], p), t, Handle(pc) == Some(p));
  }

  lemma DeletersMoved(threads: map<Thread, Pc>, t: Thread, pc: Pc, p: Address)
    requires t in threads
    ensures |Deleters(threads[t := pc], p)| == |Deleters(threads, p)| + Change(Doomed(threads[t]), Doomed(pc), p)
  {
    MovedCardinality(Deleters(threads, p), Deleters(threads[t := pc], p), t, Doomed(pc) == Some(p));
  }

  lemma StepKeepsCounts(s: State, t: Thread, m: Move)
    requires Inv(s)
    ensures Counted(Step(s, t, m))
  {
    if t in s.threads {
      var pc, s' := s.threads[t], Step(s, t, m);
      forall p: Address ensures CountedAt(s', p) {
        assert CountedAt(s, p);
        ActSettles(s.shared, t, pc, m, p);
        HoldersMoved(s.threads, t, s'.threads[t], p);
        DeletersMoved(s.threads, t, s'.threads[t], p);
      }
    }
  }

  lemma TwoMembers(a: set<Thread>, t: Thread, u: Thread)
    requires t in a && u in a && t != u
    ensures |a| >= 2
  {
    assert a == (a - {t} - {u}) + {t} + {u};
  }

  /** Exact counting keeps two threads out of each other's way. */
  lemma CountedApart(s: State, t: Thread, u: Thread)
    requires Inv(s) && t in s.threads && u in s.threads && t != u
    ensures Apart(s.shared, s.threads[t], s.threads[u])
  {
    var pc, pc' := s.threads[t], s.threads[u];
    if Handle(pc).Some? && Handle(pc) == Handle(pc') {
      var p := Handle(pc).value;
      assert CountedAt(s, p);
      TwoMembers(Holders(s.threads, p), t, u);
    }
    if Doomed(pc).Some? && Doomed(pc) == Doomed(pc') {
      var p := Doomed(pc).value;
      assert CountedAt(s, p);
      TwoMembers(Deleters(s.threads, p), t, u);
    }
  }

  // ---------------------------------------------------------------- every schedule

  lemma StepKeepsInv(s: State, t: Thread, m: Move)
    requires Inv(s)
    ensures Inv(Step(s, t, m))
  {
    if t in s.threads {
      var h, pc, s' := s.shared, s.threads[t], Step(s, t, m);
      StepKeepsCounts(s, t, m);
      ActKeepsFreed(h, t, pc, m);
      ActKeepsSound(h, t, pc, m);
      ActKeepsCurrent(h, t, pc, m);
      ActKeepsRights(h, t, pc, m);
      ActKeepsSight(h, t, pc, m);
      forall u | u in s'.threads ensures Knows(s'.shared, u, s'.threads[u]) {
        if u != t {
          CountedApart(s, t, u);
          ActKeepsOthersRights(h, t, pc, m, u, s.threads[u]);
          ActKeepsOthersSight(h, t, pc, m, u, s.threads[u]);
        }
      }
    }
  }

  lemma {:induction false} RunKeepsInv(s: State, schedule: seq<(Thread, Move)>)
    requires Inv(s)
    ensures Inv(Run(s, schedule))
    decreases schedule
  {
    if schedule != [] {
      StepKeepsInv(s, schedule[0].0, schedule[0].1);
      RunKeepsInv(Step(s, schedule[0].0, schedule[0].1), schedule[1..]);
    }
  }

  lemma InitialInv(threads: set<Thread>)
    ensures Inv(Initial(threads))
  {
    var s := Initial(threads);
    forall p: Address ensures CountedAt(s, p) && FreedOnceAt(s.shared, p) {
      assert Holders(s.threads, p) == {} && Deleters(s.threads, p) == {};
    }
  }

  /** Under every schedule of any threads: no list is touched after it was freed or read half changed, an
      emission walks exactly the list its copy was taken from, counts are exact, and each list is freed once. */
  lemma EveryScheduleIsSafe(threads: set<Thread>, schedule: seq<(Thread, Move)>)
    ensures var s := Run(Initial(threads), schedule);
      && !s.shared.crashed
      && (forall t :: t in s.threads && s.threads[t].Walking? ==> WalksItsCopy(s.shared, s.threads[t]))
      && (forall p :: p in s.shared.heap ==>
            s.shared.heap[p].count == Handles(s, p) && (Handles(s, p) == 0 ==> |Deleters(s.threads, p)| == 1))
      && (forall p: Address :: s.shared.freed[p] == if p < s.shared.next && p !in s.shared.heap then 1 else 0)
      && (forall p :: p in s.shared.heap ==> p < s.shared.next)
  {
    var s := Run(Initial(threads), schedule);
    InitialInv(threads);
    RunKeepsInv(Initial(threads), schedule);
    forall p: Address
      ensures p in s.shared.heap ==>
        s.shared.heap[p].count == Handles(s, p) && (Handles(s, p) == 0 ==> |Deleters(s.threads, p)| == 1)
      ensures s.shared.freed[p] == if p < s.shared.next && p !in s.shared.heap then 1 else 0
      ensures p in s.shared.heap ==> p < s.shared.next
    {
      assert FreedOnceAt(s.shared, p) && CountedAt(s, p);
    }
  }

  ghost predicate WalksItsCopy(h: Shared, pc: Pc)
    requires pc.Walking?
  {
    && pc.list in h.heap && !h.heap[pc.list].torn
    && pc.seen <= |h.edits| && h.heap[pc.list].value == Replay(h.edits[..pc.seen])
  }

  // ---------------------------------------------------------------- what the edits make of the list

  /** The groups of the slots connected so far, by number. */
  function GidsOf(edits: seq<Edit>): seq<int> {
    if edits == [] then [] else GidsAfter(GidsOf(edits[..|edits| - 1]), edits[|edits| - 1])
  }

  /** In the order in which they took the lock, edits connect slots numbered one after the other, and clean a slot in
      the group it was connected to. */
  ghost predicate AllFit(edits: seq<Edit>) {
    edits != [] ==> AllFit(edits[..|edits| - 1]) && Fits(edits[|edits| - 1], GidsOf(edits[..|edits| - 1]))
  }

  lemma {:induction false} ReplayWellFormed(edits: seq<Edit>)
    requires AllFit(edits)
    ensures WellFormed(Replay(edits), GidsOf(edits))
  {
    if edits != [] {
      var before := edits[..|edits| - 1];
      ReplayWellFormed(before);
      EditRefines(Replay(before), GidsOf(before), edits[|edits| - 1]);
    }
  }

  lemma {:induction false} PrefixFits(edits: seq<Edit>, k: nat)
    requires AllFit(edits) && k <= |edits|
    ensures AllFit(edits[..k])
  {
    if k == |edits| {
      assert edits[..k] == edits;
    } else {
      PrefixFits(edits[..|edits| - 1], k);
      assert edits[..|edits| - 1][..k] == edits[..k];
    }
  }

  /** Under every schedule an emission that is under way goes through ascending groups and meets no slot twice, however
      the others edit meanwhile. */
  lemma EmissionsWalkInOrder(threads: set<Thread>, schedule: seq<(Thread, Move)>, t: Thread)
    requires var s := Run(Initial(threads), schedule); t in s.threads && s.threads[t].Walking? && AllFit(s.shared.edits)
    ensures var s := Run(Initial(threads), schedule); var pc := s.threads[t];
      && WalksItsCopy(s.shared, pc)
      && WellFormed(s.shared.heap[pc.list].value, GidsOf(s.shared.edits[..pc.seen]))
      && Ordered(Flatten(s.shared.heap[pc.list].value), GidsOf(s.shared.edits[..pc.seen]))
  {
    EveryScheduleIsSafe(threads, schedule);
    var s := Run(Initial(threads), schedule);
    var edits := s.shared.edits[..s.threads[t].seen];
    PrefixFits(s.shared.edits, s.threads[t].seen);
    ReplayWellFormed(edits);
    FlattenOrdered(Replay(edits), GidsOf(edits));
  }

  predicate Quiet(s: State) {
    forall t :: t in s.threads ==> s.threads[t].Idle?
  }

  lemma QuietHeap(s: State)
    requires Inv(s) && Quiet(s)
    ensures s.shared.heap.Keys == if s.shared.slots.Some? then {s.shared.slots.value} else {}
  {
    forall p: Address ensures p in s.shared.heap <==> s.shared.slots == Some(p) {
      assert CountedAt(s, p);
      assert forall t :: t in s.threads ==> Handle(s.threads[t]).None? && Doomed(s.threads[t]).None?;
      assert Holders(s.threads, p) == {} && Deleters(s.threads, p) == {};
    }
  }

  /** Once every thread is done, only the signal's list is left, and no edit was lost: it is what all the edits that
      were asked for make, in the order in which they took the lock. */
  lemma NothingLeaksOrIsLost(threads: set<Thread>, schedule: seq<(Thread, Move)>)
    requires Quiet(Run(Initial(threads), schedule))
    ensures var h := Run(Initial(threads), schedule).shared;
      && h.heap.Keys == (if h.slots.Some? then {h.slots.value} else {})
      && (h.slots.Some? ==>
            h.heap[h.slots.value].value == Replay(Requested(Initial(threads), None, schedule)))
  {
    InitialInv(threads);
    RunKeepsInv(Initial(threads), schedule);
    QuietHeap(Run(Initial(threads), schedule));
    EditsAreThoseRequested(threads, schedule);
  }

  // ---------------------------------------------------------------- the edits that were asked for

  /** The edit a thread has taken the lock for and not yet made. */
  function EditOf(pc: Pc): Option<Edit> {
    match pc
    case WriteLocked(e) => Some(e)
    case Cloning(e) => Some(e)
    case Cloned(e, _) => Some(e)
    case Swapped(e, _) => Some(e)
    case DeletingPrevious(e, _) => Some(e)
    case Owning(e) => Some(e)
    case Editing(e) => Some(e)
    case _ => None
  }

  /** What is asked for while the lock is held, after a move that was made from `s`. */
  function HeldAfter(s: State, held: Option<Edit>, t: Thread, m: Move): Option<Edit> {
    var owner, owner' := s.shared.owner, Step(s, t, m).shared.owner;
    if owner'.None? then None
    else if owner.Some? then held
    else if m.StartWrite? then Some(m.edit)
    else None
  }

  /** The edit whose thread gives the lock back in a move. */
  function GivenBack(s: State, held: Option<Edit>, t: Thread, m: Move): seq<Edit> {
    if s.shared.owner.Some? && Step(s, t, m).shared.owner.None? && held.Some? then [held.value] else []
  }

  /** The edits of a schedule: each that a thread took the lock for, when that thread gives the lock back. Only the
      moves and the lock count here, not what was done to the list or noted about it. */
  function Requested(s: State, held: Option<Edit>, schedule: seq<(Thread, Move)>): seq<Edit>
    decreases schedule
  {
    if schedule == [] then []
    else
      var (t, m) := schedule[0];
      GivenBack(s, held, t, m) + Requested(Step(s, t, m), HeldAfter(s, held, t, m), schedule[1..])
  }

  /** The thread that holds the lock is about the edit it took it for. */
  predicate Holds(s: State, held: Option<Edit>) {
    if s.shared.owner.None? || s.shared.owner.value !in s.threads then held.None?
    else
      var pc, edits := s.threads[s.shared.owner.value], s.shared.edits;
      if pc.Edited? then edits != [] && held == Some(edits[|edits| - 1]) else held == EditOf(pc)
  }

  /** The edits whose threads have given the lock back. */
  function Finished(s: State): seq<Edit> {
    var owner, edits := s.shared.owner, s.shared.edits;
    if owner.Some? && owner.value in s.threads && s.threads[owner.value].Edited? && edits != [] then
      edits[..|edits| - 1]
    else edits
  }

  lemma StepRequests(s: State, held: Option<Edit>, t: Thread, m: Move)
    requires Inv(s) && Holds(s, held)
    ensures Holds(Step(s, t, m), HeldAfter(s, held, t, m))
    ensures Finished(Step(s, t, m)) == Finished(s) + GivenBack(s, held, t, m)
  {
    if t in s.threads {
      assert Rights(s.shared, t, s.threads[t]);
      if s.shared.owner == Some(t) { OwnerRequests(s, held, t, m); }
    }
  }

  lemma OwnerRequests(s: State, held: Option<Edit>, t: Thread, m: Move)
    requires Inv(s) && Holds(s, held) && t in s.threads && s.shared.owner == Some(t)
    ensures Holds(Step(s, t, m), HeldAfter(s, held, t, m))
    ensures Finished(Step(s, t, m)) == Finished(s) + GivenBack(s, held, t, m)
  {
    if m.Advance? {
      LockedRequests(s.shared, t, s.threads[t]);
      var edits := s.shared.edits;
      if s.threads[t].Edited? { assert edits == edits[..|edits| - 1] + [edits[|edits| - 1]]; }
      if s.threads[t].Editing? { assert (edits + [s.threads[t].edit])[..|edits|] == edits; }
    }
  }

  /** A step of the thread that holds the lock keeps to its edit, notes it when it is made, and gives the lock back only
      afterwards. */
  lemma LockedRequests(h: Shared, t: Thread, pc: Pc)
    requires Sound(h) && Rights(h, t, pc) && h.owner == Some(t)
    ensures var (h', pc') := Locked(h, pc);
      && (pc.Editing? ==> h'.edits == h.edits + [pc.edit] && pc'.Edited? && h'.owner == h.owner)
      && (!pc.Editing? ==> h'.edits == h.edits && !pc'.Edited? && EditOf(pc') == EditOf(pc))
      && (h'.owner == if pc.Edited? || pc.ReadCounted? then None else h.owner)
  {
  }

  lemma {:induction false} RunRequests(s: State, held: Option<Edit>, schedule: seq<(Thread, Move)>)
    requires Inv(s) && Holds(s, held)
    ensures Finished(Run(s, schedule)) == Finished(s) + Requested(s, held, schedule)
    decreases schedule
  {
    if schedule != [] {
      var (t, m) := schedule[0];
      StepKeepsInv(s, t, m);
      StepRequests(s, held, t, m);
      RunRequests(Step(s, t, m), HeldAfter(s, held, t, m), schedule[1..]);
      Joins(Finished(s), GivenBack(s, held, t, m), Requested(Step(s, t, m), HeldAfter(s, held, t, m), schedule[1..]));
    }
  }

  lemma Joins(a: seq<Edit>, b: seq<Edit>, c: seq<Edit>)
    ensures (a + b) + c == a + (b + c)
  {
  }

  /** In every run the edits made are exactly those that were asked for, in the order in which they took the lock, but
      for one that is made while its thread still holds the lock. */
  lemma EditsAreThoseRequested(threads: set<Thread>, schedule: seq<(Thread, Move)>)
    ensures Finished(Run(Initial(threads), schedule)) == Requested(Initial(threads), None, schedule)
    ensures Quiet(Run(Initial(threads), schedule)) ==>
      Run(Initial(threads), schedule).shared.edits == Requested(Initial(threads), None, schedule)
  {
    InitialInv(threads);
    RunRequests(Initial(threads), None, schedule);
  }

  // ---------------------------------------------------------------- no thread gets stuck

  /** How many steps a thread still has before it. */
  function Rank(pc: Pc): nat {
    match pc
    case Idle => 0
    case Deleting(_) => 1
    case Edited => 1
    case Walking(_, _) => 2
    case Editing(_) => 2
    case ReadCounted(_) => 3
    case Owning(_) => 3
    case ReadCopied(_) => 4
    case DeletingPrevious(_, _) => 4
    case ReadLocked => 5
    case Swapped(_, _) => 5
    case Cloned(_, _) => 6
    case Cloning(_) => 7
    case WriteLocked(_) => 8
  }

  lemma AdvanceDescends(s: State, t: Thread)
    requires Inv(s) && t in s.threads && !s.threads[t].Idle?
    ensures var s', pc := Step(s, t, Advance), s.threads[t];
      && t in s'.threads && Rank(s'.threads[t]) < Rank(pc) && s'.shared.slots.Some? == s.shared.slots.Some?
      && (forall u :: u in s'.threads && u != t ==> u in s.threads && s'.threads[u] == s.threads[u])
      && s'.shared.edits == s.shared.edits + (if pc.Editing? then [pc.edit] else [])
      && EditOf(s'.threads[t]) == (if pc.Editing? then None else EditOf(pc))
  {
    assert Knows(s.shared, t, s.threads[t]);
  }

  function Alone(t: Thread, n: nat): seq<(Thread, Move)> {
    if n == 0 then [] else [(t, Advance)] + Alone(t, n - 1)
  }

  /** From any point of any run a thread that is let go on comes to its end, and makes the edit it was about. */
  lemma {:induction false} Finishes(s: State, t: Thread) returns (n: nat)
    requires Inv(s) && t in s.threads
    ensures var s' := Run(s, Alone(t, n));
      && Inv(s') && t in s'.threads && s'.threads[t].Idle? && s'.shared.slots.Some? == s.shared.slots.Some?
      && (forall u :: u in s'.threads && u != t ==> u in s.threads && s'.threads[u] == s.threads[u])
      && var edit := EditOf(s.threads[t]);
         s'.shared.edits == s.shared.edits + (if edit.Some? then [edit.value] else [])
    decreases Rank(s.threads[t])
  {
    n := 0;
    if !s.threads[t].Idle? {
      var s' := Step(s, t, Advance);
      StepKeepsInv(s, t, Advance);
      AdvanceDescends(s, t);
      var m := Finishes(s', t);
      n := m + 1;
      assert Alone(t, n)[0] == (t, Advance) && Alone(t, n)[1..] == Alone(t, m);
    }
  }

  lemma {:induction false} ReplayLast(edits: seq<Edit>, edit: Edit)
    ensures Replay(edits + [edit]) == Apply(Replay(edits), edit)
  {
    assert (edits + [edit])[..|edits|] == edits;
  }

  lemma RunFirst(s: State, t: Thread, m: Move, rest: seq<(Thread, Move)>)
    ensures Run(s, [(t, m)] + rest) == Run(Step(s, t, m), rest)
  {
    assert ([(t, m)] + rest)[1..] == rest;
  }

  /** A thread that finds the lock free makes its edit to the list there was. */
  lemma WriteTakesEffect(s: State, t: Thread, edit: Edit) returns (n: nat)
    requires Inv(s) && t in s.threads && s.threads[t].Idle? && s.shared.owner.None? && s.shared.slots.Some?
    ensures var h, h' := s.shared, Run(s, [(t, StartWrite(edit))] + Alone(t, n)).shared;
      && h.slots.value in h.heap && h'.slots.Some? && h'.slots.value in h'.heap
      && h'.heap[h'.slots.value].value == Apply(h.heap[h.slots.value].value, edit)
  {
    var s' := Step(s, t, StartWrite(edit));
    StepKeepsInv(s, t, StartWrite(edit));
    n := Finishes(s', t);
    RunFirst(s, t, StartWrite(edit), Alone(t, n));
    ReplayLast(s.shared.edits, edit);
  }

  /** What an emission does next while it holds the lock. */
  function NextRead(h: Shared, pc: Pc): Pc {
    match pc
    case ReadLocked => if h.slots.Some? then ReadCopied(h.slots.value) else pc
    case ReadCopied(p) => ReadCounted(p)
    case ReadCounted(p) => Walking(p, |h.edits|)
    case _ => pc
  }

  lemma ReadAdvances(s: State, t: Thread)
    requires Inv(s) && t in s.threads && s.shared.owner == Some(t)
    requires s.threads[t].ReadLocked? || s.threads[t].ReadCopied? || s.threads[t].ReadCounted?
    ensures var s' := Step(s, t, Advance);
      && Inv(s') && t in s'.threads && s'.threads[t] == NextRead(s.shared, s.threads[t])
      && s'.shared.edits == s.shared.edits && s'.shared.slots == s.shared.slots
      && s'.shared.owner == if s.threads[t].ReadCounted? then None else Some(t)
  {
    StepKeepsInv(s, t, Advance);
    assert Rights(s.shared, t, s.threads[t]);
  }

  /** An emission that finds the lock free walks the list there is. */
  lemma ReadTakesACopy(s: State, t: Thread)
    requires Inv(s) && t in s.threads && s.threads[t].Idle? && s.shared.owner.None? && s.shared.slots.Some?
    ensures var s' := Run(s, [(t, StartRead)] + ([(t, Advance)] + ([(t, Advance)] + ([(t, Advance)] + []))));
      && t in s'.threads && s'.threads[t] == Walking(s.shared.slots.value, |s.shared.edits|)
      && s'.shared.edits == s.shared.edits && s'.shared.owner.None? && s'.shared.slots == s.shared.slots
  {
    var s1 := Step(s, t, StartRead);
    StepKeepsInv(s, t, StartRead);
    RunFirst(s, t, StartRead, [(t, Advance)] + ([(t, Advance)] + ([(t, Advance)] + [])));
    ThreeReads(s1, t);
  }

  lemma ThreeReads(s: State, t: Thread)
    requires Inv(s) && t in s.threads && s.shared.owner == Some(t) && s.threads[t].ReadLocked? && s.shared.slots.Some?
    ensures var s' := Run(s, [(t, Advance)] + ([(t, Advance)] + ([(t, Advance)] + [])));
      && t in s'.threads && s'.threads[t] == Walking(s.shared.slots.value, |s.shared.edits|)
      && s'.shared.edits == s.shared.edits && s'.shared.owner.None? && s'.shared.slots == s.shared.slots
  {
    ReadAdvances(s, t);
    var s2 := Step(s, t, Advance);
    ReadAdvances(s2, t);
    var s3 := Step(s2, t, Advance);
    ReadAdvances(s3, t);
    RunFirst(s, t, Advance, [(t, Advance)] + ([(t, Advance)] + []));
    RunFirst(s2, t, Advance, [(t, Advance)] + []);
    RunFirst(s3, t, Advance, []);
  }

  lemma FreeWhenQuiet(s: State)
    requires Inv(s) && Quiet(s)
    ensures s.shared.owner.None?
  {
    assert forall t :: t in s.threads ==> Rights(s.shared, t, s.threads[t]);
  }

  /** When nobody uses it any more, destroying a signal frees all there is. */
  lemma DestroyFreesAll(s: State, t: Thread) returns (n: nat)
    requires Inv(s) && Quiet(s) && t in s.threads && s.shared.slots.Some?
    ensures Run(s, [(t, Destroy)] + Alone(t, n)).shared.heap == map[]
  {
    FreeWhenQuiet(s);
    var s' := Step(s, t, Destroy);
    StepKeepsInv(s, t, Destroy);
    n := Finishes(s', t);
    RunFirst(s, t, Destroy, Alone(t, n));
    QuietHeap(Run(s', Alone(t, n)));
  }

  lemma StepOnlyAddsEdits(s: State, t: Thread, m: Move)
    ensures s.shared.edits <= Step(s, t, m).shared.edits
  {
  }

  lemma {:induction false} EditsOnlyGrow(s: State, schedule: seq<(Thread, Move)>)
    ensures s.shared.edits <= Run(s, schedule).shared.edits
    decreases schedule
  {
    if schedule != [] {
      StepOnlyAddsEdits(s, schedule[0].0, schedule[0].1);
      EditsOnlyGrow(Step(s, schedule[0].0, schedule[0].1), schedule[1..]);
    }
  }

  lemma {:induction false} LookingStaysPut(s: State, t: Thread, schedule: seq<(Thread, Move)>)
    requires t in s.threads && s.threads[t].Walking?
    requires forall i :: 0 <= i < |schedule| ==> schedule[i].0 == t ==> schedule[i].1.Look?
    ensures var s' := Run(s, schedule); t in s'.threads && s'.threads[t] == s.threads[t]
    decreases schedule
  {
    if schedule != [] {
      LookingStaysPut(Step(s, schedule[0].0, schedule[0].1), t, schedule[1..]);
    }
  }

  /** While an emission only reads, whatever the others do in between, it sees one and the same list. */
  lemma WalkedListIsFrozen(threads: set<Thread>, before: seq<(Thread, Move)>, t: Thread, during: seq<(Thread, Move)>)
    requires var s := Run(Initial(threads), before); t in s.threads && s.threads[t].Walking?
    requires forall i :: 0 <= i < |during| ==> during[i].0 == t ==> during[i].1.Look?
    ensures var s := Run(Initial(threads), before);
      var s', p := Run(s, during), s.threads[t].list;
      && p in s.shared.heap && p in s'.shared.heap
      && s'.shared.heap[p].value == s.shared.heap[p].value && !s'.shared.heap[p].torn
  {
    var s := Run(Initial(threads), before);
    var s' := Run(s, during);
    InitialInv(threads);
    RunKeepsInv(Initial(threads), before);
    RunKeepsInv(s, during);
    LookingStaysPut(s, t, during);
    EditsOnlyGrow(s, during);
    assert s'.shared.edits[..s.threads[t].seen] == s.shared.edits[..s.threads[t].seen];
  }
}
