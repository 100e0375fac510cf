/**
 The list of slots of a signal: groups in ascending order of their id, each with its slots.
 The functions say which list every operation of the signal produces, in the order in which an emission
 would walk it; the lemmas say what that means for the abstract value, a bag of slots per group id.
 */
module SlotLists {
  import opened Lists

  type SlotId = nat
  datatype Group<+S> = Group(gid: int, slts: seq<S>)
  type Groups = seq<Group<SlotId>>

  datatype Edit =
    | AddSlot(slot: SlotId, gid: int)
    | Clean(slot: SlotId, gid: int)
    | DisconnectIf(doomed: set<SlotId>)
    | DisconnectGroup(gid: int)
    | DisconnectAll

  function Apply(groups: Groups, edit: Edit): Groups {
    match edit
    case AddSlot(s, gid) => Inserted(groups, s, gid)
    case Clean(s, gid) => Cleaned(groups, s, gid)
    case DisconnectIf(doomed) => SweptAll(groups, doomed)
    case DisconnectGroup(gid) => GroupCleared(groups, gid)
    case DisconnectAll => []
  }

  /** Swap with the last element, then pop it. */
  function SwapRemoved<S>(slts: seq<S>, i: nat): seq<S>
    requires i < |slts|
  {
    slts[i := slts[|slts| - 1]][..|slts| - 1]
  }

  /** Index of the first group that is not below `gid`. */
  function LowerBound<S>(groups: seq<Group<S>>, gid: int): (i: nat)
    ensures i <= |groups|
    ensures forall k :: 0 <= k < i ==> groups[k].gid < gid
    ensures i < |groups| ==> groups[i].gid >= gid
  {
    if groups == [] || groups[0].gid >= gid then 0 else 1 + LowerBound(groups[1..], gid)
  }

  function GidsIn<S>(list: seq<Group<S>>): (keys: seq<int>)
    ensures |keys| == |list| && forall i :: 0 <= i < |keys| ==> keys[i] == list[i].gid
  {
    seq(|list|, i requires 0 <= i < |list| => list[i].gid)
  }

  /** Index of the first group with this id, or the number of groups. */
  function FindGroup<S>(groups: seq<Group<S>>, gid: int): (i: nat)
    ensures i <= |groups|
    ensures forall k :: 0 <= k < i ==> groups[k].gid != gid
    ensures i < |groups| ==> groups[i].gid == gid
  {
    Find(GidsIn(groups), gid)
  }

  function WithSlots<S>(groups: seq<Group<S>>, i: nat, slts: seq<S>): seq<Group<S>>
    requires i < |groups|
  {
    groups[i := groups[i].(slts := slts)]
  }

  function Inserted(groups: Groups, s: SlotId, gid: int): Groups {
    var i := LowerBound(groups, gid);
    if i < |groups| && groups[i].gid == gid then WithSlots(groups, i, groups[i].slts + [s])
    else Placed(groups, i, Group(gid, [s]))
  }

  function Cleaned(groups: Groups, s: SlotId, gid: int): Groups {
    var i := FindGroup(groups, gid);
    if i < |groups| && s in groups[i].slts
    then WithSlots(groups, i, SwapRemoved(groups[i].slts, Find(groups[i].slts, s)))
    else groups
  }

  /** Removes the doomed slots from index `i` on, re-examining an index after each removal. */
  function Swept(slts: seq<SlotId>, i: nat, doomed: set<SlotId>): seq<SlotId>
    decreases |slts| - i
  {
    if i >= |slts| then slts
    else if slts[i] in doomed then Swept(SwapRemoved(slts, i), i, doomed)
    else Swept(slts, i + 1, doomed)
  }

  function SweptAll(groups: Groups, doomed: set<SlotId>): (r: Groups)
    ensures |r| == |groups|
    ensures forall k :: 0 <= k < |groups| ==> r[k] == Group(groups[k].gid, Swept(groups[k].slts, 0, doomed))
  {
    seq(|groups|, k requires 0 <= k < |groups| => groups[k].(slts := Swept(groups[k].slts, 0, doomed)))
  }

  function GroupCleared(groups: Groups, gid: int): Groups {
    var i := FindGroup(groups, gid);
    if i < |groups| then WithSlots(groups, i, []) else groups
  }

  /** The order in which an emission walks a list. */
  function Flatten(groups: Groups): seq<SlotId> {
    if groups == [] then [] else groups[0].slts + Flatten(groups[1..])
  }

  // ---------------------------------------------------------------- what a list means

  ghost predicate Ascending<S>(groups: seq<Group<S>>) {
    forall i, j :: 0 <= i < j < |groups| ==> groups[i].gid < groups[j].gid
  }

  /** The slots listed for a group id. */
  ghost function Bag<S>(groups: seq<Group<S>>, gid: int): multiset<S> {
    var i := FindGroup(groups, gid);
    if i < |groups| then multiset(groups[i].slts) else multiset{}
  }

  /** Groups ascend, and every listed slot stands once, in the group it was connected to (`gids`). */
  ghost predicate WellFormed(groups: Groups, gids: seq<int>) {
    && Ascending(groups)
    && forall i :: 0 <= i < |groups| ==> GroupFits(groups[i], gids)
  }

  ghost predicate GroupFits(group: Group<SlotId>, gids: seq<int>) {
    && Distinct(group.slts)
    && forall s :: s in group.slts ==> s < |gids| && gids[s] == group.gid
  }

  /** Slots are handed out in order, so a new one is not known yet; a known one is cleaned in its own group. */
  ghost predicate Fits(edit: Edit, gids: seq<int>) {
    match edit
    case AddSlot(s, _) => s == |gids|
    case Clean(s, gid) => s < |gids| && gids[s] == gid
    case _ => true
  }

  function GidsAfter(gids: seq<int>, edit: Edit): seq<int> {
    if edit.AddSlot? then gids + [edit.gid] else gids
  }

  /** How often `s` should be in the bag of `gid` after an edit, when it was there `before` times. */
  function TimesAfter(edit: Edit, gid: int, s: SlotId, before: nat): nat {
    match edit
    case AddSlot(x, g) => if g == gid && x == s then before + 1 else before
    case Clean(x, g) => if g == gid && x == s then 0 else before
    case DisconnectIf(doomed) => if s in doomed then 0 else before
    case DisconnectGroup(g) => if g == gid then 0 else before
    case DisconnectAll => 0
  }

  // ---------------------------------------------------------------- removal inside one group

  lemma SwapRemovedBag<S>(slts: seq<S>, i: nat)
    requires i < |slts|
    ensures multiset(SwapRemoved(slts, i)) == multiset(slts) - multiset{slts[i]}
  {
    var n := |slts| - 1;
    if i == n {
      assert slts == slts[..n] + [slts[n]] && SwapRemoved(slts, i) == slts[..n];
    } else {
      assert slts == slts[..i] + [slts[i]] + slts[i + 1..n] + [slts[n]];
      assert SwapRemoved(slts, i) == slts[..i] + [slts[n]] + slts[i + 1..n];
    }
  }

  lemma SwapRemovedDistinct<S>(slts: seq<S>, i: nat)
    requires i < |slts| && Distinct(slts)
    ensures var r := SwapRemoved(slts, i);
      Distinct(r) && forall s :: s in r <==> s in slts && s != slts[i]
  {
    var n, r := |slts| - 1, SwapRemoved(slts, i);
    forall s ensures s in r <==> s in slts && s != slts[i] {
      if s in slts && s != slts[i] {
        var k :| 0 <= k < |slts| && slts[k] == s;
        assert r[if k == n then i else k] == s;
      }
    }
  }

  lemma BagTimes<S>(slts: seq<S>, s: S)
    requires Distinct(slts)
    ensures multiset(slts)[s] == if s in slts then 1 else 0
  {
    if s in slts {
      var i :| 0 <= i < |slts| && slts[i] == s;
      assert slts == slts[..i] + [s] + slts[i + 1..];
      assert s !in slts[..i] && s !in slts[i + 1..];
    }
  }

  lemma {:induction false} SweptBag(slts: seq<SlotId>, i: nat, doomed: set<SlotId>)
    requires Distinct(slts) && i <= |slts|
    requires forall k :: 0 <= k < i ==> slts[k] !in doomed
    ensures var r := Swept(slts, i, doomed);
      Distinct(r) && forall s :: s in r <==> s in slts && s !in doomed
    decreases |slts| - i
  {
    if i < |slts| {
      if slts[i] in doomed {
        SwapRemovedDistinct(slts, i);
        SweptBag(SwapRemoved(slts, i), i, doomed);
      } else {
        SweptBag(slts, i + 1, doomed);
      }
    }
  }

  // ---------------------------------------------------------------- a group in its list

  /** A group id is listed at most once, so its bag is that of the one group carrying it. */
  lemma BagAt<S>(groups: seq<Group<S>>, gid: int)
    requires Ascending(groups)
    ensures forall i :: 0 <= i < |groups| && groups[i].gid == gid ==> Bag(groups, gid) == multiset(groups[i].slts)
    ensures (forall i :: 0 <= i < |groups| ==> groups[i].gid != gid) ==> Bag(groups, gid) == multiset{}
  {
  }

  lemma BagReplaced<S>(groups: seq<Group<S>>, i: nat, slts: seq<S>, gid: int)
    requires Ascending(groups) && i < |groups|
    ensures Ascending(WithSlots(groups, i, slts))
    ensures Bag(WithSlots(groups, i, slts), gid) == if gid == groups[i].gid then multiset(slts) else Bag(groups, gid)
  {
    var r := WithSlots(groups, i, slts);
    assert forall k :: 0 <= k < |groups| ==> r[k].gid == groups[k].gid;
    assert FindGroup(r, gid) == FindGroup(groups, gid);
  }

  lemma ReplacedFits(groups: Groups, i: nat, slts: seq<SlotId>, gids: seq<int>)
    requires WellFormed(groups, gids) && i < |groups| && GroupFits(groups[i].(slts := slts), gids)
    ensures WellFormed(WithSlots(groups, i, slts), gids)
  {
    BagReplaced(groups, i, slts, 0);
  }

  function Placed<S>(groups: seq<Group<S>>, i: nat, group: Group<S>): seq<Group<S>>
    requires i <= |groups|
  {
    groups[..i] + [group] + groups[i..]
  }

  lemma PlacedAscends<S>(groups: seq<Group<S>>, i: nat, group: Group<S>)
    requires Ascending(groups) && i <= |groups|
    requires forall k :: 0 <= k < i ==> groups[k].gid < group.gid
    requires forall k :: i <= k < |groups| ==> group.gid < groups[k].gid
    ensures Ascending(Placed(groups, i, group))
  {
    var r := Placed(groups, i, group);
    assert forall k :: 0 <= k < |r| ==> r[k] == if k < i then groups[k] else if k == i then group else groups[k - 1];
  }

  lemma PlacedBag<S>(groups: seq<Group<S>>, i: nat, group: Group<S>, g: int)
    requires i <= |groups| && forall k :: 0 <= k < |groups| ==> groups[k].gid != group.gid
    ensures Bag(Placed(groups, i, group), g) == if g == group.gid then multiset(group.slts) else Bag(groups, g)
  {
    var r, f := Placed(groups, i, group), FindGroup(groups, g);
    assert forall k :: 0 <= k < |r| ==> r[k] == if k < i then groups[k] else if k == i then group else groups[k - 1];
    FindGroupIs(r, g, if g == group.gid then i else if f < i then f else f + 1);
  }

  lemma FindGroupIs<S>(groups: seq<Group<S>>, gid: int, i: nat)
    requires i <= |groups| && (i < |groups| ==> groups[i].gid == gid)
    requires forall k :: 0 <= k < i ==> groups[k].gid != gid
    ensures FindGroup(groups, gid) == i
  {
  }

  lemma InsertedBag(groups: Groups, s: SlotId, gid: int, g: int)
    requires Ascending(groups)
    ensures Ascending(Inserted(groups, s, gid))
    ensures Bag(Inserted(groups, s, gid), g) == Bag(groups, g) + (if g == gid then multiset{s} else multiset{})
  {
    var i := LowerBound(groups, gid);
    if i < |groups| && groups[i].gid == gid {
      BagAt(groups, gid);
      BagReplaced(groups, i, groups[i].slts + [s], g);
    } else {
      NewGroupBag(groups, i, s, gid, g);
    }
  }

  lemma NewGroupBag(groups: Groups, i: nat, s: SlotId, gid: int, g: int)
    requires Ascending(groups) && i == LowerBound(groups, gid) && (i < |groups| ==> groups[i].gid > gid)
    ensures Ascending(Placed(groups, i, Group(gid, [s])))
    ensures Bag(Placed(groups, i, Group(gid, [s])), g)
      == Bag(groups, g) + (if g == gid then multiset{s} else multiset{})
  {
    assert forall k :: i < k < |groups| ==> groups[i].gid < groups[k].gid;
    PlacedAscends(groups, i, Group(gid, [s]));
    PlacedBag(groups, i, Group(gid, [s]), g);
    BagAt(groups, gid);
  }

  // ---------------------------------------------------------------- refinement

  /** An edited list is well formed again and holds, per group id, exactly the slots it should, each once. */
  lemma EditRefines(groups: Groups, gids: seq<int>, edit: Edit)
    requires WellFormed(groups, gids) && Fits(edit, gids)
    ensures WellFormed(Apply(groups, edit), GidsAfter(gids, edit))
    ensures forall gid, s :: Bag(Apply(groups, edit), gid)[s] == TimesAfter(edit, gid, s, Bag(groups, gid)[s])
  {
    match edit
    case AddSlot(s, gid) => AddRefines(groups, gids, s, gid);
    case Clean(s, gid) => CleanRefines(groups, gids, s, gid);
    case DisconnectIf(doomed) => SweepRefines(groups, gids, doomed);
    case DisconnectGroup(gid) =>
      var i := FindGroup(groups, gid);
      forall g
        ensures Ascending(GroupCleared(groups, gid))
        ensures Bag(GroupCleared(groups, gid), g) == if g == gid then multiset{} else Bag(groups, g)
      {
        if i < |groups| { BagReplaced(groups, i, [], g); }
      }
    case DisconnectAll =>
  }

  lemma ListedInItsGroup(groups: Groups, gids: seq<int>, gid: int, s: SlotId)
    requires WellFormed(groups, gids) && s in Bag(groups, gid)
    ensures s < |gids| && gids[s] == gid
  {
    var group := groups[FindGroup(groups, gid)];
    assert s in group.slts && GroupFits(group, gids);
  }

  /** Only connecting lists a slot, and cleaning one leaves it in no group. */
  lemma EditListsNoOther(groups: Groups, gids: seq<int>, edit: Edit, gid: int, s: SlotId)
    requires WellFormed(groups, gids) && Fits(edit, gids) && s in Bag(Apply(groups, edit), gid)
    ensures s in Bag(groups, gid) || (edit.AddSlot? && s == edit.slot)
    ensures edit.Clean? ==> s != edit.slot
  {
    EditRefines(groups, gids, edit);
    assert Bag(Apply(groups, edit), gid)[s] == TimesAfter(edit, gid, s, Bag(groups, gid)[s]);
    if s in Bag(groups, gid) { ListedInItsGroup(groups, gids, gid, s); }
  }

  lemma AddRefines(groups: Groups, gids: seq<int>, s: SlotId, gid: int)
    requires WellFormed(groups, gids) && s == |gids|
    ensures WellFormed(Inserted(groups, s, gid), gids + [gid])
    ensures forall g, x :: Bag(Inserted(groups, s, gid), g)[x] == TimesAfter(AddSlot(s, gid), g, x, Bag(groups, g)[x])
  {
    var r := Inserted(groups, s, gid);
    forall g ensures Ascending(r) && Bag(r, g) == Bag(groups, g) + (if g == gid then multiset{s} else multiset{}) {
      InsertedBag(groups, s, gid, g);
    }
    forall k | 0 <= k < |r| ensures GroupFits(r[k], gids + [gid]) {
      InsertedFits(groups, gids, s, gid, k);
    }
  }

  lemma InsertedFits(groups: Groups, gids: seq<int>, s: SlotId, gid: int, k: nat)
    requires WellFormed(groups, gids) && s == |gids| && k < |Inserted(groups, s, gid)|
    ensures GroupFits(Inserted(groups, s, gid)[k], gids + [gid])
  {
    var i, r := LowerBound(groups, gid), Inserted(groups, s, gid);
    if i < |groups| && groups[i].gid == gid {
      JoinedFits(groups[k], gids, s);
      assert k != i ==> groups[k].gid != gid;
    } else if k != i {
      assert r[k] == groups[if k < i then k else k - 1];
      JoinedFits(r[k], gids, s);
    }
  }

  lemma JoinedFits(group: Group<SlotId>, gids: seq<int>, s: SlotId)
    requires GroupFits(group, gids) && s == |gids|
    ensures GroupFits(group.(slts := group.slts + [s]), gids + [group.gid])
    ensures forall gid :: GroupFits(group, gids + [gid])
  {
    assert s !in group.slts;
  }

  lemma CleanRefines(groups: Groups, gids: seq<int>, s: SlotId, gid: int)
    requires WellFormed(groups, gids) && s < |gids| && gids[s] == gid
    ensures WellFormed(Cleaned(groups, s, gid), gids)
    ensures forall g, x :: Bag(Cleaned(groups, s, gid), g)[x] == TimesAfter(Clean(s, gid), g, x, Bag(groups, g)[x])
  {
    var i := FindGroup(groups, gid);
    if i < |groups| && s in groups[i].slts {
      assert GroupFits(groups[i], gids);
      CleanedTimes(groups[i].slts, s);
      ReplacedFits(groups, i, SwapRemoved(groups[i].slts, Find(groups[i].slts, s)), gids);
    }
    forall g, x ensures Bag(Cleaned(groups, s, gid), g)[x] == TimesAfter(Clean(s, gid), g, x, Bag(groups, g)[x]) {
      CleanedBag(groups, gids, s, gid, g, x);
    }
  }

  lemma CleanedBag(groups: Groups, gids: seq<int>, s: SlotId, gid: int, g: int, x: SlotId)
    requires WellFormed(groups, gids) && s < |gids| && gids[s] == gid
    ensures Bag(Cleaned(groups, s, gid), g)[x] == TimesAfter(Clean(s, gid), g, x, Bag(groups, g)[x])
  {
    var i := FindGroup(groups, gid);
    if i < |groups| && s in groups[i].slts {
      assert GroupFits(groups[i], gids);
      CleanedTimes(groups[i].slts, s);
      BagReplaced(groups, i, SwapRemoved(groups[i].slts, Find(groups[i].slts, s)), g);
    }
  }

  lemma CleanedTimes(slts: seq<SlotId>, s: SlotId)
    requires Distinct(slts) && s in slts
    ensures var left := SwapRemoved(slts, Find(slts, s));
      && Distinct(left) && (forall x :: x in left ==> x in slts)
      && forall x :: multiset(left)[x] == if x == s then 0 else multiset(slts)[x]
  {
    SwapRemovedBag(slts, Find(slts, s));
    SwapRemovedDistinct(slts, Find(slts, s));
    BagTimes(slts, s);
  }

  lemma SweepRefines(groups: Groups, gids: seq<int>, doomed: set<SlotId>)
    requires WellFormed(groups, gids)
    ensures WellFormed(SweptAll(groups, doomed), gids)
    ensures forall g, x ::
      Bag(SweptAll(groups, doomed), g)[x] == TimesAfter(DisconnectIf(doomed), g, x, Bag(groups, g)[x])
  {
    var r := SweptAll(groups, doomed);
    forall k | 0 <= k < |r| ensures GroupFits(r[k], gids) {
      SweptBag(groups[k].slts, 0, doomed);
    }
    forall g, x ensures Bag(r, g)[x] == TimesAfter(DisconnectIf(doomed), g, x, Bag(groups, g)[x]) {
      SweptTimes(groups, gids, doomed, g, x);
    }
  }

  lemma SweptTimes(groups: Groups, gids: seq<int>, doomed: set<SlotId>, g: int, x: SlotId)
    requires WellFormed(groups, gids)
    ensures Bag(SweptAll(groups, doomed), g)[x] == TimesAfter(DisconnectIf(doomed), g, x, Bag(groups, g)[x])
  {
    var r, i := SweptAll(groups, doomed), FindGroup(groups, g);
    BagAt(groups, g);
    BagAt(r, g);
    if i < |groups| {
      assert GroupFits(groups[i], gids);
      assert r[i].gid == g;
      SweptBag(groups[i].slts, 0, doomed);
      BagTimes(groups[i].slts, x);
      BagTimes(r[i].slts, x);
    } else {
      assert forall k :: 0 <= k < |r| ==> r[k].gid == groups[k].gid;
    }
  }

  // ---------------------------------------------------------------- the walk through a list

  ghost predicate Ordered(slts: seq<SlotId>, gids: seq<int>) {
    && (forall i :: 0 <= i < |slts| ==> slts[i] < |gids|)
    && forall i, j :: 0 <= i < j < |slts| ==> slts[i] != slts[j] && gids[slts[i]] <= gids[slts[j]]
  }

  lemma OrderedJoin(a: seq<SlotId>, b: seq<SlotId>, gids: seq<int>)
    requires Ordered(a, gids) && Ordered(b, gids)
    requires forall i, j :: 0 <= i < |a| && 0 <= j < |b| ==> a[i] != b[j] && gids[a[i]] <= gids[b[j]]
    ensures Ordered(a + b, gids)
  {
  }

  /** A snapshot goes through the groups in ascending order and lists no slot twice. */
  lemma {:induction false} FlattenOrdered(groups: Groups, gids: seq<int>)
    requires WellFormed(groups, gids)
    ensures Ordered(Flatten(groups), gids)
    ensures forall s :: s in Flatten(groups) ==> groups != [] && gids[s] >= groups[0].gid
  {
    if groups != [] {
      var a, b := groups[0].slts, Flatten(groups[1..]);
      assert GroupFits(groups[0], gids);
      assert WellFormed(groups[1..], gids);
      FlattenOrdered(groups[1..], gids);
      forall i | 0 <= i < |a| ensures a[i] < |gids| && gids[a[i]] == groups[0].gid { assert a[i] in a; }
      forall j | 0 <= j < |b| ensures gids[b[j]] > groups[0].gid { assert b[j] in b; }
      OrderedJoin(a, b, gids);
    }
  }

  lemma BagOfTail(groups: Groups, gid: int)
    requires Ascending(groups) && groups != []
    ensures Bag(groups, gid) == if gid == groups[0].gid then multiset(groups[0].slts) else Bag(groups[1..], gid)
    ensures gid == groups[0].gid ==> Bag(groups[1..], gid) == multiset{}
  {
    var f := FindGroup(groups[1..], gid);
    if f < |groups[1..]| { assert groups[f + 1].gid == gid; }
  }

  lemma {:induction false} FlattenListed(groups: Groups, s: SlotId)
    requires Ascending(groups)
    ensures s in Flatten(groups) <==> exists gid :: s in Bag(groups, gid)
  {
    if groups != [] {
      FlattenListed(groups[1..], s);
      forall gid
        ensures s in Bag(groups, gid) <==> (gid == groups[0].gid && s in groups[0].slts) || s in Bag(groups[1..], gid)
      {
        BagOfTail(groups, gid);
      }
      assert s in groups[0].slts ==> s in Bag(groups, groups[0].gid);
    }
  }

  /** A slot is walked exactly if it is in the bag of its own group. */
  lemma FlattenInBag(groups: Groups, gids: seq<int>, s: SlotId)
    requires WellFormed(groups, gids)
    ensures s in Flatten(groups) <==> s < |gids| && s in Bag(groups, gids[s])
  {
    FlattenListed(groups, s);
    forall gid | s in Bag(groups, gid) ensures s < |gids| && gids[s] == gid { ListedInItsGroup(groups, gids, gid, s); }
  }

  /** Which slots a walk meets after an edit. */
  lemma EditListed(groups: Groups, gids: seq<int>, edit: Edit, s: SlotId)
    requires WellFormed(groups, gids) && Fits(edit, gids)
    ensures s in Flatten(Apply(groups, edit)) <==>
      match edit
      case AddSlot(x, _) => s in Flatten(groups) || s == x
      case Clean(x, _) => s in Flatten(groups) && s != x
      case DisconnectIf(doomed) => s in Flatten(groups) && s !in doomed
      case DisconnectGroup(gid) => s in Flatten(groups) && !(s < |gids| && gids[s] == gid)
      case DisconnectAll => false
  {
    var gids' := GidsAfter(gids, edit);
    EditRefines(groups, gids, edit);
    FlattenInBag(groups, gids, s);
    FlattenInBag(Apply(groups, edit), gids', s);
    if s < |gids'| {
      var gid := gids'[s];
      assert Bag(Apply(groups, edit), gid)[s] == TimesAfter(edit, gid, s, Bag(groups, gid)[s]);
      if s == |gids| && s in Bag(groups, gid) { ListedInItsGroup(groups, gids, gid, s); }
    }
  }

  function Elements(slts: seq<SlotId>): set<SlotId> {
    set s | s in slts
  }

  lemma {:induction false} DistinctCount(slts: seq<SlotId>)
    requires Distinct(slts)
    ensures |Elements(slts)| == |slts|
  {
    if slts != [] {
      var n := |slts| - 1;
      DistinctCount(slts[..n]);
      assert slts == slts[..n] + [slts[n]];
      assert slts[n] !in slts[..n];
      assert Elements(slts) == Elements(slts[..n]) + {slts[n]};
    }
  }

  /** The sweep removes exactly the doomed slots that are listed, so the drop in size counts them. */
  lemma SweptCount(groups: Groups, gids: seq<int>, doomed: set<SlotId>)
    requires WellFormed(groups, gids)
    ensures |Flatten(groups)| == |Flatten(SweptAll(groups, doomed))| + |Elements(Flatten(groups)) * doomed|
  {
    var a, b := Flatten(groups), Flatten(SweptAll(groups, doomed));
    SweepRefines(groups, gids, doomed);
    FlattenOrdered(groups, gids);
    FlattenOrdered(SweptAll(groups, doomed), gids);
    DistinctCount(a);
    DistinctCount(b);
    forall s: SlotId ensures s in b <==> s in a && s !in doomed {
      FlattenListed(groups, s);
      FlattenListed(SweptAll(groups, doomed), s);
      SweptListed(groups, gids, doomed, s);
    }
    assert Elements(a) == Elements(b) + Elements(a) * doomed;
  }

  lemma SweptListed(groups: Groups, gids: seq<int>, doomed: set<SlotId>, s: SlotId)
    requires WellFormed(groups, gids)
    ensures (exists gid :: s in Bag(SweptAll(groups, doomed), gid)) <==>
      s !in doomed && exists gid :: s in Bag(groups, gid)
  {
    forall gid ensures s in Bag(SweptAll(groups, doomed), gid) <==> s !in doomed && s in Bag(groups, gid) {
      SweptTimes(groups, gids, doomed, gid, s);
    }
  }

  lemma {:induction false} FlattenReplaced(groups: Groups, i: nat, slts: seq<SlotId>)
    requires i < |groups|
    ensures |Flatten(WithSlots(groups, i, slts))| == |Flatten(groups)| - |groups[i].slts| + |slts|
  {
    var r := WithSlots(groups, i, slts);
    if i == 0 {
      assert r[1..] == groups[1..];
    } else {
      FlattenReplaced(groups[1..], i - 1, slts);
      assert r[1..] == WithSlots(groups[1..], i - 1, slts);
    }
  }
}
