/**
 The signal itself: slots are heap objects shared by the signal, by connections and by running
 emissions, and each stores its own position in the signal's list.
 `View()` is the value the other modules reason about; every method is proved to produce the view that
 the functions of `SlotLists` and `Emission` give.
 */
module Signals {
  import opened Lists
  import opened SlotLists
  import opened Emission

  class Slot {
    const id: SlotId      // stands for the address
    const group: int
    var index: nat        // position in its group of the signal's list; stale once removed
    var connected: bool
    var blocked: bool
    var expired: bool     // the object a tracking slot refers to is gone

    constructor (id: SlotId, group: int)
      ensures this.id == id && this.group == group && connected && !blocked && !expired
    {
      this.id, this.group, index := id, group, 0;
      connected, blocked, expired := true, false, false;
    }
  }

  ghost function Ids(slts: seq<Slot>): (ids: seq<SlotId>)
    ensures |ids| == |slts| && forall j :: 0 <= j < |slts| ==> ids[j] == slts[j].id
  {
    seq(|slts|, j requires 0 <= j < |slts| => slts[j].id)
  }

  ghost function IdGroups(groups: seq<Group<Slot>>): (ids: Groups)
    ensures |ids| == |groups|
    ensures forall i :: 0 <= i < |groups| ==> ids[i] == Group(groups[i].gid, Ids(groups[i].slts))
  {
    seq(|groups|, i requires 0 <= i < |groups| => Group(groups[i].gid, Ids(groups[i].slts)))
  }

  ghost function GroupIds(born: seq<Slot>): (gids: seq<int>)
    ensures |gids| == |born| && forall i :: 0 <= i < |born| ==> gids[i] == born[i].group
  {
    seq(|born|, i requires 0 <= i < |born| => born[i].group)
  }

  /** Slots carry the position at which they were connected, so an id names one slot. */
  ghost predicate Numbered(born: seq<Slot>) {
    forall i :: 0 <= i < |born| ==> born[i].id == i
  }

  lemma SwapRemovedIds(slts: seq<Slot>, i: nat)
    requires i < |slts|
    ensures Ids(SwapRemoved(slts, i)) == SwapRemoved(Ids(slts), i)
  {
  }

  lemma WithSlotsIds(groups: seq<Group<Slot>>, i: nat, slts: seq<Slot>)
    requires i < |groups|
    ensures IdGroups(WithSlots(groups, i, slts)) == WithSlots(IdGroups(groups), i, Ids(slts))
  {
  }

  lemma WithSlotsAgain(groups: seq<Group<Slot>>, i: nat, slts: seq<Slot>, slts': seq<Slot>)
    requires i < |groups|
    ensures WithSlots(WithSlots(groups, i, slts), i, slts') == WithSlots(groups, i, slts')
  {
  }

  lemma CleanedByIndex(groups: seq<Group<Slot>>, i: nat, idx: nat, s: Slot)
    requires i < |groups| && groups[i].gid == s.group && forall k :: 0 <= k < i ==> groups[k].gid != s.group
    requires Distinct(Ids(groups[i].slts)) && idx < |groups[i].slts| && groups[i].slts[idx] == s
    ensures IdGroups(WithSlots(groups, i, SwapRemoved(groups[i].slts, idx))) == Cleaned(IdGroups(groups), s.id, s.group)
  {
    var ids := Ids(groups[i].slts);
    FindGroupIs(IdGroups(groups), s.group, i);
    assert ids[idx] == s.id && Find(ids, s.id) == idx;
    SwapRemovedIds(groups[i].slts, idx);
    WithSlotsIds(groups, i, SwapRemoved(groups[i].slts, idx));
  }

  /** The list after a group was put at `it` if missing, and `s` at the end of that group. */
  function Joined(groups: seq<Group<Slot>>, it: nat, s: Slot): seq<Group<Slot>>
    requires it <= |groups|
  {
    if it < |groups| && groups[it].gid == s.group then WithSlots(groups, it, groups[it].slts + [s])
    else Placed(groups, it, Group(s.group, [s]))
  }

  lemma JoinedIds(groups: seq<Group<Slot>>, it: nat, s: Slot)
    requires it <= |groups| && forall k :: 0 <= k < it ==> groups[k].gid < s.group
    requires it < |groups| ==> groups[it].gid >= s.group
    ensures IdGroups(Joined(groups, it, s)) == Inserted(IdGroups(groups), s.id, s.group)
  {
    var ids := IdGroups(groups);
    assert LowerBound(ids, s.group) == it;
    if it < |groups| && groups[it].gid == s.group {
      WithSlotsIds(groups, it, groups[it].slts + [s]);
      assert Ids(groups[it].slts + [s]) == Ids(groups[it].slts) + [s.id];
    } else {
      assert Ids([s]) == [s.id];
      assert IdGroups(Placed(groups, it, Group(s.group, [s]))) == Placed(ids, it, Group(s.group, [s.id]));
    }
  }

  /** Joining moves no slot within its group. */
  lemma JoinedKeepsPlaces(groups: seq<Group<Slot>>, it: nat, s: Slot, i: nat, j: nat)
    requires it <= |groups| && i < |Joined(groups, it, s)| && j < |Joined(groups, it, s)[i].slts|
    ensures var r := Joined(groups, it, s);
      (r[i].slts[j] == s && i == it && j == |r[it].slts| - 1)
      || exists k :: 0 <= k < |groups| && j < |groups[k].slts| && groups[k].slts[j] == r[i].slts[j]
  {
    if it < |groups| && groups[it].gid == s.group {
      assert (i == it && j == |groups[it].slts|) || groups[i].slts[j] == Joined(groups, it, s)[i].slts[j];
    } else if i != it {
      var k := if i < it then i else i - 1;
      assert Joined(groups, it, s)[i] == groups[k];
    }
  }

  /** The list when the first `g` groups have been swept. */
  ghost function SweptUpTo(groups: Groups, g: nat, doomed: set<SlotId>): (r: Groups)
    requires g <= |groups|
    ensures |r| == |groups|
  {
    if g == 0 then groups else WithSlots(SweptUpTo(groups, g - 1, doomed), g - 1, Swept(groups[g - 1].slts, 0, doomed))
  }

  lemma {:induction false} SweptUpToIs(groups: Groups, g: nat, doomed: set<SlotId>)
    requires g <= |groups|
    ensures forall k :: g <= k < |groups| ==> SweptUpTo(groups, g, doomed)[k] == groups[k]
    ensures forall k :: 0 <= k < g ==>
      SweptUpTo(groups, g, doomed)[k] == Group(groups[k].gid, Swept(groups[k].slts, 0, doomed))
  {
    if g > 0 { SweptUpToIs(groups, g - 1, doomed); }
  }

  /** The list with the slot's group, which is put at `it` if missing. */
  function WithGroup(groups: seq<Group<Slot>>, it: nat, gid: int): (r: seq<Group<Slot>>)
    requires it <= |groups|
    ensures it < |r|
  {
    if it < |groups| && groups[it].gid == gid then groups else Placed(groups, it, Group(gid, []))
  }

  lemma JoinedInTwo(groups: seq<Group<Slot>>, it: nat, s: Slot)
    requires it <= |groups|
    ensures var r := WithGroup(groups, it, s.group); WithSlots(r, it, r[it].slts + [s]) == Joined(groups, it, s)
  {
    var r := WithGroup(groups, it, s.group);
    if !(it < |groups| && groups[it].gid == s.group) {
      assert r[it].slts + [s] == [s];
      assert r[it := Group(s.group, [s])] == Placed(groups, it, Group(s.group, [s]));
    }
  }

  lemma {:induction false} FlattenLast(groups: Groups, i: nat)
    requires i < |groups|
    ensures Flatten(groups[..i + 1]) == Flatten(groups[..i]) + groups[i].slts
  {
    if i == 0 {
      assert groups[..1] == [groups[0]] && Flatten(groups[..1][1..]) == [];
    } else {
      FlattenLast(groups[1..], i - 1);
      assert groups[..i + 1][1..] == groups[1..][..i] && groups[..i][1..] == groups[1..][..i - 1];
    }
  }

  class Signal {
    var groups: seq<Group<Slot>>
    var muted: bool
    var born: seq<Slot>   // the connections handed out, in order

    ghost function ConnectedIds(): set<SlotId>
      reads this`born, born
    {
      set i | 0 <= i < |born| && born[i].connected
    }

    ghost function BlockedIds(): set<SlotId>
      reads this`born, born
    {
      set i | 0 <= i < |born| && born[i].blocked
    }

    ghost function ExpiredIds(): set<SlotId>
      reads this`born, born
    {
      set i | 0 <= i < |born| && born[i].expired
    }

    ghost function View(): View
      reads this, born
    {
      Emission.View(
        IdGroups(groups),
        GroupIds(born),
        ConnectedIds(),
        BlockedIds(),
        ExpiredIds(),
        muted)
    }

    /** Listed slots are known and stand where their index says. */
    ghost predicate Valid()
      reads this, born
    {
      && Numbered(born)
      && (forall i, j :: 0 <= i < |groups| && 0 <= j < |groups[i].slts| ==>
            groups[i].slts[j] in born && groups[i].slts[j].index == j)
      && WellFormed(IdGroups(groups), GroupIds(born))
    }

    constructor ()
      ensures Valid() && born == [] && View() == Emission.View([], [], {}, {}, {}, false)
    {
      groups, muted, born := [], false, [];
    }

    lemma IndexTells(i: nat, s: Slot)
      requires Valid() && s in born && i < |groups|
      ensures s.id in Ids(groups[i].slts) <==> s.index < |groups[i].slts| && groups[i].slts[s.index] == s
    {
      var slts := groups[i].slts;
      if s.id in Ids(slts) {
        var j :| 0 <= j < |slts| && Ids(slts)[j] == s.id;
        assert slts[j] in born && slts[j].index == j;
      }
    }

    /** Swap with the last slot of the group, renumber that one, and pop. */
    method Erase(i: nat, j: nat)
      requires Valid() && i < |groups| && j < |groups[i].slts|
      modifies this`groups, born`index
      ensures Valid() && born == old(born)
      ensures groups == WithSlots(old(groups), i, SwapRemoved(old(groups[i].slts), j))
    {
      var slts := groups[i].slts;
      var last := |slts| - 1;
      ErasedFits(i, j);
      slts := slts[j := slts[last]][last := slts[j]];
      slts[j].index := j;
      slts := slts[..last];
      assert slts == SwapRemoved(groups[i].slts, j);
      groups := groups[i := groups[i].(slts := slts)];
    }

    lemma ErasedFits(i: nat, j: nat)
      requires Valid() && i < |groups| && j < |groups[i].slts|
      ensures WellFormed(IdGroups(WithSlots(groups, i, SwapRemoved(groups[i].slts, j))), GroupIds(born))
    {
      var slts := groups[i].slts;
      assert GroupFits(IdGroups(groups)[i], GroupIds(born));
      SwapRemovedDistinct(Ids(slts), j);
      SwapRemovedIds(slts, j);
      WithSlotsIds(groups, i, SwapRemoved(slts, j));
      ReplacedFits(IdGroups(groups), i, SwapRemoved(Ids(slts), j), GroupIds(born));
    }

    /** Takes a slot out of the list if it still stands at its index. */
    method Clean(s: Slot)
      requires Valid() && s in born
      modifies this`groups, born`index
      ensures Valid() && born == old(born)
      ensures IdGroups(groups) == Cleaned(old(IdGroups(groups)), s.id, s.group)
    {
      var idx, gid := s.index, s.group;
      for i := 0 to |groups|
        invariant groups == old(groups) && Valid() && s.index == idx
        invariant forall k :: 0 <= k < i ==> groups[k].gid != gid
      {
        if groups[i].gid == gid {
          IndexTells(i, s);
          FindGroupIs(IdGroups(groups), gid, i);
          if idx < |groups[i].slts| && groups[i].slts[idx] == s {
            assert GroupFits(IdGroups(groups)[i], GroupIds(born));
            CleanedByIndex(groups, i, idx, s);
            Erase(i, idx);
          }
          return;
        }
      }
      FindGroupIs(IdGroups(groups), gid, |groups|);
    }
  
    /** Puts a new slot at the end of its group, which is created in order when it is missing. */
    method AddSlot(s: Slot)
      requires Valid() && s !in born && s.id == |born|
      modifies this`groups, this`born, s`index
      ensures born == old(born) + [s] && Valid()
      ensures IdGroups(groups) == Inserted(old(IdGroups(groups)), s.id, s.group)
    {
      var gid, it := s.group, 0;
      while it < |groups| && groups[it].gid < gid
        invariant 0 <= it <= |groups| && forall k :: 0 <= k < it ==> groups[k].gid < gid
      {
        it := it + 1;
      }
      JoinedStaysIndexed(it, s);
      JoinedFits(it, s);
      JoinAt(it, s);
    }

    ghost predicate Placements(groups: seq<Group<Slot>>, it: nat, s: Slot)
      reads this`born, born
      requires it < |groups|
    {
      forall i, j :: 0 <= i < |groups| && 0 <= j < |groups[i].slts| ==>
        (groups[i].slts[j] == s && j == |groups[it].slts| - 1)
        || (groups[i].slts[j] in born && groups[i].slts[j].index == j)
    }

    lemma JoinedStaysIndexed(it: nat, s: Slot)
      requires Valid() && it <= |groups|
      ensures Placements(Joined(groups, it, s), it, s)
    {
      var r := Joined(groups, it, s);
      forall i, j | 0 <= i < |r| && 0 <= j < |r[i].slts|
        ensures (r[i].slts[j] == s && j == |r[it].slts| - 1) || (r[i].slts[j] in born && r[i].slts[j].index == j)
      {
        JoinedKeepsPlaces(groups, it, s, i, j);
      }
    }

    lemma JoinedFits(it: nat, s: Slot)
      requires Valid() && it <= |groups| && s.id == |born|
      requires forall k :: 0 <= k < it ==> groups[k].gid < s.group
      requires it < |groups| ==> groups[it].gid >= s.group
      ensures Numbered(born + [s])
      ensures IdGroups(Joined(groups, it, s)) == Inserted(IdGroups(groups), s.id, s.group)
      ensures WellFormed(IdGroups(Joined(groups, it, s)), GroupIds(born + [s]))
    {
      JoinedIds(groups, it, s);
      AddRefines(IdGroups(groups), GroupIds(born), s.id, s.group);
      assert GroupIds(born + [s]) == GroupIds(born) + [s.group];
    }

    method JoinAt(it: nat, s: Slot)
      requires it <= |groups| && s !in born && Numbered(born + [s])
      requires Placements(Joined(groups, it, s), it, s)
      requires WellFormed(IdGroups(Joined(groups, it, s)), GroupIds(born + [s]))
      modifies this`groups, this`born, s`index
      ensures groups == Joined(old(groups), it, s) && born == old(born) + [s] && Valid()
    {
      JoinedInTwo(groups, it, s);
      AddGroup(it, s.group);
      PushSlot(it, s);
      born := born + [s];
    }

    method AddGroup(it: nat, gid: int)
      requires it <= |groups|
      modifies this`groups
      ensures groups == WithGroup(old(groups), it, gid)
    {
      if it == |groups| || groups[it].gid != gid {
        groups := groups[..it] + [Group(gid, [])] + groups[it..];
      }
    }

    method PushSlot(it: nat, s: Slot)
      requires it < |groups| && s !in born
      modifies this`groups, s`index
      ensures groups == WithSlots(old(groups), it, old(groups)[it].slts + [s])
      ensures s.index == |old(groups)[it].slts|
    {
      s.index := |groups[it].slts|;
      groups := groups[it := groups[it].(slts := groups[it].slts + [s])];
    }

    method Connect(gid: int) returns (s: Slot)
      requires Valid()
      modifies this`groups, this`born
      ensures Valid() && fresh(s) && born == old(born) + [s]
      ensures View() == Connected(old(View()), gid)
    {
      s := new Slot(|born|, gid);
      AddSlot(s);
      assert ConnectedIds() == old(ConnectedIds()) + {s.id};
      assert BlockedIds() == old(BlockedIds());
      assert ExpiredIds() == old(ExpiredIds());
      assert GroupIds(born) == old(GroupIds(born)) + [gid];
    }

    /** `slot_state::disconnect` */
    method Disconnect(s: Slot) returns (was: bool)
      requires Valid() && s in born
      modifies this`groups, born`index, s`connected
      ensures Valid() && was == old(s.connected) && born == old(born)
      ensures View() == Disconnected(old(View()), s.id)
    {
      was := s.connected;
      if was {
        Unplug(s);
        label cleaning:
        Clean(s);
        SlotsKeptTheirState@cleaning();
      }
    }

    method Unplug(s: Slot)
      requires Valid() && s in born
      modifies s`connected
      ensures Valid() && !s.connected
      ensures View() == old(View()).(connected := old(View()).connected - {s.id})
    {
      s.connected := false;
      assert ConnectedIds() == old(ConnectedIds()) - {s.id};
      assert BlockedIds() == old(BlockedIds());
      assert ExpiredIds() == old(ExpiredIds());
    }

    /** The inner loop of `disconnect_if`, over one group. */
    method SweepGroup(g: nat, doomed: set<SlotId>) returns (count: nat)
      requires Valid() && g < |groups|
      modifies this`groups, born`index
      ensures Valid() && born == old(born)
      ensures IdGroups(groups) == WithSlots(old(IdGroups(groups)), g, Swept(old(Ids(groups[g].slts)), 0, doomed))
      ensures count == |old(groups[g].slts)| - |groups[g].slts|
    {
      count := 0;
      var i := 0;
      ghost var before := groups;
      while i < |groups[g].slts|
        invariant g < |groups| && Valid() && born == old(born) && i <= |groups[g].slts|
        invariant groups == WithSlots(before, g, groups[g].slts)
        invariant Swept(Ids(groups[g].slts), i, doomed) == Swept(Ids(before[g].slts), 0, doomed)
        invariant count + |groups[g].slts| == |before[g].slts|
        decreases |groups[g].slts| - i
      {
        if groups[g].slts[i].id in doomed {
          SwapRemovedIds(groups[g].slts, i);
          WithSlotsAgain(before, g, groups[g].slts, SwapRemoved(groups[g].slts, i));
          Erase(g, i);
          count := count + 1;
        } else {
          i := i + 1;
        }
      }
      WithSlotsIds(before, g, groups[g].slts);
    }

    /** `disconnect_if`: removes every slot that satisfies the condition, given as the set of those that do, and counts
        them. */
    method RemoveIf(doomed: set<SlotId>) returns (count: nat)
      requires Valid()
      modifies this`groups, born`index
      ensures Valid() && born == old(born)
      ensures IdGroups(groups) == SweptAll(old(IdGroups(groups)), doomed)
      ensures count == |Elements(Flatten(old(IdGroups(groups)))) * doomed|
    {
      count := 0;
      ghost var before := IdGroups(groups);
      SweptCount(before, GroupIds(born), doomed);
      for g := 0 to |groups|
        invariant |groups| == |before| && Valid() && born == old(born)
        invariant IdGroups(groups) == SweptUpTo(before, g, doomed)
        invariant count + |Flatten(IdGroups(groups))| == |Flatten(before)|
      {
        SweptUpToIs(before, g, doomed);
        FlattenReplaced(IdGroups(groups), g, Swept(before[g].slts, 0, doomed));
        var swept := SweepGroup(g, doomed);
        count := count + swept;
      }
      SweptUpToIs(before, |before|, doomed);
      assert IdGroups(groups) == SweptAll(before, doomed);
    }
  
    /** `disconnect(gid)` */
    method RemoveGroup(gid: int) returns (count: nat)
      requires Valid()
      modifies this`groups
      ensures Valid() && IdGroups(groups) == GroupCleared(old(IdGroups(groups)), gid)
      ensures count == |Bag(old(IdGroups(groups)), gid)|
    {
      for i := 0 to |groups|
        invariant groups == old(groups) && forall k :: 0 <= k < i ==> groups[k].gid != gid
      {
        if groups[i].gid == gid {
          FindGroupIs(IdGroups(groups), gid, i);
          WithSlotsIds(groups, i, []);
          assert Ids([]) == [];
          ReplacedFits(IdGroups(groups), i, [], GroupIds(born));
          count := |groups[i].slts|;
          groups := groups[i := groups[i].(slts := [])];
          return;
        }
      }
      FindGroupIs(IdGroups(groups), gid, |groups|);
      count := 0;
    }

    /** `disconnect_all` */
    method RemoveAll()
      requires Valid()
      modifies this`groups
      ensures Valid() && groups == []
    {
      groups := [];
    }

    method SlotCount() returns (count: nat)
      requires Valid()
      ensures count == |Flatten(IdGroups(groups))|
    {
      count := 0;
      for i := 0 to |groups|
        invariant count + |Flatten(IdGroups(groups)[i..])| == |Flatten(IdGroups(groups))|
      {
        count := count + |groups[i].slts|;
        assert IdGroups(groups)[i..][1..] == IdGroups(groups)[i + 1..];
      }
    }
  
    ghost function Slots(): set<Slot>
      reads this`born
    {
      set s | s in born
    }

    /** Emits to a snapshot of the list taken at the start; the callbacks behave as the script says. */
    method Emit(script: seq<Behaviour>) returns (called: seq<SlotId>, heard: seq<SlotId>)
      requires Valid()
      modifies this, Slots()
      ensures Valid() && old(born) <= born && fresh(Slots() - old(Slots()))
      ensures var out := Emitted(old(View()), script); View() == out.view && called == out.called && heard == out.heard
      decreases script, 2, 0
    {
      called, heard := [], [];
      if muted { return; }
      var ref, rest := groups, script;
      ghost var v, ids := View(), IdGroups(groups);
      assert ids[..0] == [];
      for i := 0 to |ref|
        invariant Valid() && old(born) <= born && fresh(Slots() - old(Slots()))
        invariant |rest| <= |script| && rest == script[|script| - |rest|..]
        invariant Outcome(View(), called, heard, rest) == Walk(v, Flatten(ids[..i]), script)
      {
        FlattenLast(ids, i);
        WalkSplits(v, Flatten(ids[..i]), ids[i].slts, script);
        forall s | s in ref[i].slts ensures s in old(born) {}
        var c, h;
        c, h, rest := EmitToGroup(ref[i].slts, rest);
        called, heard := called + c, heard + h;
      }
      assert ids[..|ids|] == ids;
    }

    method EmitToGroup(slts: seq<Slot>, script: seq<Behaviour>)
      returns (called: seq<SlotId>, heard: seq<SlotId>, rest: seq<Behaviour>)
      requires Valid() && forall s :: s in slts ==> s in born
      modifies this, Slots()
      ensures Valid() && old(born) <= born && fresh(Slots() - old(Slots()))
      ensures |rest| <= |script| && rest == script[|script| - |rest|..]
      ensures Outcome(View(), called, heard, rest) == Walk(old(View()), Ids(slts), script)
      decreases script, 1, 0
    {
      called, heard, rest := [], [], script;
      ghost var v := View();
      assert Ids(slts[..0]) == [];
      for j := 0 to |slts|
        invariant Valid() && old(born) <= born && fresh(Slots() - old(Slots()))
        invariant |rest| <= |script| && rest == script[|script| - |rest|..]
        invariant Outcome(View(), called, heard, rest) == Walk(v, Ids(slts[..j]), script)
      {
        var s := slts[j];
        assert s in old(born) && Ids(slts[..j + 1]) == Ids(slts[..j]) + [s.id];
        ghost var sofar := Outcome(View(), called, heard, rest);
        var c, h;
        c, h, rest := CallSlot(s, rest);
        WalkExtended(v, Ids(slts[..j]), script, sofar, s.id, Outcome(View(), c, h, rest));
        called, heard := called + c, heard + h;
      }
      assert slts[..|slts|] == slts;
    }

    /** `slot_base::operator()` */
    method CallSlot(s: Slot, script: seq<Behaviour>)
      returns (called: seq<SlotId>, heard: seq<SlotId>, rest: seq<Behaviour>)
      requires Valid() && s in born
      modifies this, Slots()
      ensures Valid() && old(born) <= born && fresh(Slots() - old(Slots()))
      ensures |rest| <= |script| && rest == script[|script| - |rest|..]
      ensures Outcome(View(), called, heard, rest) == Turn(old(View()), s.id, script)
      decreases script, 0, 0
    {
      called, heard, rest := [], [], script;
      if s.connected && !s.blocked {
        if s.expired {
          var _ := Disconnect(s);
        } else {
          called := [s.id];
          if script != [] {
            heard := PerformEach(script[0].acts);
            rest := script[1..];
          }
          heard := [s.id] + heard;
        }
      }
    }

    method PerformEach(acts: seq<Act>) returns (heard: seq<SlotId>)
      requires Valid()
      modifies this, Slots()
      ensures Valid() && old(born) <= born && fresh(Slots() - old(Slots()))
      ensures View() == PerformAll(old(View()), acts).view && heard == PerformAll(old(View()), acts).heard
      decreases acts, 0, 0
    {
      heard := [];
      if acts != [] {
        var first := PerformOne(acts[0]);
        var rest := PerformEach(acts[1..]);
        heard := first + rest;
      }
    }

    method PerformOne(act: Act) returns (heard: seq<SlotId>)
      requires Valid()
      modifies this, Slots()
      ensures Valid() && old(born) <= born && fresh(Slots() - old(Slots()))
      ensures View() == Perform(old(View()), act).view && heard == Perform(old(View()), act).heard
      decreases act, 0, 0
    {
      heard := [];
      match act
      case Emit(script) =>
        var called;
        called, heard := Emit(script);
      case Connect(gid) =>
        var s := Connect(gid);
      case Disconnect(id) =>
        if id < |born| { var _ := Disconnect(born[id]); }
      case Block(id) =>
        if id < |born| { SetBlocked(born[id], true); }
      case Unblock(id) =>
        if id < |born| { SetBlocked(born[id], false); }
      case Expire(id) =>
        if id < |born| { LetExpire(born[id]); }
      case Mute =>
        muted := true;
      case Unmute =>
        muted := false;
      case _ =>
        PerformOnSignal(act);
    }

    method PerformOnSignal(act: Act)
      requires Valid() && (act.DisconnectMatching? || act.DisconnectGroupOf? || act.DisconnectEvery?)
      modifies this`groups, born`index
      ensures Valid() && born == old(born) && View() == Perform(old(View()), act).view
    {
      EditBySignal(if act.DisconnectMatching? then DisconnectIf(act.doomed)
                   else if act.DisconnectGroupOf? then DisconnectGroup(act.gid) else DisconnectAll);
    }

    method EditBySignal(edit: Edit)
      requires Valid() && !edit.AddSlot? && !edit.Clean?
      modifies this`groups, born`index
      ensures Valid() && born == old(born) && View() == Edited(old(View()), edit)
    {
      EditList(edit);
      SlotsKeptTheirState();
    }

    method EditList(edit: Edit)
      requires Valid() && !edit.AddSlot? && !edit.Clean?
      modifies this`groups, born`index
      ensures Valid() && born == old(born) && IdGroups(groups) == Apply(old(IdGroups(groups)), edit)
    {
      match edit
      case DisconnectIf(doomed) => var _ := RemoveIf(doomed);
      case DisconnectGroup(gid) => var _ := RemoveGroup(gid);
      case DisconnectAll => RemoveAll();
    }

    twostate lemma SlotsKeptTheirState()
      requires born == old(born) && muted == old(muted)
      requires forall s :: s in born ==>
        s.connected == old(s.connected) && s.blocked == old(s.blocked) && s.expired == old(s.expired)
      ensures View() == old(View()).(groups := IdGroups(groups))
    {
      assert ConnectedIds() == old(ConnectedIds());
      assert BlockedIds() == old(BlockedIds());
      assert ExpiredIds() == old(ExpiredIds());
    }

    method SetBlocked(s: Slot, blocked: bool)
      requires Valid() && s in born
      modifies s`blocked
      ensures Valid()
      ensures var v := old(View());
        View() == v.(blocked := if blocked then v.blocked + {s.id} else v.blocked - {s.id})
    {
      s.blocked := blocked;
      assert ConnectedIds() == old(ConnectedIds());
      assert BlockedIds() == if blocked then old(BlockedIds()) + {s.id} else old(BlockedIds()) - {s.id};
      assert ExpiredIds() == old(ExpiredIds());
    }

    /** The object tracked by a slot is destroyed. */
    method LetExpire(s: Slot)
      requires Valid() && s in born
      modifies s`expired
      ensures Valid() && View() == old(View()).(expired := old(View()).expired + {s.id})
    {
      s.expired := true;
      assert ConnectedIds() == old(ConnectedIds());
      assert BlockedIds() == old(BlockedIds());
      assert ExpiredIds() == old(ExpiredIds()) + {s.id};
    }
  }
}
