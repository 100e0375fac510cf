/**
 The video layout item itself: its child items, and which of them is in focus.

 Children are those with an aspect, the others are not laid out. A calculation is given a bound from which on all its
 items fit into a bin of the container's shape; nothing else would end the search for one.
 */
module VideoItems {
  import opened Prelude
  import opened Lists
  import opened Layouts
  import opened Looks

  class Item {
    var aspect: real
    var visible: bool
    var box: Box

    constructor (aspect: real)
      ensures this.aspect == aspect
    {
      this.aspect, visible, box := aspect, true, Box(0.0, 0.0, 0.0, 0.0);
    }
  }

  function AspectsOf(items: seq<Item>): (r: seq<real>)
    reads items`aspect
    ensures |r| == |items| && forall i :: 0 <= i < |r| ==> r[i] == items[i].aspect
  {
    if items == [] then [] else [items[0].aspect] + AspectsOf(items[1..])
  }

  /** `try_pack` */
  method PackItems(packer: Packer, items: seq<Item>, containerAspect: real, width: int)
      returns (packed: Option<seq<Rect>>)
    requires containerAspect > 0.0
    ensures packed == TryPack(packer, AspectsOf(items), containerAspect, width)
  {
    var height := BinHeight(width, containerAspect);
    var results: seq<Rect> := [];
    ghost var aspects := AspectsOf(items);
    for i := 0 to |items|
      invariant PackOnto(packer, aspects[i..], width, height, results) == PackOnto(packer, aspects, width, height, [])
    {
      var childAspect := items[i].aspect;
      if childAspect < 0.5 { childAspect := 0.5; }
      var result := packer(width, height, results, SizeFor(childAspect));
      if result.width == 0 || result.height == 0 { return None; }
      assert aspects[i..][1..] == aspects[i + 1..];
      results := results + [result];
    }
    return Some(results);
  }

  method Largest(values: seq<int>) returns (m: int)
    ensures m == MaxOf(values)
  {
    m := 0;
    for i := 0 to |values|
      invariant m == MaxOf(values[..i])
    {
      assert values[..i + 1][..i] == values[..i];
      if m < values[i] { m := values[i]; }
    }
    assert values[..|values|] == values;
  }

  method SetBoxes(items: seq<Item>, boxes: seq<Box>)
    requires Distinct(items)
    modifies items`box
    ensures forall i :: 0 <= i < |items| ==> items[i].box == Chosen(Some(boxes), i, old(items[i].box))
  {
    for index := 0 to |items|
      invariant forall i :: 0 <= i < index ==> items[i].box == Chosen(Some(boxes), i, old(items[i].box))
      invariant forall i :: index <= i < |items| ==> items[i].box == old(items[i].box)
    {
      if index < |boxes| { items[index].box := boxes[index]; }
    }
  }

  /** The widening loop of `calculate`. */
  method FindBin(packer: Packer, items: seq<Item>, containerAspect: real, first: int, ghost bound: int)
      returns (bin: Option<int>, rects: seq<Rect>)
    requires containerAspect > 0.0 && first >= 0 && PacksFrom(packer, AspectsOf(items), containerAspect, bound)
    ensures bin == Search(packer, AspectsOf(items), containerAspect, first, bound)
    ensures bin.Some? ==> Some(rects) == TryPack(packer, AspectsOf(items), containerAspect, bin.value)
  {
    var width := first;
    while true
      invariant width >= 0
      invariant Search(packer, AspectsOf(items), containerAspect, width, bound)
        == Search(packer, AspectsOf(items), containerAspect, first, bound)
      decreases bound - width
    {
      var packed := PackItems(packer, items, containerAspect, width);
      if packed.Some? { return Some(width), packed.value; }
      var old_ := width;
      width := width + (width * 5) / 100;
      if old_ >= width { return None, []; }
    }
  }

  /** An item that was at `before` looks as it is to. */
  ghost predicate Shows(item: Item, look: Look, before: Box)
    reads item
  {
    item.visible == look.visible && item.box == if look.box.Some? then look.box.value else before
  }

  /** The box an item gets, or keeps. */
  function Chosen(boxes: Option<seq<Box>>, i: nat, before: Box): Box {
    if BoxAt(boxes, i).Some? then BoxAt(boxes, i).value else before
  }

  /** Boxes for some items, or none if they are to stay where they are. */
  method FindBoxes(packer: Packer, items: seq<Item>, width: real, height: real, offset: real, ghost bound: int)
      returns (boxes: Option<seq<Box>>)
    requires Ready(packer, AspectsOf(items), width, height, bound)
    ensures boxes == Arrange(packer, AspectsOf(items), width, height, offset, bound)
  {
    if items[0].aspect <= 0.0 { return None; }
    var bin, rects := FindBin(packer, items, width / height, SizeFor(items[0].aspect).width, bound);
    if bin.None? { return None; }
    var maxX := Largest(Rights(rects));
    var maxY := Largest(Bottoms(rects));
    return Some(Centre(rects, maxX, maxY, width, height, bin.value, offset));
  }

  /** `calculate` */
  method Calculate(packer: Packer, items: seq<Item>, width: real, height: real, offset: real, ghost arrange: Arranger,
                   ghost bound: int)
    requires Distinct(items) && Ready(packer, AspectsOf(items), width, height, bound) && Follows(arrange, packer, bound)
    modifies items`box
    ensures forall i :: 0 <= i < |items| ==>
      items[i].box == Chosen(arrange(AspectsOf(items), width, height, offset), i, old(items[i].box))
  {
    var boxes := FindBoxes(packer, items, width, height, offset, bound);
    if boxes.Some? { SetBoxes(items, boxes.value); }
  }

  lemma RestIs(children: seq<Item>, f: nat, rest: seq<Item>)
    requires Distinct(children) && f < |children| && rest == Others(children, f)
    ensures Distinct(rest) && children[f] !in rest
    ensures forall i :: 0 <= i < |children| && i != f ==> rest[if i < f then i else i - 1] == children[i]
  {
    assert forall k :: 0 <= k < |rest| ==> rest[k] == children[if k < f then k else k + 1];
  }

  class VideoLayout {
    const packer: Packer
    var width: real
    var height: real
    var children: seq<Item>
    var mode: Mode
    var focused: Item?

    /** Only a child is ever in focus, and only a grid can do without one. */
    ghost predicate Valid()
      reads this
    {
      && Distinct(children) && width >= 0.0 && height >= 0.0
      && (focused != null ==> focused in children)
      && (mode != Grid ==> focused != null)
    }

    predicate Blank()
      reads this
    {
      width == 0.0 || height == 0.0 || children == []
    }

    /** Everything this may have to arrange fits into some bin, and is arranged like that. */
    ghost predicate Fits(arrange: Arranger, bound: int)
      reads this, children`aspect
    {
      Blank() || (Follows(arrange, packer, bound) && Roomy(packer, AspectsOf(children), width, height, bound))
    }

    function FocusIndex(): nat
      reads this
    {
      Find(children, focused)
    }

    /** Child `i`, which was at `before`, looks as the layout wants it to. */
    ghost predicate Shown(arrange: Arranger, i: nat, before: Box)
      requires i < |children|
      reads this, children
    {
      Shows(children[i], LookOf(arrange, AspectsOf(children), mode, FocusIndex(), width, height, i), before)
    }

    constructor (packer: Packer, width: real, height: real)
      requires width >= 0.0 && height >= 0.0
      ensures Valid() && children == [] && mode == Grid
    {
      this.packer, this.width, this.height := packer, width, height;
      children, mode, focused := [], Grid, null;
    }

    method ShowAll()
      requires Distinct(children)
      modifies children`visible
      ensures forall i :: 0 <= i < |children| ==> children[i].visible
    {
      for k := 0 to |children|
        invariant forall i :: 0 <= i < k ==> children[i].visible
      {
        children[k].visible := true;
      }
    }

    method ShowOnly(item: Item)
      requires Distinct(children) && item in children
      modifies children`visible
      ensures forall i :: 0 <= i < |children| ==> (children[i].visible <==> children[i] == item)
    {
      item.visible := true;
      for k := 0 to |children|
        invariant item.visible
        invariant forall i :: 0 <= i < k && children[i] != item ==> !children[i].visible
      {
        if children[k] != item { children[k].visible := false; }
      }
    }

    /** The children but the one in focus. */
    method WithoutFocused() returns (rest: seq<Item>)
      requires Valid() && focused != null
      ensures rest == Others(children, FocusIndex())
    {
      rest := [];
      ghost var f := FocusIndex();
      for k := 0 to |children|
        invariant rest == if k <= f then children[..k] else children[..f] + children[f + 1..k]
      {
        assert children[k] == focused <==> k == f;
        if children[k] != focused { rest := rest + [children[k]]; }
      }
      assert children[f + 1..|children|] == children[f + 1..];
    }

    /** One item alone below the top of the layout. */
    method PlaceOne(item: Item, top: real, ghost arrange: Arranger, ghost bound: int)
      requires Ready(packer, [item.aspect], width, height - top, bound) && Follows(arrange, packer, bound)
      modifies item`box
      ensures item.box == Chosen(arrange([item.aspect], width, height - top, top), 0, old(item.box))
    {
      assert AspectsOf([item]) == [item.aspect];
      Calculate(packer, [item], width, height - top, top, arrange, bound);
    }

    lemma ReadyForFocus(arrange: Arranger, bound: int)
      requires Valid() && Fits(arrange, bound) && !Blank() && ModeFor(mode, |children|) != Grid
      ensures focused.aspect == AspectsOf(children)[FocusIndex()]
      ensures Ready(packer, [focused.aspect], width, height, bound)
      ensures Ready(packer, [focused.aspect], width, height - StripHeight(height), bound)
      ensures Ready(packer, AspectsOf(Others(children, FocusIndex())), width, StripHeight(height), bound)
      ensures AspectsOf(Others(children, FocusIndex())) == Others(AspectsOf(children), FocusIndex())
    {
      var f, aspects := FocusIndex(), AspectsOf(children);
      assert [aspects[f]] == [focused.aspect];
      assert AspectsOf(Others(children, f)) == Others(aspects, f);
    }

    method ArrangeGrid(ghost arrange: Arranger, ghost bound: int)
      requires Valid() && Fits(arrange, bound) && !Blank() && ModeFor(mode, |children|) == Grid
      modifies children`box, children`visible
      ensures forall i :: 0 <= i < |children| ==> Shown(arrange, i, old(children[i].box))
    {
      ShowAll();
      Calculate(packer, children, width, height, 0.0, arrange, bound);
    }

    /** What arranging a layout with a child in focus needs. */
    ghost predicate FocusReady(arrange: Arranger, bound: int)
      reads this, children`aspect, if focused == null then {} else {focused}
    {
      && Valid() && focused != null && Follows(arrange, packer, bound)
      && Ready(packer, [focused.aspect], width, height, bound)
      && Ready(packer, [focused.aspect], width, height - StripHeight(height), bound)
      && Ready(packer, AspectsOf(Others(children, FocusIndex())), width, StripHeight(height), bound)
    }

    /** Only the child in focus is shown. */
    method ArrangeFull(ghost arrange: Arranger, ghost bound: int)
      requires FocusReady(arrange, bound) && ModeFor(mode, |children|) == Full
      modifies children`box, children`visible
      ensures forall i :: 0 <= i < |children| ==> Shown(arrange, i, old(children[i].box))
    {
      ShowOnly(focused);
      PlaceOne(focused, 0.0, arrange, bound);
      assert [AspectsOf(children)[FocusIndex()]] == [focused.aspect] && children[FocusIndex()] == focused;
    }

    lemma EnlargedShown(arrange: Arranger, f: nat, i: nat, before: Box)
      requires focused != null && ModeFor(mode, |children|) == Enlarged && i < |children|
      requires f == FocusIndex() < |children| && children[i].visible
      requires i == f ==>
        children[i].box ==
          Chosen(arrange([focused.aspect], width, height - StripHeight(height), StripHeight(height)), 0, before)
      requires i != f ==>
        children[i].box == Chosen(arrange(AspectsOf(Others(children, f)), width, StripHeight(height), 0.0),
                                  if i < f then i else i - 1, before)
      ensures Shown(arrange, i, before)
    {
      assert [AspectsOf(children)[f]] == [focused.aspect];
      assert AspectsOf(Others(children, f)) == Others(AspectsOf(children), f);
    }

    method PlaceOthers(ghost f: nat, strip: real, ghost arrange: Arranger, ghost bound: int)
      requires Valid() && focused != null && f == FocusIndex() && Follows(arrange, packer, bound)
      requires Ready(packer, AspectsOf(Others(children, f)), width, strip, bound)
      modifies children`box
      ensures children[f].box == old(children[f].box)
      ensures forall i :: 0 <= i < |children| && i != f ==>
        (children[i].box == Chosen(arrange(AspectsOf(Others(children, f)), width, strip, 0.0),
                                   if i < f then i else i - 1, old(children[i].box)))
    {
      var rest := WithoutFocused();
      RestIs(children, f, rest);
      Calculate(packer, rest, width, strip, 0.0, arrange, bound);
    }

    /** The others go into the strip, the child in focus below it. */
    method PlaceEnlarged(ghost f: nat, strip: real, ghost arrange: Arranger, ghost bound: int)
      requires Valid() && focused != null && f == FocusIndex() && Follows(arrange, packer, bound)
      requires Ready(packer, [focused.aspect], width, height - strip, bound)
      requires Ready(packer, AspectsOf(Others(children, f)), width, strip, bound)
      modifies children`box
      ensures children[f].box ==
        Chosen(arrange([focused.aspect], width, height - strip, strip), 0, old(children[f].box))
      ensures forall i :: 0 <= i < |children| && i != f ==>
        (children[i].box == Chosen(arrange(AspectsOf(Others(children, f)), width, strip, 0.0),
                                   if i < f then i else i - 1, old(children[i].box)))
    {
      ghost var company := AspectsOf(Others(children, f));
      PlaceOthers(f, strip, arrange, bound);
      assert focused == children[f] && forall i :: 0 <= i < |children| && i != f ==> children[i] != focused;
      PlaceOne(focused, strip, arrange, bound);
      assert AspectsOf(Others(children, f)) == company;
    }

    /** The child in focus is shown below a strip with the others. */
    method ArrangeEnlarged(ghost arrange: Arranger, ghost bound: int)
      requires FocusReady(arrange, bound) && ModeFor(mode, |children|) == Enlarged
      modifies children`box, children`visible
      ensures forall i :: 0 <= i < |children| ==> Shown(arrange, i, old(children[i].box))
    {
      ShowAll();
      ArrangeShown(arrange, bound);
    }

    method ArrangeShown(ghost arrange: Arranger, ghost bound: int)
      requires FocusReady(arrange, bound) && ModeFor(mode, |children|) == Enlarged
      requires forall i :: 0 <= i < |children| ==> children[i].visible
      modifies children`box
      ensures forall i :: 0 <= i < |children| ==> Shown(arrange, i, old(children[i].box))
    {
      ghost var f := FocusIndex();
      PlaceEnlarged(f, StripHeight(height), arrange, bound);
      forall i | 0 <= i < |children| ensures Shown(arrange, i, old(children[i].box)) {
        EnlargedShown(arrange, f, i, old(children[i].box));
      }
    }

    /** Child `i` is shown or hidden as its layout says, and where it is put it lies in its region, with its own
        size. */
    ghost predicate Suited(i: nat, bound: int)
      requires i < |children| && (ModeFor(mode, |children|) != Grid ==> FocusIndex() < |children|)
      reads this, children
    {
      var aspects, n, f := AspectsOf(children), |children|, FocusIndex();
      var company, high := Company(aspects, mode, f, i), RegionHeight(mode, n, f, height, i);
      && children[i].visible == (n == 1 || mode != Full || children[i] == focused)
      && Ready(packer, company, width, high, bound)
      && (children[i].visible && company[0] >= 0.04 ==>
            Suits(children[i].box, packer, company, children[i].aspect, width, high,
                  RegionTop(mode, n, f, height, i), bound))
    }

    lemma FocusIsAChild()
      requires Valid()
      ensures ModeFor(mode, |children|) != Grid ==> FocusIndex() < |children| && children[FocusIndex()] == focused
    {
    }

    /** A child that looks as the layout wants it to is where it should be. */
    lemma ShownIsSuited(arrange: Arranger, i: nat, before: Box, bound: int)
      requires Valid() && Fits(arrange, bound) && !Blank() && Honest(packer)
      requires i < |children| && Shown(arrange, i, before)
      ensures ModeFor(mode, |children|) != Grid ==> FocusIndex() < |children|
      ensures Suited(i, bound)
    {
      var aspects, f := AspectsOf(children), FocusIndex();
      FocusIsAChild();
      LookIs(arrange, aspects, mode, f, width, height, i);
      LooksSuit(arrange, packer, aspects, mode, f, width, height, bound, i);
      ShownItemsArePlaced(arrange, packer, aspects, mode, f, width, height, bound, i);
      assert mode == Full && |children| > 1 ==> (children[i] == focused <==> i == f);
    }

    ghost predicate AllSuited(bound: int)
      reads this, children
    {
      && (ModeFor(mode, |children|) != Grid ==> FocusIndex() < |children|)
      && forall i :: 0 <= i < |children| ==> Suited(i, bound)
    }

    lemma AllAreSuited(arrange: Arranger, bound: int)
      requires Valid() && Fits(arrange, bound) && !Blank() && Honest(packer)
      requires forall i :: 0 <= i < |children| ==> Shown(arrange, i, children[i].box)
      ensures AllSuited(bound)
    {
      FocusIsAChild();
      forall i | 0 <= i < |children| ensures Suited(i, bound) {
        ShownIsSuited(arrange, i, children[i].box, bound);
      }
    }

    method ArrangeAll(ghost arrange: Arranger, ghost bound: int)
      requires Valid() && Fits(arrange, bound) && !Blank()
      modifies children`box, children`visible
      ensures forall i :: 0 <= i < |children| ==> Shown(arrange, i, old(children[i].box))
    {
      match ModeFor(mode, |children|)
      case Grid => ArrangeGrid(arrange, bound);
      case Full =>
        ReadyForFocus(arrange, bound);
        ArrangeFull(arrange, bound);
      case Enlarged =>
        ReadyForFocus(arrange, bound);
        ArrangeEnlarged(arrange, bound);
    }

    /** Every child looks as the layout wants it to, and so, with an honest packer, is where it should be. */
    method Recalculate(ghost arrange: Arranger, ghost bound: int)
      requires Valid() && Fits(arrange, bound)
      modifies children`box, children`visible
      ensures !Blank() ==> forall i :: 0 <= i < |children| ==> Shown(arrange, i, old(children[i].box))
      ensures !Blank() && Honest(packer) ==> AllSuited(bound)
    {
      if width == 0.0 || height == 0.0 || children == [] { return; }
      ArrangeAll(arrange, bound);
      if Honest(packer) { AllAreSuited(arrange, bound); }
    }

    method SetLayoutProperty(chosen: Mode, ghost arrange: Arranger, ghost bound: int)
      requires Valid() && Fits(arrange, bound) && (chosen != Grid ==> focused != null)
      modifies this`mode, children`box, children`visible
      ensures Valid() && mode == chosen
      ensures old(mode) != chosen && !Blank() ==>
        forall i :: 0 <= i < |children| ==> Shown(arrange, i, old(children[i].box))
    {
      if chosen == mode { return; }
      mode := chosen;
      Recalculate(arrange, bound);
    }

    /** Enlarged, then full, then back to the grid. */
    function NextMode(): Mode
      reads this
    {
      match mode
      case Grid => Enlarged
      case Enlarged => Full
      case Full => Grid
    }

    /** A click on a child: in a grid, or if it is in focus already, the next layout is chosen; else it is put in
        focus. */
    method Enlarge(item: Item, ghost arrange: Arranger, ghost bound: int)
      requires Valid() && Fits(arrange, bound) && item in children
      modifies this`mode, this`focused, children`box, children`visible
      ensures Valid() && focused == item
      ensures old(mode) == Grid ==> mode == Enlarged
      ensures old(mode) == Enlarged ==> mode == if old(focused) == item then Full else Enlarged
      ensures old(mode) == Full ==> mode == if old(focused) == item then Grid else Full
      ensures !Blank() ==> forall i :: 0 <= i < |children| ==> Shown(arrange, i, old(children[i].box))
    {
      if focused == item || mode == Grid {
        focused := item;
        SetLayoutProperty(NextMode(), arrange, bound);
      } else {
        focused := item;
        Recalculate(arrange, bound);
      }
    }

    /** Shrinking leaves an enlarged layout only; one that is full stays so. */
    method Shrink(ghost arrange: Arranger, ghost bound: int)
      requires Valid() && Fits(arrange, bound)
      modifies this`mode, children`box, children`visible
      ensures Valid() && mode == if old(mode) == Full then Full else Grid
      ensures old(mode) == Enlarged && !Blank() ==>
        forall i :: 0 <= i < |children| ==> Shown(arrange, i, old(children[i].box))
    {
      match mode
      case Grid =>
      case Enlarged => SetLayoutProperty(Grid, arrange, bound);
      case Full => SetLayoutProperty(Full, arrange, bound);
    }

    method AddChild(item: Item, ghost arrange: Arranger, ghost bound: int)
      requires Valid() && item !in children && Follows(arrange, packer, bound)
      requires width == 0.0 || height == 0.0 || Roomy(packer, AspectsOf(children + [item]), width, height, bound)
      modifies this`children, children`box, children`visible, item`box, item`visible
      ensures Valid() && children == old(children) + [item] && focused == old(focused) && mode == old(mode)
      ensures !Blank() ==>
        forall i :: 0 <= i < |children| ==> Shown(arrange, i, old((children + [item])[i].box))
    {
      children := children + [item];
      Recalculate(arrange, bound);
    }

    method DropChild(item: Item)
      requires Valid() && item in children
      modifies this`children, this`mode, this`focused
      ensures Valid() && children == Without(old(children), item) && (forall c <- children :: c in old(children))
      ensures focused == (if old(focused) == item then null else old(focused))
      ensures mode == (if old(focused) == item then Grid else old(mode))
    {
      WithoutDistinct(children, item);
      children := Without(children, item);
      if focused == item {
        mode := Grid;
        focused := null;
      }
    }

    /** The grid is back when the child in focus goes. */
    method RemoveChild(item: Item, ghost arrange: Arranger, ghost bound: int)
      requires Valid() && item in children && Follows(arrange, packer, bound)
      requires width == 0.0 || height == 0.0 || Without(children, item) == [] ||
        Roomy(packer, AspectsOf(Without(children, item)), width, height, bound)
      modifies this`children, this`mode, this`focused, children`box, children`visible
      ensures Valid() && children == Without(old(children), item)
      ensures focused == (if old(focused) == item then null else old(focused))
      ensures mode == (if old(focused) == item then Grid else old(mode))
      ensures !Blank() ==>
        forall i :: 0 <= i < |children| ==> Shown(arrange, i, old(Without(children, item)[i].box))
    {
      ghost var rest := Without(children, item);
      ghost var aspects := AspectsOf(rest);
      DropChild(item);
      assert children == rest && AspectsOf(rest) == aspects;
      assert Fits(arrange, bound);
      Recalculate(arrange, bound);
    }
  }
}
