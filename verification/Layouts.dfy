/**
 The arithmetic of the video layout: items are packed as rectangles of equal area into a bin of the container's shape,
 which is widened until all fit, and the bin is then scaled to the container. The bin packer is not part of this model:
 it is any function that meets `Honest`.
 */
module Layouts {
  import opened Prelude

  datatype Size = Size(width: int, height: int)
  datatype Rect = Rect(x: int, y: int, width: int, height: int)
  datatype Box = Box(x: real, y: real, width: real, height: real)

  /** Where a rectangle goes in a bin of some width and height that holds others already; an empty one if nowhere. */
  type Packer = (int, int, seq<Rect>, Size) -> Rect

  predicate Empty(r: Rect) {
    r.width == 0 || r.height == 0
  }

  predicate Within(r: Rect, width: int, height: int) {
    0 <= r.x && 0 < r.width && r.x + r.width <= width && 0 <= r.y && 0 < r.height && r.y + r.height <= height
  }

  predicate Apart(a: Rect, b: Rect) {
    a.x + a.width <= b.x || b.x + b.width <= a.x || a.y + a.height <= b.y || b.y + b.height <= a.y
  }

  ghost predicate AllWithin(rects: seq<Rect>, width: int, height: int) {
    forall i :: 0 <= i < |rects| ==> Within(rects[i], width, height)
  }

  ghost predicate RectsApart(rects: seq<Rect>) {
    forall i, j :: 0 <= i < j < |rects| ==> Apart(rects[i], rects[j])
  }

  ghost predicate Packed(rects: seq<Rect>, width: int, height: int) {
    AllWithin(rects, width, height) && RectsApart(rects)
  }

  /** A rectangle of some size, possibly turned. */
  predicate Sized(r: Rect, size: Size) {
    Size(r.width, r.height) == size || Size(r.height, r.width) == size
  }

  /** A rectangle that is placed has the size asked for, possibly turned, lies in the bin and overlaps no other; the
      first is put at the origin. */
  ghost predicate Places(r: Rect, width: int, height: int, placed: seq<Rect>, size: Size) {
    Empty(r) ||
      (&& Sized(r, size)
       && Within(r, width, height)
       && (forall i :: 0 <= i < |placed| ==> Apart(placed[i], r))
       && (placed == [] ==> r.x == 0 && r.y == 0))
  }

  ghost predicate Honest(packer: Packer) {
    forall width, height, placed, size :: Packed(placed, width, height) ==>
      Places(packer(width, height, placed, size), width, height, placed, size)
  }

  // ---------------------------------------------------------------- sizes

  /** The whole part of a square root. */
  function Root(n: nat): nat {
    if n == 0 then 0
    else
      var r := Root(n - 1);
      if (r + 1) * (r + 1) <= n then r + 1 else r
  }

  lemma {:induction false} RootIs(n: nat)
    ensures Root(n) * Root(n) <= n < (Root(n) + 1) * (Root(n) + 1)
  {
    if n > 0 { RootIs(n - 1); }
  }

  /** `calculate_width_and_hight_by_aspect` */
  function SizeFor(aspect: real): Size
    requires aspect > 0.0
  {
    var x := Root((10000.0 * aspect).Floor);
    Size(x, (x as real / aspect).Floor)
  }

  /** An item's rectangle has an area of 10000 and the item's aspect, but for truncation. */
  lemma SizeHasTheAspect(aspect: real)
    requires aspect > 0.0
    ensures var size := SizeFor(aspect);
      && size.width >= 0 && (size.width * size.width) as real <= 10000.0 * aspect
      && 10000.0 * aspect < ((size.width + 1) * (size.width + 1)) as real
      && size.height as real <= size.width as real / aspect < size.height as real + 1.0
  {
    RootIs((10000.0 * aspect).Floor);
  }

  function Clamped(aspect: real): real {
    if aspect < 0.5 then 0.5 else aspect
  }

  function BinHeight(width: int, containerAspect: real): int
    requires containerAspect > 0.0
  {
    (width as real / containerAspect).Floor
  }

  /** A number of units. */
  function At(n: int, unit: real): real {
    n as real * unit
  }

  /** The size of one unit of a bin that is scaled to a width; nothing is ever packed into a bin without a width. */
  function Unit(width: real, bin: int): real {
    if bin == 0 then 0.0 else width / bin as real
  }

  /** The height of the scaled bin. */
  function ScaledHeight(width: real, height: real, bin: int): real
    requires width > 0.0 && height > 0.0 && bin > 0
  {
    At(BinHeight(bin, width / height), Unit(width, bin))
  }

  // ---------------------------------------------------------------- packing

  function PackOnto(packer: Packer, aspects: seq<real>, width: int, height: int, placed: seq<Rect>): Option<seq<Rect>>
    decreases aspects
  {
    if aspects == [] then Some(placed)
    else
      var r := packer(width, height, placed, SizeFor(Clamped(aspects[0])));
      if Empty(r) then None else PackOnto(packer, aspects[1..], width, height, placed + [r])
  }

  /** `try_pack` */
  function TryPack(packer: Packer, aspects: seq<real>, containerAspect: real, width: int): Option<seq<Rect>>
    requires containerAspect > 0.0
  {
    PackOnto(packer, aspects, width, BinHeight(width, containerAspect), [])
  }

  lemma {:induction false} PackOntoIsPacked(packer: Packer, aspects: seq<real>, width: int, height: int,
                                            placed: seq<Rect>)
    requires Honest(packer) && Packed(placed, width, height)
    ensures var p := PackOnto(packer, aspects, width, height, placed);
      p.Some? ==> Packed(p.value, width, height) && |p.value| == |placed| + |aspects| && placed <= p.value
    decreases aspects
  {
    if aspects != [] {
      var size := SizeFor(Clamped(aspects[0]));
      var r := packer(width, height, placed, size);
      assert Places(r, width, height, placed, size);
      if !Empty(r) { PackOntoIsPacked(packer, aspects[1..], width, height, placed + [r]); }
    }
  }

  /** A packing of some items: all of them, in the bin, apart, and the first at the origin. */
  lemma TryPackIsPacked(packer: Packer, aspects: seq<real>, containerAspect: real, width: int)
    requires Honest(packer) && containerAspect > 0.0 && aspects != []
    ensures var p := TryPack(packer, aspects, containerAspect, width);
      p.Some? ==>
        && Packed(p.value, width, BinHeight(width, containerAspect)) && |p.value| == |aspects|
        && p.value[0].x == 0 && p.value[0].y == 0 && width > 0
  {
    var height := BinHeight(width, containerAspect);
    var size := SizeFor(Clamped(aspects[0]));
    var r := packer(width, height, [], size);
    assert Packed([], width, height) && Places(r, width, height, [], size);
    if !Empty(r) {
      assert [] + [r] == [r];
      PackOntoIsPacked(packer, aspects[1..], width, height, [r]);
    }
  }

  /** The packer is asked for one item after the other, by its clamped aspect, and finds a place for each. */
  ghost predicate Answers(packer: Packer, aspects: seq<real>, width: int, height: int, placed: seq<Rect>,
                          rects: seq<Rect>)
  {
    && |rects| == |placed| + |aspects| && placed <= rects
    && forall i :: |placed| <= i < |rects| ==>
         !Empty(rects[i]) && rects[i] == packer(width, height, rects[..i], SizeFor(Clamped(aspects[i - |placed|])))
  }

  lemma {:induction false} PackOntoAnswers(packer: Packer, aspects: seq<real>, width: int, height: int,
                                           placed: seq<Rect>, rects: seq<Rect>)
    ensures PackOnto(packer, aspects, width, height, placed) == Some(rects) <==>
      Answers(packer, aspects, width, height, placed, rects)
    decreases aspects
  {
    if aspects == [] {
      if placed <= rects && |rects| == |placed| { assert rects == placed; }
    } else {
      var r := packer(width, height, placed, SizeFor(Clamped(aspects[0])));
      PackOntoAnswers(packer, aspects[1..], width, height, placed + [r], rects);
      AnswersFirst(packer, aspects, width, height, placed, rects, r);
    }
  }

  lemma AnswersFirst(packer: Packer, aspects: seq<real>, width: int, height: int, placed: seq<Rect>,
                     rects: seq<Rect>, r: Rect)
    requires aspects != [] && r == packer(width, height, placed, SizeFor(Clamped(aspects[0])))
    ensures Answers(packer, aspects, width, height, placed, rects) <==>
      !Empty(r) && Answers(packer, aspects[1..], width, height, placed + [r], rects)
  {
    var n := |placed|;
    if Answers(packer, aspects, width, height, placed, rects) {
      assert rects[..n] == placed;
      assert rects[n] == r;
    }
    if !Empty(r) && Answers(packer, aspects[1..], width, height, placed + [r], rects) {
      assert rects[..n] == placed && rects[n] == r;
    }
  }

  /** A packing is what the packer answers in a bin of the container's shape; there is none if any answer is empty. */
  lemma PacksWhatThePackerAnswers(packer: Packer, aspects: seq<real>, containerAspect: real, width: int,
                                  rects: seq<Rect>)
    requires containerAspect > 0.0
    ensures TryPack(packer, aspects, containerAspect, width) == Some(rects) <==>
      Answers(packer, aspects, width, (width as real / containerAspect).Floor, [], rects)
  {
    PackOntoAnswers(packer, aspects, width, BinHeight(width, containerAspect), [], rects);
  }

  /** Each rectangle has the size of its own item. */
  ghost predicate AllSized(rects: seq<Rect>, aspects: seq<real>) {
    |rects| == |aspects| && forall i :: 0 <= i < |rects| ==> Sized(rects[i], SizeFor(Clamped(aspects[i])))
  }

  lemma TryPackIsSized(packer: Packer, aspects: seq<real>, containerAspect: real, width: int)
    requires Honest(packer) && containerAspect > 0.0
    ensures var p := TryPack(packer, aspects, containerAspect, width); p.Some? ==> AllSized(p.value, aspects)
  {
    var p, height := TryPack(packer, aspects, containerAspect, width), BinHeight(width, containerAspect);
    if p.Some? {
      PackOntoIsPacked(packer, aspects, width, height, []);
      PackOntoAnswers(packer, aspects, width, height, [], p.value);
      forall i | 0 <= i < |aspects| ensures Sized(p.value[i], SizeFor(Clamped(aspects[i]))) {
        assert Packed(p.value[..i], width, height);
        assert Places(p.value[i], width, height, p.value[..i], SizeFor(Clamped(aspects[i])));
      }
    }
  }

  // ---------------------------------------------------------------- widening

  function Widened(width: int): int {
    width + width * 5 / 100
  }

  /** From some width on everything fits. */
  ghost predicate PacksFrom(packer: Packer, aspects: seq<real>, containerAspect: real, bound: int)
    requires containerAspect > 0.0
  {
    forall width :: width >= bound ==> TryPack(packer, aspects, containerAspect, width).Some?
  }

  /** The loop of `calculate`: the first width tried that fits, or nothing once a width does not grow any more. */
  function Search(packer: Packer, aspects: seq<real>, containerAspect: real, width: int, ghost bound: int): Option<int>
    requires containerAspect > 0.0 && width >= 0 && PacksFrom(packer, aspects, containerAspect, bound)
    decreases bound - width
  {
    if TryPack(packer, aspects, containerAspect, width).Some? then Some(width)
    else if width >= Widened(width) then None
    else Search(packer, aspects, containerAspect, Widened(width), bound)
  }

  lemma WidthGrows(width: int)
    requires width >= 0
    ensures Widened(width) > width <==> width >= 20
  {
  }

  /** From width 20 up the search ends at a width that fits; below, it gives up at the first failure. */
  lemma {:induction false} SearchEnds(packer: Packer, aspects: seq<real>, containerAspect: real, width: int, bound: int)
    requires containerAspect > 0.0 && width >= 0 && PacksFrom(packer, aspects, containerAspect, bound)
    ensures var found := Search(packer, aspects, containerAspect, width, bound);
      && (found.Some? <==> width >= 20 || TryPack(packer, aspects, containerAspect, width).Some?)
      && (found.Some? ==> found.value >= width && TryPack(packer, aspects, containerAspect, found.value).Some?)
    decreases bound - width
  {
    WidthGrows(width);
    if TryPack(packer, aspects, containerAspect, width).None? && width >= 20 {
      SearchEnds(packer, aspects, containerAspect, Widened(width), bound);
    }
  }

  /** The width tried after some steps, each a twentieth wider, truncated. */
  function Tried(first: nat, steps: nat): (width: nat) {
    if steps == 0 then first
    else
      var before := Tried(first, steps - 1);
      before + before / 20
  }

  lemma {:induction false} TriedShifts(first: nat, steps: nat)
    ensures Tried(first + first / 20, steps) == Tried(first, steps + 1)
  {
    if steps > 0 { TriedShifts(first, steps - 1); }
  }

  /** The search settles on the first of these widths into which everything fits. */
  lemma {:induction false} FoundIsTheFirst(packer: Packer, aspects: seq<real>, containerAspect: real, first: nat,
                                           bound: int) returns (steps: nat)
    requires containerAspect > 0.0 && PacksFrom(packer, aspects, containerAspect, bound)
    requires Search(packer, aspects, containerAspect, first, bound).Some?
    ensures Search(packer, aspects, containerAspect, first, bound) == Some(Tried(first, steps))
    ensures TryPack(packer, aspects, containerAspect, Tried(first, steps)).Some?
    ensures forall k :: 0 <= k < steps ==> TryPack(packer, aspects, containerAspect, Tried(first, k)).None?
    decreases bound - first
  {
    if TryPack(packer, aspects, containerAspect, first).Some? { return 0; }
    var next := first + first / 20;
    assert Widened(first) == next;
    var rest := FoundIsTheFirst(packer, aspects, containerAspect, next, bound);
    steps := rest + 1;
    TriedShifts(first, rest);
    forall k | 0 <= k < steps ensures TryPack(packer, aspects, containerAspect, Tried(first, k)).None? {
      if k > 0 { TriedShifts(first, k - 1); }
    }
  }

  // ---------------------------------------------------------------- scaling

  function MaxOf(values: seq<int>): (m: int)
    ensures m >= 0 && (forall i :: 0 <= i < |values| ==> values[i] <= m) && (m > 0 ==> m in values)
  {
    if values == [] then 0
    else
      var m, last := MaxOf(values[..|values| - 1]), values[|values| - 1];
      if m < last then last else m
  }

  function Rights(rects: seq<Rect>): (r: seq<int>)
    ensures |r| == |rects| && forall i :: 0 <= i < |r| ==> r[i] == rects[i].x + rects[i].width
  {
    seq(|rects|, i requires 0 <= i < |rects| => rects[i].x + rects[i].width)
  }

  function Bottoms(rects: seq<Rect>): (r: seq<int>)
    ensures |r| == |rects| && forall i :: 0 <= i < |r| ==> r[i] == rects[i].y + rects[i].height
  {
    seq(|rects|, i requires 0 <= i < |rects| => rects[i].y + rects[i].height)
  }

  function Margin(bin: int, used: int, factor: real): real {
    At(bin - used, factor) / 2.0
  }

  function Scaled(r: Rect, factor: real, left: real, top: real): Box {
    Box(At(r.x, factor) + left, At(r.y, factor) + top, At(r.width, factor), At(r.height, factor))
  }

  /** The used part of a bin, scaled and centred in the region. */
  function Centre(rects: seq<Rect>, right: int, bottom: int, width: real, height: real, bin: int, offset: real):
      seq<Box>
    requires width > 0.0 && height > 0.0
  {
    var unit := Unit(width, bin);
    Boxes(rects, unit, Margin(bin, right, unit), Margin(BinHeight(bin, width / height), bottom, unit) + offset)
  }

  function Boxes(rects: seq<Rect>, factor: real, left: real, top: real): (boxes: seq<Box>)
    ensures |boxes| == |rects| && forall i :: 0 <= i < |boxes| ==> boxes[i] == Scaled(rects[i], factor, left, top)
  {
    seq(|rects|, i requires 0 <= i < |rects| => Scaled(rects[i], factor, left, top))
  }

  /** The bin `calculate` settles on, by its width, or none. */
  function FoundBin(packer: Packer, aspects: seq<real>, width: real, height: real, ghost bound: int): Option<int>
    requires Ready(packer, aspects, width, height, bound)
  {
    if aspects[0] <= 0.0 then None else Search(packer, aspects, width / height, SizeFor(aspects[0]).width, bound)
  }

  /** `calculate`: where the items go, or nothing if they stay where they are. */
  function Arrange(packer: Packer, aspects: seq<real>, width: real, height: real, offset: real, ghost bound: int):
      Option<seq<Box>>
    requires Ready(packer, aspects, width, height, bound)
  {
    var found := FoundBin(packer, aspects, width, height, bound);
    if found.None? then None
    else
      SearchEnds(packer, aspects, width / height, SizeFor(aspects[0]).width, bound);
      var rects := TryPack(packer, aspects, width / height, found.value).value;
      Some(Centre(rects, MaxOf(Rights(rects)), MaxOf(Bottoms(rects)), width, height, found.value, offset))
  }

  /** A region and items that fit into some bin of its shape. */
  ghost predicate Ready(packer: Packer, aspects: seq<real>, width: real, height: real, bound: int) {
    aspects != [] && width > 0.0 && height > 0.0 && PacksFrom(packer, aspects, width / height, bound)
  }

  predicate Inside(b: Box, x: real, y: real, width: real, height: real) {
    && x <= b.x && b.x + b.width <= x + width && b.width > 0.0
    && y <= b.y && b.y + b.height <= y + height && b.height > 0.0
  }

  predicate BoxesApart(a: Box, b: Box) {
    a.x + a.width <= b.x || b.x + b.width <= a.x || a.y + a.height <= b.y || b.y + b.height <= a.y
  }

  ghost predicate AllInside(boxes: seq<Box>, x: real, y: real, width: real, height: real) {
    forall i :: 0 <= i < |boxes| ==> Inside(boxes[i], x, y, width, height)
  }

  ghost predicate AllApart(boxes: seq<Box>) {
    forall i, j :: 0 <= i < j < |boxes| ==> BoxesApart(boxes[i], boxes[j])
  }

  ghost predicate AllHaveArea(boxes: seq<Box>) {
    forall i :: 0 <= i < |boxes| ==> boxes[i].width > 0.0 && boxes[i].height > 0.0
  }

  lemma Cancel(c: real, a: real, b: real)
    requires c > 0.0 && c * a == c * b
    ensures a == b
  {
  }

  lemma MulOrder(a: real, b: real, factor: real)
    requires a <= b && factor > 0.0
    ensures a * factor <= b * factor
  {
  }

  lemma MulOrderStrict(a: real, b: real, factor: real)
    requires a < b && factor > 0.0
    ensures a * factor < b * factor
  {
  }

  /** The scaled bin is as wide as the container, and too low by less than one unit of the bin. */
  lemma BinFits(width: real, height: real, bin: int)
    requires width > 0.0 && height > 0.0 && bin > 0
    ensures Unit(width, bin) > 0.0 && At(bin, Unit(width, bin)) == width
    ensures 0.0 <= height - ScaledHeight(width, height, bin) < Unit(width, bin)
  {
    ExactHeight(width, height, bin as real);
    FloorScaled(bin as real / (width / height), BinHeight(bin, width / height), Unit(width, bin), height);
  }

  lemma FloorScaled(exact: real, low: int, factor: real, height: real)
    requires factor > 0.0 && low as real <= exact < low as real + 1.0 && exact * factor == height
    ensures 0.0 <= height - low as real * factor < factor
  {
    assert low as real + (exact - low as real) == exact;
    RestScaled(low as real, exact - low as real, factor, height);
  }

  lemma RestScaled(low: real, rest: real, factor: real, height: real)
    requires 0.0 <= rest < 1.0 && factor > 0.0 && (low + rest) * factor == height
    ensures 0.0 <= height - low * factor < factor
  {
    ShareOfUnit(rest, factor);
    Distributes(low, rest, factor);
  }

  lemma ShareOfUnit(rest: real, factor: real)
    requires 0.0 <= rest < 1.0 && factor > 0.0
    ensures 0.0 <= rest * factor < factor
  {
    MulOrderStrict(0.0, 1.0 - rest, factor);
  }

  lemma Distributes(a: real, b: real, factor: real)
    ensures (a + b) * factor == a * factor + b * factor
  {
  }

  lemma ExactHeight(width: real, height: real, bin: real)
    requires width > 0.0 && height > 0.0 && bin > 0.0
    ensures width / bin > 0.0 && bin * (width / bin) == width && (bin / (width / height)) * (width / bin) == height
  {
    var aspect, factor := width / height, width / bin;
    var exact := bin / aspect;
    assert aspect * height == width && exact * aspect == bin && bin * factor == width;
    assert aspect * (exact * factor) == (exact * aspect) * factor;
    Cancel(aspect, exact * factor, height);
  }

  lemma MarginFits(bin: int, used: int, factor: real)
    requires used <= bin && factor > 0.0
    ensures var m := Margin(bin, used, factor); m >= 0.0 && m + At(used, factor) + m == At(bin, factor)
  {
    MulOrder(0.0, (bin - used) as real, factor);
    assert At(bin - used, factor) == At(bin, factor) - At(used, factor);
  }

  /** One box between the margins `m` of a scaled bin; at a margin if it starts at 0 or reaches as far as any. */
  lemma BoxBetween(from: int, size: int, used: int, factor: real, m: real, full: real)
    requires 0 <= from && 0 < size && from + size <= used && factor > 0.0 && m + At(used, factor) + m == full
    ensures var x, w := At(from, factor) + m, At(size, factor);
      && w > 0.0 && m <= x && x + w <= full - m
      && (from == 0 ==> x == m)
      && (from + size == used ==> x + w == full - m)
  {
    MulOrder(0.0, from as real, factor);
    MulOrderStrict(0.0, size as real, factor);
    MulOrder((from + size) as real, used as real, factor);
    assert At(from + size, factor) == At(from, factor) + At(size, factor);
  }

  lemma ScaledApart(a: Rect, b: Rect, factor: real, left: real, top: real)
    requires factor > 0.0 && Apart(a, b)
    ensures BoxesApart(Scaled(a, factor, left, top), Scaled(b, factor, left, top))
  {
    if a.x + a.width <= b.x {
      ScaledBefore(a.x, a.width, b.x, factor);
    } else if b.x + b.width <= a.x {
      ScaledBefore(b.x, b.width, a.x, factor);
    } else if a.y + a.height <= b.y {
      ScaledBefore(a.y, a.height, b.y, factor);
    } else {
      ScaledBefore(b.y, b.height, a.y, factor);
    }
  }

  lemma ScaledBefore(from: int, size: int, next: int, factor: real)
    requires factor > 0.0 && from + size <= next
    ensures At(from, factor) + At(size, factor) <= At(next, factor)
  {
    MulOrder((from + size) as real, next as real, factor);
    assert At(from + size, factor) == At(from, factor) + At(size, factor);
  }

  // ---------------------------------------------------------------- what an arrangement is

  /** The margins around some boxes: what is left free at the left and right of a region, and at its top and bottom. */
  ghost predicate SideMargins(boxes: seq<Box>, width: real, left: real, right: real) {
    && (forall i :: 0 <= i < |boxes| ==> left <= boxes[i].x && boxes[i].x + boxes[i].width <= width - right)
    && (exists i :: 0 <= i < |boxes| && boxes[i].x == left)
    && (exists i :: 0 <= i < |boxes| && boxes[i].x + boxes[i].width == width - right)
  }

  ghost predicate EndMargins(boxes: seq<Box>, y: real, height: real, top: real, bottom: real) {
    && (forall i :: 0 <= i < |boxes| ==> y + top <= boxes[i].y && boxes[i].y + boxes[i].height <= y + height - bottom)
    && (exists i :: 0 <= i < |boxes| && boxes[i].y == y + top)
    && (exists i :: 0 <= i < |boxes| && boxes[i].y + boxes[i].height == y + height - bottom)
  }

  /** Centred, by a bin of some width that is as wide as the region and too low by `low`, less than one of its units. */
  ghost predicate Centred(boxes: seq<Box>, y: real, width: real, height: real, bin: int, side: real, top: real,
                          low: real)
  {
    && width > 0.0 && height > 0.0 && bin > 0 && side >= 0.0 && top >= 0.0
    && SideMargins(boxes, width, side, side) && EndMargins(boxes, y, height, top, top + low)
    && low == height - ScaledHeight(width, height, bin) && 0.0 <= low < Unit(width, bin)
  }

  ghost predicate WellCentred(boxes: seq<Box>, y: real, width: real, height: real, bin: int) {
    exists side, top, low :: Centred(boxes, y, width, height, bin, side, top, low)
  }

  lemma BoxesApartAll(rects: seq<Rect>, factor: real, left: real, top: real)
    requires factor > 0.0 && RectsApart(rects)
    ensures AllApart(Boxes(rects, factor, left, top))
  {
    forall i, j | 0 <= i < j < |rects|
      ensures BoxesApart(Boxes(rects, factor, left, top)[i], Boxes(rects, factor, left, top)[j])
    {
      ScaledApart(rects[i], rects[j], factor, left, top);
    }
  }

  /** The rectangles lie between 0 and `used` on an axis, the first at 0 and one reaching `used`. */
  ghost predicate SpansX(rects: seq<Rect>, used: int) {
    && rects != [] && rects[0].x == 0
    && (forall i :: 0 <= i < |rects| ==> 0 <= rects[i].x && 0 < rects[i].width && rects[i].x + rects[i].width <= used)
    && exists i :: 0 <= i < |rects| && rects[i].x + rects[i].width == used
  }

  ghost predicate SpansY(rects: seq<Rect>, used: int) {
    && rects != [] && rects[0].y == 0
    && (forall i :: 0 <= i < |rects| ==> 0 <= rects[i].y && 0 < rects[i].height && rects[i].y + rects[i].height <= used)
    && exists i :: 0 <= i < |rects| && rects[i].y + rects[i].height == used
  }

  lemma UsedSpans(rects: seq<Rect>, width: int, height: int)
    requires AllWithin(rects, width, height) && rects != [] && rects[0].x == 0 && rects[0].y == 0
    ensures SpansX(rects, MaxOf(Rights(rects))) && MaxOf(Rights(rects)) <= width
    ensures SpansY(rects, MaxOf(Bottoms(rects))) && MaxOf(Bottoms(rects)) <= height
  {
    assert forall i :: 0 <= i < |rects| ==> Within(rects[i], width, height);
    assert Rights(rects)[0] > 0 && Bottoms(rects)[0] > 0;
    var i :| 0 <= i < |rects| && Rights(rects)[i] == MaxOf(Rights(rects));
    var j :| 0 <= j < |rects| && Bottoms(rects)[j] == MaxOf(Bottoms(rects));
    forall k | 0 <= k < |rects|
      ensures rects[k].x + rects[k].width <= MaxOf(Rights(rects))
      ensures rects[k].y + rects[k].height <= MaxOf(Bottoms(rects))
    {
      assert Rights(rects)[k] <= MaxOf(Rights(rects)) && Bottoms(rects)[k] <= MaxOf(Bottoms(rects));
    }
  }

  lemma BoxesSideMargins(rects: seq<Rect>, used: int, factor: real, side: real, top: real, full: real)
    requires SpansX(rects, used) && factor > 0.0 && side + At(used, factor) + side == full
    ensures SideMargins(Boxes(rects, factor, side, top), full, side, side)
  {
    var boxes := Boxes(rects, factor, side, top);
    var last :| 0 <= last < |rects| && rects[last].x + rects[last].width == used;
    SideBox(rects[0], used, factor, side, top, full);
    SideBox(rects[last], used, factor, side, top, full);
    assert boxes[0].x == side && boxes[last].x + boxes[last].width == full - side;
    forall i | 0 <= i < |boxes| ensures side <= boxes[i].x && boxes[i].x + boxes[i].width <= full - side {
      SideBox(rects[i], used, factor, side, top, full);
    }
  }

  lemma SideBox(r: Rect, used: int, factor: real, side: real, top: real, full: real)
    requires factor > 0.0 && 0 <= r.x && 0 < r.width && r.x + r.width <= used && side + At(used, factor) + side == full
    ensures var b := Scaled(r, factor, side, top);
      && side <= b.x && b.x + b.width <= full - side
      && (r.x == 0 ==> b.x == side) && (r.x + r.width == used ==> b.x + b.width == full - side)
  {
    BoxBetween(r.x, r.width, used, factor, side, full);
  }

  lemma BoxesEndMargins(rects: seq<Rect>, used: int, factor: real, left: real, top: real, offset: real, full: real,
                        low: real)
    requires SpansY(rects, used) && factor > 0.0 && top + At(used, factor) + top == full - low
    ensures EndMargins(Boxes(rects, factor, left, top + offset), offset, full, top, top + low)
  {
    var boxes := Boxes(rects, factor, left, top + offset);
    var last :| 0 <= last < |rects| && rects[last].y + rects[last].height == used;
    EndBox(rects[0], used, factor, left, top, offset, full - low);
    EndBox(rects[last], used, factor, left, top, offset, full - low);
    assert boxes[0].y == offset + top && boxes[last].y + boxes[last].height == offset + full - (top + low);
    forall i | 0 <= i < |boxes|
      ensures offset + top <= boxes[i].y && boxes[i].y + boxes[i].height <= offset + full - (top + low)
    {
      EndBox(rects[i], used, factor, left, top, offset, full - low);
    }
  }

  lemma EndBox(r: Rect, used: int, factor: real, left: real, top: real, offset: real, full: real)
    requires factor > 0.0 && 0 <= r.y && 0 < r.height && r.y + r.height <= used && top + At(used, factor) + top == full
    ensures var b := Scaled(r, factor, left, top + offset);
      && offset + top <= b.y && b.y + b.height <= offset + full - top
      && (r.y == 0 ==> b.y == offset + top) && (r.y + r.height == used ==> b.y + b.height == offset + full - top)
  {
    BoxBetween(r.y, r.height, used, factor, top, full);
  }

  lemma BoxesHaveArea(rects: seq<Rect>, right: int, bottom: int, factor: real, left: real, top: real)
    requires SpansX(rects, right) && SpansY(rects, bottom) && factor > 0.0
    ensures AllHaveArea(Boxes(rects, factor, left, top))
  {
    var boxes := Boxes(rects, factor, left, top);
    forall i | 0 <= i < |rects| ensures boxes[i].width > 0.0 && boxes[i].height > 0.0 {
      MulOrderStrict(0.0, rects[i].width as real, factor);
      MulOrderStrict(0.0, rects[i].height as real, factor);
    }
  }

  lemma MarginsInside(boxes: seq<Box>, y: real, width: real, height: real, side: real, top: real, low: real)
    requires SideMargins(boxes, width, side, side) && EndMargins(boxes, y, height, top, top + low) && AllHaveArea(boxes)
    requires side >= 0.0 && top >= 0.0 && low >= 0.0
    ensures AllInside(boxes, 0.0, y, width, height)
  {
  }

  /** A packing's boxes between margins that fill up the region. */
  lemma BoxesAreCentred(rects: seq<Rect>, right: int, bottom: int, width: real, height: real, bin: int, side: real,
                        top: real, offset: real)
    requires width > 0.0 && height > 0.0 && bin > 0 && SpansX(rects, right) && SpansY(rects, bottom)
    requires side >= 0.0 && side + At(right, Unit(width, bin)) + side == width
    requires top >= 0.0 && top + At(bottom, Unit(width, bin)) + top == ScaledHeight(width, height, bin)
    ensures Centred(Boxes(rects, Unit(width, bin), side, top + offset), offset, width, height, bin, side, top,
                    height - ScaledHeight(width, height, bin))
    ensures AllInside(Boxes(rects, Unit(width, bin), side, top + offset), 0.0, offset, width, height)
  {
    var low := height - ScaledHeight(width, height, bin);
    BinFits(width, height, bin);
    BoxesSideMargins(rects, right, Unit(width, bin), side, top + offset, width);
    BoxesEndMargins(rects, bottom, Unit(width, bin), side, top, offset, height, low);
    BoxesHaveArea(rects, right, bottom, Unit(width, bin), side, top + offset);
    MarginsInside(Boxes(rects, Unit(width, bin), side, top + offset), offset, width, height, side, top, low);
  }

  lemma SideMargin(bin: int, right: int, width: real) returns (side: real)
    requires width > 0.0 && 0 < bin && right <= bin
    ensures side == Margin(bin, right, Unit(width, bin)) >= 0.0 && side + At(right, Unit(width, bin)) + side == width
  {
    side := Margin(bin, right, Unit(width, bin));
    BinFits(width, width, bin);
    MarginFits(bin, right, Unit(width, bin));
  }

  lemma TopMargin(bin: int, bottom: int, width: real, height: real) returns (top: real)
    requires width > 0.0 && height > 0.0 && 0 < bin && bottom <= BinHeight(bin, width / height)
    ensures top == Margin(BinHeight(bin, width / height), bottom, Unit(width, bin)) >= 0.0
    ensures top + At(bottom, Unit(width, bin)) + top == ScaledHeight(width, height, bin)
  {
    top := Margin(BinHeight(bin, width / height), bottom, Unit(width, bin));
    BinFits(width, height, bin);
    MarginFits(BinHeight(bin, width / height), bottom, Unit(width, bin));
  }

  lemma CentreIsCentred(rects: seq<Rect>, right: int, bottom: int, width: real, height: real, bin: int, offset: real)
    requires width > 0.0 && height > 0.0 && bin > 0 && SpansX(rects, right) && right <= bin
    requires SpansY(rects, bottom) && bottom <= BinHeight(bin, width / height)
    ensures WellCentred(Centre(rects, right, bottom, width, height, bin, offset), offset, width, height, bin)
    ensures AllInside(Centre(rects, right, bottom, width, height, bin, offset), 0.0, offset, width, height)
  {
    var side := SideMargin(bin, right, width);
    var top := TopMargin(bin, bottom, width, height);
    BoxesAreCentred(rects, right, bottom, width, height, bin, side, top, offset);
  }

  lemma CentreIsApart(rects: seq<Rect>, right: int, bottom: int, width: real, height: real, bin: int, offset: real)
    requires width > 0.0 && height > 0.0 && bin > 0 && RectsApart(rects)
    ensures AllApart(Centre(rects, right, bottom, width, height, bin, offset))
  {
    BinFits(width, height, bin);
    BoxesApartAll(rects, Unit(width, bin), Margin(bin, right, Unit(width, bin)),
                  Margin(BinHeight(bin, width / height), bottom, Unit(width, bin)) + offset);
  }

  /** What `calculate` found: a bin, rectangles packed into it, and how much of it they use. */
  lemma ArrangeIs(packer: Packer, aspects: seq<real>, width: real, height: real, offset: real, bound: int)
      returns (bin: int, rects: seq<Rect>, right: int, bottom: int)
    requires Honest(packer) && Ready(packer, aspects, width, height, bound)
    requires Arrange(packer, aspects, width, height, offset, bound).Some?
    ensures bin > 0 && |rects| == |aspects| && RectsApart(rects)
    ensures SpansX(rects, right) && right <= bin && SpansY(rects, bottom) && bottom <= BinHeight(bin, width / height)
    ensures FoundBin(packer, aspects, width, height, bound) == Some(bin)
    ensures TryPack(packer, aspects, width / height, bin) == Some(rects)
    ensures Arrange(packer, aspects, width, height, offset, bound) ==
      Some(Centre(rects, right, bottom, width, height, bin, offset))
  {
    var first := SizeFor(aspects[0]).width;
    bin := FoundBin(packer, aspects, width, height, bound).value;
    SearchEnds(packer, aspects, width / height, first, bound);
    TryPackIsPacked(packer, aspects, width / height, bin);
    rects := TryPack(packer, aspects, width / height, bin).value;
    UsedSpans(rects, bin, BinHeight(bin, width / height));
    right, bottom := MaxOf(Rights(rects)), MaxOf(Bottoms(rects));
  }

  lemma ArrangedApart(packer: Packer, aspects: seq<real>, width: real, height: real, offset: real, bound: int)
    requires Honest(packer) && Ready(packer, aspects, width, height, bound)
    requires Arrange(packer, aspects, width, height, offset, bound).Some?
    ensures AllApart(Arrange(packer, aspects, width, height, offset, bound).value)
  {
    var bin, rects, right, bottom := ArrangeIs(packer, aspects, width, height, offset, bound);
    CentreIsApart(rects, right, bottom, width, height, bin, offset);
  }

  lemma ArrangedCentred(packer: Packer, aspects: seq<real>, width: real, height: real, offset: real, bound: int)
    requires Honest(packer) && Ready(packer, aspects, width, height, bound)
    requires Arrange(packer, aspects, width, height, offset, bound).Some?
    ensures |Arrange(packer, aspects, width, height, offset, bound).value| == |aspects|
    ensures FoundBin(packer, aspects, width, height, bound).Some?
    ensures WellCentred(Arrange(packer, aspects, width, height, offset, bound).value, offset, width, height,
                        FoundBin(packer, aspects, width, height, bound).value)
    ensures AllInside(Arrange(packer, aspects, width, height, offset, bound).value, 0.0, offset, width, height)
  {
    var bin, rects, right, bottom := ArrangeIs(packer, aspects, width, height, offset, bound);
    CentreIsCentred(rects, right, bottom, width, height, bin, offset);
  }

  /** An arrangement puts every item inside its region, apart from the others, with equal margins left and right; the
      bottom margin exceeds the top one by what the scaled bin that was found is too low, less than one of its units. */
  lemma ArrangedWell(packer: Packer, aspects: seq<real>, width: real, height: real, offset: real, bound: int)
    requires Honest(packer) && Ready(packer, aspects, width, height, bound)
    requires Arrange(packer, aspects, width, height, offset, bound).Some?
    ensures |Arrange(packer, aspects, width, height, offset, bound).value| == |aspects|
    ensures AllApart(Arrange(packer, aspects, width, height, offset, bound).value)
    ensures AllInside(Arrange(packer, aspects, width, height, offset, bound).value, 0.0, offset, width, height)
    ensures FoundBin(packer, aspects, width, height, bound).Some?
    ensures WellCentred(Arrange(packer, aspects, width, height, offset, bound).value, offset, width, height,
                        FoundBin(packer, aspects, width, height, bound).value)
  {
    ArrangedApart(packer, aspects, width, height, offset, bound);
    ArrangedCentred(packer, aspects, width, height, offset, bound);
  }

  /** A box as wide and high as a size in some unit, possibly turned. */
  predicate HasSize(b: Box, size: Size, unit: real) {
    || (b.width == At(size.width, unit) && b.height == At(size.height, unit))
    || (b.width == At(size.height, unit) && b.height == At(size.width, unit))
  }

  /** Each box has the size of its own item. */
  ghost predicate AllHaveSizes(boxes: seq<Box>, aspects: seq<real>, unit: real) {
    && |boxes| == |aspects|
    && forall i :: 0 <= i < |boxes| ==> HasSize(boxes[i], SizeFor(Clamped(aspects[i])), unit)
  }

  lemma BoxesHaveSizes(rects: seq<Rect>, aspects: seq<real>, unit: real, left: real, top: real)
    requires AllSized(rects, aspects)
    ensures AllHaveSizes(Boxes(rects, unit, left, top), aspects, unit)
  {
    var boxes := Boxes(rects, unit, left, top);
    forall i | 0 <= i < |boxes| ensures HasSize(boxes[i], SizeFor(Clamped(aspects[i])), unit) {
      assert Sized(rects[i], SizeFor(Clamped(aspects[i])));
    }
  }

  lemma CentreKeepsSizes(rects: seq<Rect>, aspects: seq<real>, right: int, bottom: int, width: real, height: real,
                         bin: int, offset: real)
    requires width > 0.0 && height > 0.0 && AllSized(rects, aspects)
    ensures AllHaveSizes(Centre(rects, right, bottom, width, height, bin, offset), aspects, Unit(width, bin))
  {
    BoxesHaveSizes(rects, aspects, Unit(width, bin), Margin(bin, right, Unit(width, bin)),
                   Margin(BinHeight(bin, width / height), bottom, Unit(width, bin)) + offset);
  }

  lemma ArrangeIsSized(packer: Packer, aspects: seq<real>, width: real, height: real, offset: real, bound: int)
      returns (bin: int, rects: seq<Rect>, right: int, bottom: int)
    requires Honest(packer) && Ready(packer, aspects, width, height, bound)
    requires Arrange(packer, aspects, width, height, offset, bound).Some?
    ensures AllSized(rects, aspects) && FoundBin(packer, aspects, width, height, bound) == Some(bin)
    ensures Arrange(packer, aspects, width, height, offset, bound) ==
      Some(Centre(rects, right, bottom, width, height, bin, offset))
  {
    bin, rects, right, bottom := ArrangeIs(packer, aspects, width, height, offset, bound);
    TryPackIsSized(packer, aspects, width / height, bin);
  }

  /** An arrangement gives each item a box of its own size, turned or not, in the unit of the bin that was found, which
      is common to all. */
  lemma ArrangedToSize(packer: Packer, aspects: seq<real>, width: real, height: real, offset: real, bound: int)
    requires Honest(packer) && Ready(packer, aspects, width, height, bound)
    requires Arrange(packer, aspects, width, height, offset, bound).Some?
    ensures FoundBin(packer, aspects, width, height, bound).Some?
    ensures AllHaveSizes(Arrange(packer, aspects, width, height, offset, bound).value, aspects,
                         Unit(width, FoundBin(packer, aspects, width, height, bound).value))
  {
    var bin, rects, right, bottom := ArrangeIsSized(packer, aspects, width, height, offset, bound);
    CentreKeepsSizes(rects, aspects, right, bottom, width, height, bin, offset);
  }

  lemma FullHeightIff(width: real, height: real, bin: int)
    requires width > 0.0 && height > 0.0 && bin > 0
    ensures height == ScaledHeight(width, height, bin) <==>
      BinHeight(bin, width / height) as real == bin as real / (width / height)
  {
    var exact, low, unit := bin as real / (width / height), BinHeight(bin, width / height) as real, Unit(width, bin);
    ExactHeight(width, height, bin as real);
    assert exact * unit == height && ScaledHeight(width, height, bin) == low * unit;
    if low * unit == exact * unit {
      assert unit * low == unit * exact;
      Cancel(unit, low, exact);
    }
  }

  /** As much is left free below some boxes as above them. */
  ghost predicate EndsEqual(boxes: seq<Box>, y: real, height: real) {
    exists margin :: EndMargins(boxes, y, height, margin, margin)
  }

  lemma EndMarginsAreUnique(boxes: seq<Box>, y: real, height: real, top: real, bottom: real, top': real, bottom': real)
    requires EndMargins(boxes, y, height, top, bottom) && EndMargins(boxes, y, height, top', bottom')
    ensures top == top' && bottom == bottom'
  {
  }

  lemma CentredEndsEqual(boxes: seq<Box>, y: real, width: real, height: real, bin: int)
    requires WellCentred(boxes, y, width, height, bin)
    ensures EndsEqual(boxes, y, height) <==> height == ScaledHeight(width, height, bin)
  {
    var side, top, low :| Centred(boxes, y, width, height, bin, side, top, low);
    if EndsEqual(boxes, y, height) {
      var margin :| EndMargins(boxes, y, height, margin, margin);
      EndMarginsAreUnique(boxes, y, height, top, top + low, margin, margin);
    }
    if low == 0.0 { assert EndMargins(boxes, y, height, top, top); }
  }

  /** The top and bottom margins of an arrangement are equal exactly when the height of the bin it was made with is
      whole before it is truncated. */
  lemma EqualMarginsIff(packer: Packer, aspects: seq<real>, width: real, height: real, offset: real, bound: int)
    requires Honest(packer) && Ready(packer, aspects, width, height, bound)
    requires Arrange(packer, aspects, width, height, offset, bound).Some?
    ensures FoundBin(packer, aspects, width, height, bound).Some?
    ensures var bin := FoundBin(packer, aspects, width, height, bound).value;
      EndsEqual(Arrange(packer, aspects, width, height, offset, bound).value, offset, height) <==>
        BinHeight(bin, width / height) as real == bin as real / (width / height)
  {
    ArrangedWell(packer, aspects, width, height, offset, bound);
    var bin := FoundBin(packer, aspects, width, height, bound).value;
    CentredEndsEqual(Arrange(packer, aspects, width, height, offset, bound).value, offset, width, height, bin);
    FullHeightIff(width, height, bin);
  }

  // ---------------------------------------------------------------- items that cannot be laid out

  lemma RootAtLeast(n: nat, k: nat)
    ensures Root(n) >= k <==> n >= k * k
  {
    RootIs(n);
    var r := Root(n);
    if r >= k { SquareOrder(k, r); }
    if n >= k * k && r < k { SquareOrder(r + 1, k); }
  }

  lemma SquareOrder(a: nat, b: nat)
    requires a <= b
    ensures a * a <= b * b
  {
    assert b * b == a * a + (b - a) * (b + a);
  }

  lemma FirstWidth(aspect: real)
    requires aspect > 0.0
    ensures SizeFor(aspect).width >= 20 <==> aspect >= 0.04
  {
    RootAtLeast((10000.0 * aspect).Floor, 20);
  }

  lemma NarrowestSize()
    ensures SizeFor(0.5) == Size(70, 140)
  {
    RootAtLeast(5000, 70);
    RootAtLeast(5000, 71);
    assert (10000.0 * 0.5).Floor == 5000;
    assert (70.0 / 0.5).Floor == 140;
  }

  lemma NarrowBinHoldsNothing(packer: Packer, aspects: seq<real>, containerAspect: real, width: int)
    requires Honest(packer) && containerAspect > 0.0 && aspects != [] && aspects[0] < 0.5 && width < 20
    ensures TryPack(packer, aspects, containerAspect, width).None?
  {
    var height := BinHeight(width, containerAspect);
    NarrowestSize();
    var r := packer(width, height, [], SizeFor(0.5));
    assert Packed([], width, height) && Places(r, width, height, [], SizeFor(0.5));
  }

  /** Items stay where they are exactly when the first one's aspect is below 0.04: the bin then starts narrower than 20,
      where it does not widen, while a rectangle's own aspect counts as 0.5 at least. */
  lemma GivesUpExactly(packer: Packer, aspects: seq<real>, width: real, height: real, offset: real, bound: int)
    requires Honest(packer) && Ready(packer, aspects, width, height, bound)
    ensures Arrange(packer, aspects, width, height, offset, bound).None? <==> aspects[0] < 0.04
  {
    if aspects[0] > 0.0 {
      var first := SizeFor(aspects[0]).width;
      FirstWidth(aspects[0]);
      SearchEnds(packer, aspects, width / height, first, bound);
      if first < 20 { NarrowBinHoldsNothing(packer, aspects, width / height, first); }
    }
  }

  /** The whole part of the width falls short of the aspect. */
  predicate Flat(aspect: real)
    requires aspect > 0.0
  {
    Root((10000.0 * aspect).Floor) as real < aspect
  }

  /** Exactly such an item gets no height. */
  lemma FlatExactly(aspect: real)
    requires aspect > 0.0
    ensures SizeFor(aspect).height == 0 <==> Flat(aspect)
  {
    FloorOfQuotient(Root((10000.0 * aspect).Floor), aspect);
  }

  lemma FloorOfQuotient(x: nat, aspect: real)
    requires aspect > 0.0
    ensures (x as real / aspect).Floor == 0 <==> x as real < aspect
  {
    if x as real < aspect {
      QuotientBelowOne(x as real, aspect);
    } else {
      QuotientFromOne(x as real, aspect);
    }
  }

  /** By aspect, as far as it is not taken for 0.5: above 10000, and in two gaps where truncation bites already. */
  lemma FlatAspects(aspect: real)
    requires aspect >= 0.5
    ensures Flat(aspect) <==>
      (9998.0 < aspect < 9998.0001) || (9999.0 < aspect < 10000.0) || aspect > 10000.0
  {
    var n: nat := (10000.0 * aspect).Floor;
    RootIs(n);
    RootAtLeast(n, 70);
    RootAtLeast(n, 9998);
    RootAtLeast(n, 9999);
    RootAtLeast(n, 10000);
    if aspect > 10000.0 {
      RootBelow(n, aspect);
    } else if aspect <= 9998.0 {
      NotFlatBelow(Root(n), n, aspect);
    }
  }

  lemma NotFlatBelow(r: nat, n: nat, aspect: real)
    requires 0.5 <= aspect <= 9998.0 && r >= 70 && n < (r + 1) * (r + 1) && 10000.0 * aspect < n as real + 1.0
    ensures r as real >= aspect
  {
    if r <= 9997 {
      assert (r + 1) * (r + 1) == r * r + 2 * r + 1;
      ProductBound(r);
    }
  }

  lemma ProductOfNats(a: nat, b: nat)
    ensures a * b >= 0
  {
  }

  lemma ProductBound(r: nat)
    requires 1 <= r <= 9997
    ensures r * r + 2 * r + 1 <= 10000 * r
  {
    ProductOfNats(r, 9997 - r);
    assert r * (9997 - r) == 9997 * r - r * r;
  }

  lemma RootBelow(n: nat, aspect: real)
    requires aspect > 10000.0 && n as real <= 10000.0 * aspect
    ensures Root(n) as real < aspect
  {
    RootSquared(n);
    BelowAspect(Root(n) as real, n as real, aspect);
  }

  lemma RootSquared(n: nat)
    ensures Root(n) as real * Root(n) as real <= n as real
  {
    RootIs(n);
    assert (Root(n) * Root(n)) as real == Root(n) as real * Root(n) as real;
  }

  lemma BelowAspect(x: real, n: real, aspect: real)
    requires aspect > 10000.0 && x >= 0.0 && x * x <= n <= 10000.0 * aspect
    ensures x < aspect
  {
    if x >= aspect { MulOrderStrict(10000.0, x, x); }
  }

  lemma QuotientBelowOne(a: real, b: real)
    requires 0.0 <= a < b
    ensures 0.0 <= a / b < 1.0
  {
    var q := a / b;
    assert q * b == a;
    if q >= 1.0 { MulOrder(1.0, q, b); }
    if q < 0.0 { MulOrderStrict(q, 0.0, b); }
  }

  lemma QuotientFromOne(a: real, b: real)
    requires 0.0 < b <= a
    ensures a / b >= 1.0
  {
    var q := a / b;
    assert q * b == a;
    if q < 1.0 { MulOrderStrict(q, 1.0, b); }
  }

  /** An item without height fits into no bin. */
  lemma {:induction false} FlatItemsNeverFit(packer: Packer, aspects: seq<real>, width: int, height: int,
                                             placed: seq<Rect>, k: nat)
    requires Honest(packer) && Packed(placed, width, height) && k < |aspects| && Flat(Clamped(aspects[k]))
    ensures PackOnto(packer, aspects, width, height, placed).None?
    decreases aspects
  {
    var size := SizeFor(Clamped(aspects[0]));
    var r := packer(width, height, placed, size);
    assert Places(r, width, height, placed, size);
    if k == 0 {
      FlatExactly(Clamped(aspects[0]));
    } else if !Empty(r) {
      FlatItemsNeverFit(packer, aspects[1..], width, height, placed + [r], k - 1);
    }
  }

  /** With such an item the search has no end: no width fits, and every width from 20 up is widened. */
  lemma FlatItemsSearchForEver(packer: Packer, aspects: seq<real>, containerAspect: real, k: nat)
    requires Honest(packer) && containerAspect > 0.0 && k < |aspects| && Flat(Clamped(aspects[k]))
    ensures forall width :: TryPack(packer, aspects, containerAspect, width).None?
    ensures forall width :: width >= 20 ==> Widened(width) > width
  {
    forall width ensures TryPack(packer, aspects, containerAspect, width).None? {
      FlatItemsNeverFit(packer, aspects, width, BinHeight(width, containerAspect), [], k);
    }
  }

  // ---------------------------------------------------------------- an arrangement with unequal margins

  /** A packer for one item: it goes into the corner if it fits. */
  function CornerPacker(width: int, height: int, placed: seq<Rect>, size: Size): Rect {
    if placed == [] && 0 < size.width <= width && 0 < size.height <= height then Rect(0, 0, size.width, size.height)
    else Rect(0, 0, 0, 0)
  }

  lemma CornerPackerIsHonest()
    ensures Honest(CornerPacker)
  {
  }

  lemma ThreeToTwo()
    ensures SizeFor(1.5) == Size(122, 81)
  {
    RootAtLeast(15000, 122);
    RootAtLeast(15000, 123);
    assert (10000.0 * 1.5).Floor == 15000;
    assert (122.0 / 1.5).Floor == 81;
  }

  lemma CornerPacks(width: int)
    requires width >= 122
    ensures TryPack(CornerPacker, [1.5], 1.5, width) == Some([Rect(0, 0, 122, 81)])
  {
    var aspects, height := [1.5], BinHeight(width, 1.5);
    ThreeToTwo();
    assert height >= 81;
    var r := CornerPacker(width, height, [], SizeFor(Clamped(aspects[0])));
    assert r == Rect(0, 0, 122, 81);
    assert aspects[1..] == [] && [] + [r] == [r];
    assert PackOnto(CornerPacker, [], width, height, [r]) == Some([r]);
    assert PackOnto(CornerPacker, aspects, width, height, [])
      == PackOnto(CornerPacker, aspects[1..], width, height, [] + [r]);
  }

  /** An item three to two in a container three to two: it fits a bin of 122 by 81, which is a third of a unit too low,
      and so less is left free above it than below. */
  lemma UnequalMarginsExample()
    ensures Honest(CornerPacker) && Ready(CornerPacker, [1.5], 150.0, 100.0, 122)
    ensures FoundBin(CornerPacker, [1.5], 150.0, 100.0, 122) == Some(122)
    ensures var a := Arrange(CornerPacker, [1.5], 150.0, 100.0, 0.0, 122); a.Some? && !EndsEqual(a.value, 0.0, 100.0)
  {
    CornerPackerIsHonest();
    assert 150.0 / 100.0 == 1.5;
    forall width | width >= 122 ensures TryPack(CornerPacker, [1.5], 1.5, width).Some? { CornerPacks(width); }
    ThreeToTwo();
    EqualMarginsIff(CornerPacker, [1.5], 150.0, 100.0, 0.0, 122);
  }
}
