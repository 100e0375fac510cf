/**
 The layouts of the video items: all in a grid, one enlarged below a strip with the others, or one alone. What becomes
 of each item is a function of the layout; the items themselves are in `VideoItems`.
 */
module Looks {
  import opened Prelude
  import opened Layouts

  datatype Mode = Grid | Enlarged | Full

  /** What becomes of an item: whether it is shown, and where it goes unless it stays where it was. */
  datatype Look = Look(visible: bool, box: Option<Box>)

  function Others<T>(list: seq<T>, f: nat): seq<T>
    requires f < |list|
  {
    list[..f] + list[f + 1..]
  }

  function StripHeight(height: real): real {
    height * 20.0 / 100.0
  }

  /** All that may have to be arranged fits into some bins. */
  ghost predicate Roomy(packer: Packer, aspects: seq<real>, width: real, height: real, bound: int) {
    && Ready(packer, aspects, width, height, bound)
    && forall f :: 0 <= f < |aspects| ==>
         && Ready(packer, [aspects[f]], width, height, bound)
         && Ready(packer, [aspects[f]], width, height - StripHeight(height), bound)
         && (|aspects| > 1 ==> Ready(packer, Others(aspects, f), width, StripHeight(height), bound))
  }

  function BoxAt(boxes: Option<seq<Box>>, i: nat): Option<Box> {
    if boxes.Some? && i < |boxes.value| then Some(boxes.value[i]) else None
  }

  /** A single item is always shown as in a grid. */
  function ModeFor(mode: Mode, n: nat): Mode {
    if n == 1 then Grid else mode
  }

  /** How a list of items is arranged in a region: its width and height, and how far down it starts. */
  type Arranger = (seq<real>, real, real, real) -> Option<seq<Box>>

  /** It is what `calculate` does. */
  ghost predicate Follows(arrange: Arranger, packer: Packer, bound: int) {
    forall aspects, width, height, offset {:trigger Arrange(packer, aspects, width, height, offset, bound)} ::
      Ready(packer, aspects, width, height, bound) ==>
        arrange(aspects, width, height, offset) == Arrange(packer, aspects, width, height, offset, bound)
  }

  /** `recalculate`: what becomes of item `i`, with item `f` in focus. */
  function LookOf(arrange: Arranger, aspects: seq<real>, mode: Mode, f: nat, width: real, height: real, i: nat): Look {
    var strip := StripHeight(height);
    if ModeFor(mode, |aspects|) == Grid || f >= |aspects| then
      Look(true, BoxAt(arrange(aspects, width, height, 0.0), i))
    else if mode == Full then
      if i == f then Look(true, BoxAt(arrange([aspects[f]], width, height, 0.0), 0)) else Look(false, None)
    else if i == f then Look(true, BoxAt(arrange([aspects[f]], width, height - strip, strip), 0))
    else Look(true, BoxAt(arrange(Others(aspects, f), width, strip, 0.0), if i < f then i else i - 1))
  }

  lemma BoxInside(packer: Packer, aspects: seq<real>, width: real, height: real, offset: real, bound: int, i: nat)
    requires Honest(packer) && Ready(packer, aspects, width, height, bound)
    ensures var box := BoxAt(Arrange(packer, aspects, width, height, offset, bound), i);
      box.Some? ==> Inside(box.value, 0.0, offset, width, height)
  {
    if Arrange(packer, aspects, width, height, offset, bound).Some? {
      ArrangedWell(packer, aspects, width, height, offset, bound);
    }
  }

  lemma TwoBoxesApart(packer: Packer, aspects: seq<real>, width: real, height: real, offset: real, bound: int,
                      i: nat, j: nat)
    requires Honest(packer) && Ready(packer, aspects, width, height, bound) && i < j
    ensures var a := Arrange(packer, aspects, width, height, offset, bound);
      BoxAt(a, i).Some? && BoxAt(a, j).Some? ==> BoxesApart(BoxAt(a, i).value, BoxAt(a, j).value)
  {
    if Arrange(packer, aspects, width, height, offset, bound).Some? {
      ArrangedWell(packer, aspects, width, height, offset, bound);
    }
  }

  /** In every layout an item that is put somewhere lies inside the container. */
  lemma LooksInside(arrange: Arranger, packer: Packer, aspects: seq<real>, mode: Mode, f: nat, width: real,
                    height: real, bound: int, i: nat)
    requires Honest(packer) && Follows(arrange, packer, bound) && Roomy(packer, aspects, width, height, bound)
    requires i < |aspects| && (ModeFor(mode, |aspects|) != Grid ==> f < |aspects|)
    ensures var look := LookOf(arrange, aspects, mode, f, width, height, i);
      look.box.Some? ==> look.visible && Inside(look.box.value, 0.0, 0.0, width, height)
  {
    var strip := StripHeight(height);
    match ModeFor(mode, |aspects|)
    case Grid => BoxInside(packer, aspects, width, height, 0.0, bound, i);
    case Full => BoxInside(packer, [aspects[f]], width, height, 0.0, bound, 0);
    case Enlarged =>
      BoxInside(packer, [aspects[f]], width, height - strip, strip, bound, 0);
      BoxInside(packer, Others(aspects, f), width, strip, 0.0, bound, if i < f then i else if i == f then 0 else i - 1);
  }

  /** ... and overlaps no other that is put somewhere. */
  lemma LooksApart(arrange: Arranger, packer: Packer, aspects: seq<real>, mode: Mode, f: nat, width: real, height: real,
                   bound: int, i: nat, j: nat)
    requires Honest(packer) && Follows(arrange, packer, bound) && Roomy(packer, aspects, width, height, bound)
    requires i < j < |aspects| && (ModeFor(mode, |aspects|) != Grid ==> f < |aspects|)
    ensures var a := LookOf(arrange, aspects, mode, f, width, height, i).box;
      var b := LookOf(arrange, aspects, mode, f, width, height, j).box;
      a.Some? && b.Some? ==> BoxesApart(a.value, b.value)
  {
    var strip := StripHeight(height);
    match ModeFor(mode, |aspects|)
    case Grid => TwoBoxesApart(packer, aspects, width, height, 0.0, bound, i, j);
    case Full =>
    case Enlarged =>
      var k, l := if i < f then i else i - 1, if j < f then j else j - 1;
      if i == f {
        BoxInside(packer, [aspects[f]], width, height - strip, strip, bound, 0);
        BoxInside(packer, Others(aspects, f), width, strip, 0.0, bound, l);
      } else if j == f {
        BoxInside(packer, [aspects[f]], width, height - strip, strip, bound, 0);
        BoxInside(packer, Others(aspects, f), width, strip, 0.0, bound, k);
      } else {
        TwoBoxesApart(packer, Others(aspects, f), width, strip, 0.0, bound, k, l);
      }
  }

  /** The items among which item `i` is arranged. */
  function Company(aspects: seq<real>, mode: Mode, f: nat, i: nat): seq<real>
    requires i < |aspects| && (ModeFor(mode, |aspects|) != Grid ==> f < |aspects|)
  {
    if ModeFor(mode, |aspects|) == Grid then aspects
    else if i == f || mode == Full then [aspects[f]]
    else Others(aspects, f)
  }

  /** The height of their region: in an enlarged layout a fifth for the others, and the rest for the one in focus. */
  function RegionHeight(mode: Mode, n: nat, f: nat, height: real, i: nat): real {
    if ModeFor(mode, n) != Enlarged then height else if i == f then height * 0.8 else height * 0.2
  }

  function RegionTop(mode: Mode, n: nat, f: nat, height: real, i: nat): real {
    if ModeFor(mode, n) == Enlarged && i == f then height * 0.2 else 0.0
  }

  lemma Shares(height: real)
    ensures StripHeight(height) == height * 0.2 && height - StripHeight(height) == height * 0.8
  {
  }

  /** Where an item goes, in short: among its company, in their region. */
  lemma LookIs(arrange: Arranger, aspects: seq<real>, mode: Mode, f: nat, width: real, height: real, i: nat)
    requires i < |aspects| && (ModeFor(mode, |aspects|) != Grid ==> f < |aspects|)
    ensures var look, n := LookOf(arrange, aspects, mode, f, width, height, i), |aspects|;
      var company := Company(aspects, mode, f, i);
      && (look.visible <==> n == 1 || mode != Full || i == f)
      && (look.visible ==>
            exists k: nat :: k < |company| && company[k] == aspects[i] &&
              look.box == BoxAt(arrange(company, width, RegionHeight(mode, n, f, height, i),
                                        RegionTop(mode, n, f, height, i)), k))
      && (!look.visible ==> look.box.None?)
  {
    Shares(height);
    var company, n := Company(aspects, mode, f, i), |aspects|;
    var k := if ModeFor(mode, n) == Grid then i else if i == f || mode == Full then 0 else if i < f then i else i - 1;
    if LookOf(arrange, aspects, mode, f, width, height, i).visible {
      assert company[k] == aspects[i];
    }
  }

  lemma CompanyIsReady(packer: Packer, aspects: seq<real>, mode: Mode, f: nat, width: real, height: real, bound: int,
                       i: nat)
    requires Roomy(packer, aspects, width, height, bound)
    requires i < |aspects| && (ModeFor(mode, |aspects|) != Grid ==> f < |aspects|)
    ensures Ready(packer, Company(aspects, mode, f, i), width, RegionHeight(mode, |aspects|, f, height, i), bound)
  {
    Shares(height);
  }

  /** A box is where its item should be: in the region, and of the item's own size in the unit of the bin that was
      found for it. */
  ghost predicate Suits(box: Box, packer: Packer, company: seq<real>, aspect: real, width: real, height: real,
                        top: real, bound: int)
    requires Ready(packer, company, width, height, bound)
  {
    && Inside(box, 0.0, top, width, height)
    && FoundBin(packer, company, width, height, bound).Some?
    && HasSize(box, SizeFor(Clamped(aspect)), Unit(width, FoundBin(packer, company, width, height, bound).value))
  }

  lemma BoxSuits(packer: Packer, company: seq<real>, width: real, height: real, top: real, bound: int, k: nat)
    requires Honest(packer) && Ready(packer, company, width, height, bound) && k < |company|
    ensures var box := BoxAt(Arrange(packer, company, width, height, top, bound), k);
      && (box.Some? <==> company[0] >= 0.04)
      && (box.Some? ==> Suits(box.value, packer, company, company[k], width, height, top, bound))
  {
    GivesUpExactly(packer, company, width, height, top, bound);
    if Arrange(packer, company, width, height, top, bound).Some? {
      ArrangedWell(packer, company, width, height, top, bound);
      ArrangedToSize(packer, company, width, height, top, bound);
    }
  }

  /** In every layout an item that is put somewhere gets a box of its own size, in one unit with all that it is arranged
      with: anywhere in a grid or when shown alone, in the top fifth beside the one in focus, which is below that. */
  lemma LooksSuit(arrange: Arranger, packer: Packer, aspects: seq<real>, mode: Mode, f: nat, width: real, height: real,
                  bound: int, i: nat)
    requires Honest(packer) && Follows(arrange, packer, bound) && Roomy(packer, aspects, width, height, bound)
    requires i < |aspects| && (ModeFor(mode, |aspects|) != Grid ==> f < |aspects|)
    ensures Ready(packer, Company(aspects, mode, f, i), width, RegionHeight(mode, |aspects|, f, height, i), bound)
    ensures var look := LookOf(arrange, aspects, mode, f, width, height, i);
      look.box.Some? ==>
        Suits(look.box.value, packer, Company(aspects, mode, f, i), aspects[i], width,
              RegionHeight(mode, |aspects|, f, height, i), RegionTop(mode, |aspects|, f, height, i), bound)
  {
    CompanyIsReady(packer, aspects, mode, f, width, height, bound, i);
    LookIs(arrange, aspects, mode, f, width, height, i);
    var look, company := LookOf(arrange, aspects, mode, f, width, height, i), Company(aspects, mode, f, i);
    var high, top := RegionHeight(mode, |aspects|, f, height, i), RegionTop(mode, |aspects|, f, height, i);
    if look.visible {
      var k: nat :| k < |company| && company[k] == aspects[i] &&
        look.box == BoxAt(arrange(company, width, high, top), k);
      BoxSuits(packer, company, width, high, top, bound, k);
    }
  }

  /** An item that is shown is put somewhere exactly if the first of the items it is arranged with is not narrower than
      0.04. */
  lemma ShownItemsArePlaced(arrange: Arranger, packer: Packer, aspects: seq<real>, mode: Mode, f: nat, width: real,
                            height: real, bound: int, i: nat)
    requires Honest(packer) && Follows(arrange, packer, bound) && Roomy(packer, aspects, width, height, bound)
    requires i < |aspects| && (ModeFor(mode, |aspects|) != Grid ==> f < |aspects|)
    ensures var look := LookOf(arrange, aspects, mode, f, width, height, i);
      look.box.Some? <==> look.visible && Company(aspects, mode, f, i)[0] >= 0.04
  {
    CompanyIsReady(packer, aspects, mode, f, width, height, bound, i);
    LookIs(arrange, aspects, mode, f, width, height, i);
    var look, company := LookOf(arrange, aspects, mode, f, width, height, i), Company(aspects, mode, f, i);
    var high, top := RegionHeight(mode, |aspects|, f, height, i), RegionTop(mode, |aspects|, f, height, i);
    if look.visible {
      var k: nat :| k < |company| && company[k] == aspects[i] &&
        look.box == BoxAt(arrange(company, width, high, top), k);
      BoxSuits(packer, company, width, high, top, bound, k);
    }
  }
}
