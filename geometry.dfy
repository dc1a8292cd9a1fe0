// Layout of a single horizontal row of monitors separated by bezels: the
// dimensions a source image must have, and where each monitor's part of the
// image lies in the source image and in the bezel-free wallpaper.

module Geometry {

  /** One entry of the screen list: the pixel width and height of its bounds. */
  datatype Screen = Screen(width: nat, height: nat)

  /** A pixel rectangle given by its top-left corner and its size. */
  datatype Rect = Rect(x: int, y: int, width: nat, height: nat)

  /** The rectangle lies entirely inside a bitmap of the given size. */
  predicate Inside(r: Rect, width: int, height: int)
  {
    0 <= r.x && r.x + r.width <= width && 0 <= r.y && r.y + r.height <= height
  }

  /** The pixel (x, y) lies in the rectangle. */
  predicate Contains(r: Rect, x: int, y: int)
  {
    r.x <= x < r.x + r.width && r.y <= y < r.y + r.height
  }

  /** Sum of the screens' widths, accumulated left to right. */
  function SumWidths(screens: seq<Screen>): nat
  {
    if screens == [] then 0
    else SumWidths(screens[..|screens| - 1]) + screens[|screens| - 1].width
  }

  /** Math.Max on two integers. */
  function Max(a: int, b: int): int
  {
    if a >= b then a else b
  }

  /** The tallest screen's height, folded left to right with Max; 0 for no screens. */
  function MaxHeight(screens: seq<Screen>): (m: nat)
    ensures forall i :: 0 <= i < |screens| ==> screens[i].height <= m
    ensures |screens| == 0 ==> m == 0
    ensures |screens| > 0 ==> exists i :: 0 <= i < |screens| && screens[i].height == m
  {
    if screens == [] then 0
    else
      var n := |screens| - 1;
      var rest := MaxHeight(screens[..n]);
      assert forall i :: 0 <= i < n ==> screens[..n][i] == screens[i];
      Max(screens[n].height, rest)
  }

  /**
   * The width a source image must have: every screen's width plus two bezel
   * widths for each of the (count - 1) joints between adjacent screens. With
   * no screens at all the joint count is -1, as in C#'s signed int arithmetic
   * on DisplayCount - 1.
   */
  function ExpectedWidth(screens: seq<Screen>, bezel: nat): (w: int)
    ensures |screens| > 0 ==> w >= SumWidths(screens)
    ensures |screens| == 0 ==> w == -2 * bezel
    ensures |screens| == 1 ==> w == screens[0].width
  {
    SumWidths(screens) + bezel * ((|screens| - 1) * 2)
  }

  /** The size gate: a source image is processed only when it has exactly the expected size. */
  predicate Accepts(screens: seq<Screen>, bezel: nat, width: nat, height: nat): (ok: bool)
    ensures ok ==> |screens| > 0 || bezel == 0
    ensures ok ==> forall i :: 0 <= i < |screens| ==> screens[i].height <= height
    ensures ok ==> width >= SumWidths(screens)
  {
    width == ExpectedWidth(screens, bezel) && height == MaxHeight(screens)
  }

  /** Width of the wallpaper: the expected source width with the bezel joints taken out again. */
  function CroppedWidth(screens: seq<Screen>, bezel: nat): (w: int)
    ensures w == SumWidths(screens)
    ensures |screens| == 1 ==> w == ExpectedWidth(screens, bezel) == screens[0].width
  {
    ExpectedWidth(screens, bezel) - (|screens| - 1) * (bezel * 2)
  }

  /** Wallpaper x of the left edge of screen i: the widths of the screens before it. */
  function DestinationOffset(screens: seq<Screen>, i: nat): (x: nat)
    requires i <= |screens|
    ensures i == 0 ==> x == 0
    ensures i == |screens| ==> x == SumWidths(screens)
  {
    assert i == |screens| ==> screens[..i] == screens;
    SumWidths(screens[..i])
  }

  /** Source x of the left edge of screen i: the widths before it plus two bezels per joint passed. */
  function SourceOffset(screens: seq<Screen>, bezel: nat, i: nat): (x: nat)
    requires i <= |screens|
    ensures x >= DestinationOffset(screens, i)
    ensures bezel == 0 || i == 0 ==> x == DestinationOffset(screens, i)
  {
    SumWidths(screens[..i]) + 2 * bezel * i
  }

  /** The part of the source image that screen i shows. */
  function SourceRegion(screens: seq<Screen>, bezel: nat, height: nat, i: nat): (r: Rect)
    requires i < |screens|
    ensures Inside(r, ExpectedWidth(screens, bezel), height)
  {
    SourceRegionInBounds(screens, bezel, i);
    Rect(SourceOffset(screens, bezel, i), 0, screens[i].width, height)
  }

  /** Where screen i's part goes in the wallpaper. */
  function DestinationRegion(screens: seq<Screen>, height: nat, i: nat): (r: Rect)
    requires i < |screens|
    ensures Inside(r, SumWidths(screens), height)
  {
    PrefixGrowth(screens, i, |screens|);
    Rect(DestinationOffset(screens, i), 0, screens[i].width, height)
  }

  lemma SumWidthsSnoc(screens: seq<Screen>, i: nat)
    requires i < |screens|
    ensures SumWidths(screens[..i + 1]) == SumWidths(screens[..i]) + screens[i].width
  {
    assert screens[..i + 1][..i] == screens[..i];
  }

  lemma SumWidthsWhole(screens: seq<Screen>)
    ensures DestinationOffset(screens, |screens|) == SumWidths(screens)
  {
    assert screens[..|screens|] == screens;
  }

  /** Both running origins of the copy loop advance by the screen's width, the source one by two bezels more. */
  lemma OffsetsAdvance(screens: seq<Screen>, bezel: nat, i: nat)
    requires i < |screens|
    ensures DestinationOffset(screens, i + 1) == DestinationOffset(screens, i) + screens[i].width
    ensures SourceOffset(screens, bezel, i + 1) == SourceOffset(screens, bezel, i) + screens[i].width + 2 * bezel
  {
    SumWidthsSnoc(screens, i);
  }

  /** Screen i's wallpaper region ends at or before the start of every later screen's region. */
  lemma {:induction false} PrefixGrowth(screens: seq<Screen>, i: nat, j: nat)
    requires i < j <= |screens|
    ensures DestinationOffset(screens, i) + screens[i].width <= DestinationOffset(screens, j)
    decreases j
  {
    SumWidthsSnoc(screens, j - 1);
    if i < j - 1 {
      PrefixGrowth(screens, i, j - 1);
    }
  }

  /** Passing one more joint adds at least two bezels to the source offset. */
  lemma {:induction false} JointsGrow(bezel: nat, i: nat, j: nat)
    requires i < j
    ensures 2 * bezel * i + 2 * bezel <= 2 * bezel * j
    decreases j
  {
    if i < j - 1 {
      JointsGrow(bezel, i, j - 1);
    }
    assert 2 * bezel * j == 2 * bezel * (j - 1) + 2 * bezel;
  }

  /**
   * The regions of two different screens never overlap, in the wallpaper or
   * in the source; in the source they are at least two bezels apart.
   */
  lemma RegionsDisjoint(screens: seq<Screen>, bezel: nat, i: nat, j: nat)
    requires i < j < |screens|
    ensures DestinationOffset(screens, i) + screens[i].width <= DestinationOffset(screens, j)
    ensures SourceOffset(screens, bezel, i) + screens[i].width + 2 * bezel <= SourceOffset(screens, bezel, j)
  {
    PrefixGrowth(screens, i, j);
    JointsGrow(bezel, i, j);
  }

  /** With screens of positive width, both offsets strictly increase with the screen index. */
  lemma OffsetsStrictlyIncreasing(screens: seq<Screen>, bezel: nat, i: nat, j: nat)
    requires i < j <= |screens|
    requires forall k :: 0 <= k < |screens| ==> screens[k].width > 0
    ensures DestinationOffset(screens, i) < DestinationOffset(screens, j)
    ensures SourceOffset(screens, bezel, i) < SourceOffset(screens, bezel, j)
  {
    PrefixGrowth(screens, i, j);
    JointsGrow(bezel, i, j);
  }

  /** The first screen starts at column 0 in both images; the last one ends at the image's right edge. */
  lemma OffsetsAtEnds(screens: seq<Screen>, bezel: nat)
    ensures DestinationOffset(screens, 0) == 0 && SourceOffset(screens, bezel, 0) == 0
    ensures DestinationOffset(screens, |screens|) == CroppedWidth(screens, bezel)
    ensures |screens| > 0 ==>
      SourceOffset(screens, bezel, |screens| - 1) + screens[|screens| - 1].width == ExpectedWidth(screens, bezel)
  {
    SumWidthsWhole(screens);
    if |screens| > 0 {
      OffsetsAdvance(screens, bezel, |screens| - 1);
    }
  }

  /** The screen whose wallpaper region holds column x. */
  function MonitorAt(screens: seq<Screen>, x: nat): (i: nat)
    requires x < SumWidths(screens)
    ensures i < |screens|
    ensures DestinationOffset(screens, i) <= x < DestinationOffset(screens, i) + screens[i].width
  {
    var n := |screens| - 1;
    if x >= SumWidths(screens[..n]) then n
    else
      var i := MonitorAt(screens[..n], x);
      assert screens[..n][..i] == screens[..i];
      i
  }

  /** Column x lies in screen i's wallpaper region only when i is MonitorAt(x). */
  lemma MonitorAtUnique(screens: seq<Screen>, x: nat, i: nat)
    requires i < |screens|
    requires DestinationOffset(screens, i) <= x < DestinationOffset(screens, i) + screens[i].width
    ensures x < SumWidths(screens) && MonitorAt(screens, x) == i
  {
    PrefixGrowth(screens, i, |screens|);
    SumWidthsWhole(screens);
    var j := MonitorAt(screens, x);
    if j < i {
      RegionsDisjoint(screens, 0, j, i);
    } else if i < j {
      RegionsDisjoint(screens, 0, i, j);
    }
  }

  /**
   * The wallpaper regions tile [0, CroppedWidth) exactly: a column is covered
   * if and only if it lies in that range, and then by exactly one screen.
   */
  lemma DestinationRegionsTile(screens: seq<Screen>, bezel: nat, x: int)
    ensures (0 <= x < CroppedWidth(screens, bezel)) <==>
      (exists i :: 0 <= i < |screens| && DestinationOffset(screens, i) <= x < DestinationOffset(screens, i) + screens[i].width)
    ensures forall i, j ::
      0 <= i < |screens| && DestinationOffset(screens, i) <= x < DestinationOffset(screens, i) + screens[i].width &&
      0 <= j < |screens| && DestinationOffset(screens, j) <= x < DestinationOffset(screens, j) + screens[j].width
      ==> i == j
  {
    if 0 <= x < CroppedWidth(screens, bezel) {
      var i := MonitorAt(screens, x);
    }
    forall i | 0 <= i < |screens| && DestinationOffset(screens, i) <= x < DestinationOffset(screens, i) + screens[i].width
      ensures 0 <= x < CroppedWidth(screens, bezel) && MonitorAt(screens, x) == i
    {
      MonitorAtUnique(screens, x, i);
    }
  }

  /**
   * The source column that wallpaper column x is copied from: it lies at the
   * same distance from the start of its screen's source region as x lies from
   * the start of the screen's wallpaper region, and inside the source image.
   */
  function SourceColumn(screens: seq<Screen>, bezel: nat, x: nat): (c: nat)
    requires x < SumWidths(screens)
    ensures c - SourceOffset(screens, bezel, MonitorAt(screens, x)) == x - DestinationOffset(screens, MonitorAt(screens, x))
    ensures SourceOffset(screens, bezel, MonitorAt(screens, x)) <= c
    ensures c < SourceOffset(screens, bezel, MonitorAt(screens, x)) + screens[MonitorAt(screens, x)].width
    ensures c < ExpectedWidth(screens, bezel)
  {
    var i := MonitorAt(screens, x);
    SourceRegionInBounds(screens, bezel, i);
    x + 2 * bezel * i
  }

  /** Every screen's source region lies inside a source image of the expected width. */
  lemma SourceRegionInBounds(screens: seq<Screen>, bezel: nat, i: nat)
    requires i < |screens|
    ensures SourceOffset(screens, bezel, i) + screens[i].width <= ExpectedWidth(screens, bezel)
  {
    OffsetsAtEnds(screens, bezel);
    if i < |screens| - 1 {
      RegionsDisjoint(screens, bezel, i, |screens| - 1);
    }
  }

  /**
   * For a source image that passes the size gate, every screen's source
   * region lies inside the image and its wallpaper region inside the wallpaper.
   */
  lemma AcceptedRegionsInside(screens: seq<Screen>, bezel: nat, width: nat, height: nat, i: nat)
    requires Accepts(screens, bezel, width, height)
    requires i < |screens|
    ensures Inside(SourceRegion(screens, bezel, MaxHeight(screens), i), width, height)
    ensures Inside(DestinationRegion(screens, MaxHeight(screens), i), CroppedWidth(screens, bezel), height)
  {
    SourceRegionInBounds(screens, bezel, i);
    OffsetsAtEnds(screens, bezel);
    if i < |screens| - 1 {
      PrefixGrowth(screens, i, |screens|);
    } else {
      OffsetsAdvance(screens, bezel, i);
    }
  }

  /**
   * With at least one screen and every screen of positive size, the
   * wallpaper bitmap the copy loop allocates has a positive width and height.
   */
  lemma WallpaperNotEmpty(screens: seq<Screen>, bezel: nat)
    requires |screens| > 0
    requires forall k :: 0 <= k < |screens| ==> screens[k].width > 0 && screens[k].height > 0
    ensures CroppedWidth(screens, bezel) > 0 && MaxHeight(screens) > 0
  {
    assert screens[|screens| - 1].width > 0;
    assert screens[0].height > 0;
  }

  /**
   * Without bezels both images have the same width and every wallpaper column
   * comes from the same source column: the wallpaper is the source unchanged.
   */
  lemma ZeroBezelIsIdentity(screens: seq<Screen>, x: nat)
    requires x < SumWidths(screens)
    ensures CroppedWidth(screens, 0) == ExpectedWidth(screens, 0)
    ensures SourceColumn(screens, 0, x) == x
  {
  }
}
