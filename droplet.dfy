// The droplet: the configuration it reads once at start-up, the size gate it
// applies to each dropped image, and the loop that copies every screen's part
// of an image into a bezel-free wallpaper.

module Droplet {
  import opened Geometry

  /** A pixel of a 32 bits-per-pixel ARGB bitmap. */
  type Pixel = bv32

  /** What happens to one dropped image: skipped by the size gate, or turned into a wallpaper. */
  datatype Outcome = Skipped | Wallpapered(image: array2<Pixel>)

  /**
   * image is the wallpaper of source: it has one column per screen column
   * and the height of the tallest screen, and each of its pixels is the
   * source pixel of the same row in the column SourceColumn assigns to it.
   * Bitmaps are indexed [x, y].
   */
  ghost predicate IsWallpaperOf(screens: seq<Screen>, bezel: nat, source: array2<Pixel>, image: array2<Pixel>): (ok: bool)
    reads source, image
    ensures ok ==> Accepts(screens, bezel, source.Length0, source.Length1)
  {
    source.Length0 == ExpectedWidth(screens, bezel) &&
    source.Length1 == MaxHeight(screens) &&
    image.Length0 == SumWidths(screens) &&
    image.Length1 == MaxHeight(screens) &&
    forall x, y :: 0 <= x < image.Length0 && 0 <= y < image.Length1 ==>
      image[x, y] == source[SourceColumn(screens, bezel, x), y]
  }

  /**
   * The outcome for one dropped image: skipped exactly when the image fails
   * the size gate, and otherwise the image's wallpaper.
   */
  ghost predicate Handled(screens: seq<Screen>, bezel: nat, source: array2<Pixel>, outcome: Outcome)
    reads source, if outcome.Wallpapered? then {outcome.image} else {}
  {
    (outcome.Skipped? <==> !Accepts(screens, bezel, source.Length0, source.Length1)) &&
    (outcome.Wallpapered? ==> IsWallpaperOf(screens, bezel, source, outcome.image))
  }

  /**
   * In a wallpaper, the pixels of screen i's wallpaper region are those of
   * screen i's source region at the same offset: the per-screen reading of
   * IsWallpaperOf.
   */
  lemma WallpaperMatchesEachScreen(screens: seq<Screen>, bezel: nat, source: array2<Pixel>, image: array2<Pixel>, i: nat, x: nat, y: nat)
    requires IsWallpaperOf(screens, bezel, source, image)
    requires i < |screens| && DestinationOffset(screens, i) <= x < DestinationOffset(screens, i) + screens[i].width
    requires y < MaxHeight(screens)
    ensures x < image.Length0 && x - DestinationOffset(screens, i) + SourceOffset(screens, bezel, i) < source.Length0
    ensures image[x, y] == source[x - DestinationOffset(screens, i) + SourceOffset(screens, bezel, i), y]
  {
    MonitorAtUnique(screens, x, i);
    var c := SourceColumn(screens, bezel, x);
    assert c == x - DestinationOffset(screens, i) + SourceOffset(screens, bezel, i);
    assert image[x, y] == source[c, y];
  }

  /** Without a bezel, an image of the expected size is its own wallpaper. */
  lemma SourceIsItsOwnWallpaper(screens: seq<Screen>, source: array2<Pixel>)
    requires source.Length0 == ExpectedWidth(screens, 0) && source.Length1 == MaxHeight(screens)
    ensures IsWallpaperOf(screens, 0, source, source)
  {
    forall x | 0 <= x < source.Length0
      ensures x < SumWidths(screens) && SourceColumn(screens, 0, x) == x
    {
      ZeroBezelIsIdentity(screens, x);
    }
  }

  /**
   * The program's configuration: the bezel width setting and the screen list
   * are given when it is constructed, and the derived totals are fixed from
   * then on.
   */
  class Program {
    const screens: seq<Screen>
    const bezelWidth: nat
    const displayCount: nat
    const totalMonitorWidth: int
    const maximumMonitorHeight: nat

    /**
     * The derived totals agree with the screen list and the bezel width, and
     * every screen has a non-empty area, as the screens the system reports do.
     */
    ghost predicate Valid()
    {
      (forall k :: 0 <= k < |screens| ==> screens[k].width > 0 && screens[k].height > 0) &&
      displayCount == |screens| &&
      totalMonitorWidth == ExpectedWidth(screens, bezelWidth) &&
      maximumMonitorHeight == MaxHeight(screens)
    }

    /** Accumulates the total width and the maximum height over the screens, then adds the bezel joints. */
    constructor (allScreens: seq<Screen>, bezel: nat)
      requires forall k :: 0 <= k < |allScreens| ==> allScreens[k].width > 0 && allScreens[k].height > 0
      ensures screens == allScreens && bezelWidth == bezel
      ensures Valid()
    {
      bezelWidth := bezel;
      displayCount := |allScreens|;
      var total: int, tallest: nat := 0, 0;
      for k := 0 to |allScreens|
        invariant total == SumWidths(allScreens[..k])
        invariant tallest == MaxHeight(allScreens[..k])
      {
        assert allScreens[..k + 1][..k] == allScreens[..k];
        total := total + allScreens[k].width;
        tallest := Max(allScreens[k].height, tallest);
      }
      assert allScreens[..|allScreens|] == allScreens;
      total := total + bezel * ((|allScreens| - 1) * 2);
      screens := allScreens;
      totalMonitorWidth := total;
      maximumMonitorHeight := tallest;
    }

    /**
     * Copies the source region into the destination region, pixel for
     * pixel; the two regions have the same size and lie inside their
     * bitmaps. Nothing outside the destination region changes.
     */
    static method CopyRegionIntoImage(source: array2<Pixel>, sourceRegion: Rect, destination: array2<Pixel>, destinationRegion: Rect)
      requires source != destination
      requires sourceRegion.width == destinationRegion.width && sourceRegion.height == destinationRegion.height
      requires Inside(sourceRegion, source.Length0, source.Length1)
      requires Inside(destinationRegion, destination.Length0, destination.Length1)
      modifies destination
      ensures forall x, y :: 0 <= x < destination.Length0 && 0 <= y < destination.Length1 ==>
        destination[x, y] ==
          if Contains(destinationRegion, x, y)
          then source[x - destinationRegion.x + sourceRegion.x, y - destinationRegion.y + sourceRegion.y]
          else old(destination[x, y])
    {
      var dx0, dy0 := destinationRegion.x, destinationRegion.y;
      var sx0, sy0 := sourceRegion.x, sourceRegion.y;
      for dy := 0 to destinationRegion.height
        invariant forall x, y :: 0 <= x < destination.Length0 && 0 <= y < destination.Length1 ==>
          destination[x, y] ==
            if dx0 <= x < dx0 + destinationRegion.width && dy0 <= y < dy0 + dy
            then source[x - dx0 + sx0, y - dy0 + sy0]
            else old(destination[x, y])
      {
        for dx := 0 to destinationRegion.width
          invariant forall x, y :: 0 <= x < destination.Length0 && 0 <= y < destination.Length1 ==>
            destination[x, y] ==
              if (dx0 <= x < dx0 + destinationRegion.width && dy0 <= y < dy0 + dy) ||
                 (dx0 <= x < dx0 + dx && y == dy0 + dy)
              then source[x - dx0 + sx0, y - dy0 + sy0]
              else old(destination[x, y])
        {
          destination[dx0 + dx, dy0 + dy] := source[sx0 + dx, sy0 + dy];
        }
      }
    }

    /**
     * Builds the wallpaper of a source image that passed the size gate.
     * Without bezels the source itself is the wallpaper; otherwise a bitmap
     * of the cropped width is filled screen by screen, left to right.
     */
    method CreateWallpaper(source: array2<Pixel>) returns (wallpaper: array2<Pixel>)
      requires Valid()
      requires source.Length0 == totalMonitorWidth && source.Length1 == maximumMonitorHeight
      ensures IsWallpaperOf(screens, bezelWidth, source, wallpaper)
      ensures bezelWidth == 0 ==> wallpaper == source
      ensures bezelWidth > 0 ==> fresh(wallpaper)
    {
      if bezelWidth <= 0 {
        SourceIsItsOwnWallpaper(screens, source);
        return source;
      }

      var croppedWidth := totalMonitorWidth - (displayCount - 1) * (bezelWidth * 2);
      assert croppedWidth == CroppedWidth(screens, bezelWidth);
      wallpaper := new Pixel[croppedWidth, maximumMonitorHeight];

      CopyScreens(source, wallpaper);
    }

    /**
     * The copy loop of CreateWallpaper: walks the screens left to right with
     * a source origin that advances by each screen's width plus two bezels
     * and a wallpaper origin that advances by the width alone, copying each
     * screen's full-height region across.
     */
    method CopyScreens(source: array2<Pixel>, wallpaper: array2<Pixel>)
      requires displayCount == |screens| > 0 && maximumMonitorHeight == MaxHeight(screens)
      requires source != wallpaper
      requires source.Length0 == ExpectedWidth(screens, bezelWidth) && source.Length1 == maximumMonitorHeight
      requires wallpaper.Length0 == SumWidths(screens) && wallpaper.Length1 == maximumMonitorHeight
      modifies wallpaper
      ensures forall x, y :: 0 <= x < wallpaper.Length0 && 0 <= y < wallpaper.Length1 ==>
        wallpaper[x, y] == source[SourceColumn(screens, bezelWidth, x), y]
    {
      var area := (screens[0].width, maximumMonitorHeight);
      var sourceRegion := Rect(0, 0, area.0, area.1);
      var destinationRegion := Rect(0, 0, area.0, area.1);

      var monitorOrigin, displayOrigin := 0, 0;
      OffsetsAtEnds(screens, bezelWidth);
      for i := 0 to displayCount
        invariant monitorOrigin == SourceOffset(screens, bezelWidth, i)
        invariant displayOrigin == DestinationOffset(screens, i) <= wallpaper.Length0
        invariant sourceRegion.y == destinationRegion.y == 0
        invariant sourceRegion.height == destinationRegion.height == maximumMonitorHeight
        invariant forall x, y :: 0 <= x < displayOrigin && 0 <= y < wallpaper.Length1 ==>
          wallpaper[x, y] == source[SourceColumn(screens, bezelWidth, x), y]
      {
        sourceRegion := sourceRegion.(x := monitorOrigin, width := screens[i].width);
        destinationRegion := destinationRegion.(x := displayOrigin, width := screens[i].width);
        AcceptedRegionsInside(screens, bezelWidth, source.Length0, source.Length1, i);

        CopyRegionIntoImage(source, sourceRegion, wallpaper, destinationRegion);

        forall x, y | 0 <= x < displayOrigin + screens[i].width && 0 <= y < wallpaper.Length1
          ensures wallpaper[x, y] == source[SourceColumn(screens, bezelWidth, x), y]
        {
          if displayOrigin <= x {
            MonitorAtUnique(screens, x, i);
          }
        }

        var currentMonitorWidth := screens[i].width + bezelWidth * 2;
        var currentDisplayWidth := screens[i].width;
        OffsetsAdvance(screens, bezelWidth, i);
        monitorOrigin := monitorOrigin + currentMonitorWidth;
        displayOrigin := displayOrigin + currentDisplayWidth;
      }
    }

    /**
     * One iteration of the loop over dropped images: an image whose size
     * differs from the expected source size is skipped, any other is turned
     * into its wallpaper.
     */
    method ProcessFile(sourceBitmap: array2<Pixel>) returns (outcome: Outcome)
      requires Valid()
      ensures Handled(screens, bezelWidth, sourceBitmap, outcome)
    {
      if sourceBitmap.Length0 != totalMonitorWidth || sourceBitmap.Length1 != maximumMonitorHeight {
        return Skipped;
      }
      var wallpaper := CreateWallpaper(sourceBitmap);
      return Wallpapered(wallpaper);
    }

    /**
     * Handles the dropped images in order, one outcome each; a skipped image
     * does not stop the images after it.
     */
    method ProcessFiles(sources: seq<array2<Pixel>>) returns (outcomes: seq<Outcome>)
      requires Valid()
      ensures |outcomes| == |sources|
      ensures forall k :: 0 <= k < |sources| ==> Handled(screens, bezelWidth, sources[k], outcomes[k])
    {
      outcomes := [];
      for k := 0 to |sources|
        invariant |outcomes| == k
        invariant forall j :: 0 <= j < k ==> Handled(screens, bezelWidth, sources[j], outcomes[j])
      {
        var outcome := ProcessFile(sources[k]);
        outcomes := outcomes + [outcome];
      }
    }
  }
}
