// Worked configurations: three equal screens with a 10-pixel bezel, and two
// screens of different widths without a bezel.

module Scenarios {
  import opened Geometry

  function ThreeScreens(): seq<Screen>
  {
    [Screen(1920, 1080), Screen(1920, 1080), Screen(1920, 1080)]
  }

  function TwoMixedScreens(): seq<Screen>
  {
    [Screen(2560, 1440), Screen(1080, 1440)]
  }

  /** Three 1920x1080 screens, bezel 10: a 5800x1080 source becomes a 5760x1080 wallpaper. */
  lemma ThreeScreensLayout()
    ensures ExpectedWidth(ThreeScreens(), 10) == 5800
    ensures MaxHeight(ThreeScreens()) == 1080
    ensures CroppedWidth(ThreeScreens(), 10) == 5760
    ensures Accepts(ThreeScreens(), 10, 5800, 1080)
    ensures SourceOffset(ThreeScreens(), 10, 1) == 1940 && SourceOffset(ThreeScreens(), 10, 2) == 3880
    ensures DestinationOffset(ThreeScreens(), 1) == 1920 && DestinationOffset(ThreeScreens(), 2) == 3840
  {
    var s := ThreeScreens();
    assert s[..1][..0] == [];
    assert s[..2][..1] == s[..1];
    assert s[..3] == s && s[..2] == s[..3][..2];
    assert SumWidths(s[..1]) == 1920;
    assert SumWidths(s[..2]) == 3840;
    assert s[..2] == s[..|s| - 1];
    assert s[..1] == s[..2][..1];
  }

  /** With the same screens, an image already cropped to 5760 columns is refused by the size gate. */
  lemma ThreeScreensRejectCroppedImage()
    ensures !Accepts(ThreeScreens(), 10, 5760, 1080)
  {
    ThreeScreensLayout();
  }

  /** Wallpaper column 2000 lies on the second screen and comes from source column 2020. */
  lemma ThreeScreensColumnMapping()
    ensures 2000 < SumWidths(ThreeScreens())
    ensures MonitorAt(ThreeScreens(), 2000) == 1
    ensures SourceColumn(ThreeScreens(), 10, 2000) == 2020
  {
    ThreeScreensLayout();
    OffsetsAdvance(ThreeScreens(), 10, 1);
    MonitorAtUnique(ThreeScreens(), 2000, 1);
  }

  /** Screens 2560 and 1080 wide, no bezel: source and wallpaper are both 3640 columns and align. */
  lemma TwoMixedScreensLayout(x: nat)
    requires x < 3640
    ensures ExpectedWidth(TwoMixedScreens(), 0) == CroppedWidth(TwoMixedScreens(), 0) == 3640
    ensures MaxHeight(TwoMixedScreens()) == 1440
    ensures SourceColumn(TwoMixedScreens(), 0, x) == x
  {
    var s := TwoMixedScreens();
    assert s[..1] == s[..|s| - 1];
    assert s[..1][..0] == [];
    ZeroBezelIsIdentity(s, x);
  }
}
