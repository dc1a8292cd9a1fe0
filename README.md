# Wallpaperer droplet: bezel removal, modelled in Dafny

The Wallpaperer droplet takes an image that spans a single horizontal row of
monitors, including the dead space behind the monitor bezels. It produces a
wallpaper with those bezel columns cut out, so the picture looks continuous
through the gaps between the screens. This project models the droplet's
geometry and pixel copy, and proves its properties:

- `geometry.dfy` (module `Geometry`) holds the layout as pure functions over
  the ordered screen list and the bezel width:
  - the expected source width and height;
  - the size gate;
  - the cropped wallpaper width;
  - each screen's source and destination offsets;
  - the column mapping from wallpaper to source.

  Its lemmas cover offset advance, disjointness, gapless tiling, bounds and
  the zero-bezel identity.
- `droplet.dfy` (module `Droplet`) holds class `Program`:
  - its `const` fields stand for the static read-only fields;
  - its constructor runs the static constructor's accumulation loop;
  - `CopyRegionIntoImage` copies one region pixel by pixel;
  - `CreateWallpaper` returns the source when there is no bezel, and otherwise allocates the wallpaper and has `CopyScreens` run the screen-by-screen copy loop;
  - `ProcessFile` is one pass of `Main`'s loop over dropped images, with the size gate;
  - `ProcessFiles` runs that pass over every image, and a skipped image does not stop the rest.

  Bitmaps are `array2<bv32>` indexed `[x, y]`.
- `scenarios.dfy` (module `Scenarios`) works through two concrete cases. One has three 1920×1080 screens with a 10-pixel bezel. The other has 2560- and 1080-wide screens without a bezel.

Inputs that the original reads from its environment become parameters:
- the screen list (`Screen.AllScreens`) and the bezel width setting are the constructor's arguments;
- decoded bitmaps are the arguments of `ProcessFiles`.

Screens may differ in height. The code takes the maximum screen height, uses it in the size gate and for the wallpaper, and copies every screen's region at that full height. Every screen is taken to have a positive width and height, as the screens the system reports do; the constructor requires this and `Valid` records it.

## Model

| member | source | states |
|---|---|---|
| Geometry.ExpectedWidth | Droplet/Program.cs:29-35 | definition: sum of widths + bezel·((count−1)·2); at least the sum of widths when there is a screen, −2·bezel with none, the one width with one screen |
| Geometry.Accepts | Droplet/Program.cs:60 | definition: width == ExpectedWidth and height == MaxHeight; an accepted size has a screen or no bezel, is at least as tall as every screen and at least as wide as the widths' sum |
| Geometry.DestinationOffset | Droplet/Program.cs:100-120 | definition: displayOrigin before screen i is sum(widths[0..i)); 0 for the first screen and the whole sum after the last |
| Geometry.SourceOffset | Droplet/Program.cs:100-119 | definition: monitorOrigin before screen i is sum(widths[0..i)) + 2·bezel·i; never left of the destination origin, and equal to it for the first screen or without a bezel |
| Geometry.SourceRegion | Droplet/Program.cs:104-106 | definition: Rect(SourceOffset(i), 0, width_i, height); lies inside a bitmap of the expected source width |
| Geometry.DestinationRegion | Droplet/Program.cs:109-111 | definition: Rect(DestinationOffset(i), 0, width_i, height); lies inside a bitmap of the wallpaper width |
| Geometry.WallpaperNotEmpty | Droplet/Program.cs:90-91 | with at least one screen of positive size, the wallpaper bitmap allocated is never 0 wide or 0 high |
| Droplet.IsWallpaperOf | Droplet/Program.cs:84-124 | definition: the source has the expected size, the image is SumWidths × MaxHeight, and pixel (x, y) equals source pixel (SourceColumn(x), y); such a source always passes the size gate |
| Geometry.MaxHeight | Droplet/Program.cs:29-34 | the accumulated height is at least every screen's height and equals one of them (0 with no screens) |
| Geometry.CroppedWidth | Droplet/Program.cs:90 | the wallpaper width equals the plain sum of the screen widths; with one screen it equals the expected source width and that screen's width |
| Geometry.OffsetsAdvance | Droplet/Program.cs:116-120 | from screen i to i+1 the destination origin grows by screen i's width and the source origin by that width plus 2·bezel, so consecutive source regions are exactly 2·bezel apart |
| Geometry.PrefixGrowth | Droplet/Program.cs:100-120 | a screen's wallpaper region ends no later than where any later screen's region starts |
| Geometry.RegionsDisjoint | Droplet/Program.cs:104-111 | regions of different screens never overlap, in the wallpaper or in the source, and in the source they are at least 2·bezel apart |
| Geometry.OffsetsStrictlyIncreasing | Droplet/Program.cs:100-120 | with positive screen widths both running origins strictly increase with the screen index |
| Geometry.OffsetsAtEnds | Droplet/Program.cs:35 | both origins start at 0; the destination origin after the last screen is the cropped width; the last source region ends at the expected source width |
| Geometry.MonitorAt | Droplet/Program.cs:109-111 | every wallpaper column below the sum of widths lies in the wallpaper region of the screen returned |
| Geometry.MonitorAtUnique | Droplet/Program.cs:109-111 | a column in screen i's wallpaper region is assigned to screen i and to no other |
| Geometry.DestinationRegionsTile | Droplet/Program.cs:90-91 | a column is covered by some screen's wallpaper region iff it lies in [0, croppedWidth), and by at most one |
| Geometry.SourceColumn | Droplet/Program.cs:104-106 | a wallpaper column's source column lies in its screen's source region, at the same distance from that region's start, and inside the expected source width |
| Geometry.SourceRegionInBounds | Droplet/Program.cs:29-35 | every screen's source region ends within the expected source width |
| Geometry.AcceptedRegionsInside | Droplet/Program.cs:60 | for an image that passes the size gate, every source region lies inside the image and every destination region inside the wallpaper |
| Geometry.ZeroBezelIsIdentity | Droplet/Program.cs:86-87 | without a bezel the wallpaper width equals the source width and every wallpaper column maps to the same source column |
| Droplet.WallpaperMatchesEachScreen | Droplet/Program.cs:113 | in a wallpaper, pixel (displayOrigin_i + dx, y) equals source pixel (monitorOrigin_i + dx, y) for every screen i |
| Droplet.SourceIsItsOwnWallpaper | Droplet/Program.cs:86-87 | without a bezel, an image of the expected size satisfies the wallpaper property itself, so returning it unchanged agrees with the copy loop |
| Droplet.Program.constructor | Droplet/Program.cs:21-36 | the total width is the sum of screen widths plus 2·bezel·(count−1); the height is the maximum screen height; the count is the number of screens |
| Droplet.Program.CopyRegionIntoImage | Droplet/Program.cs:163-168 | each destination-region pixel receives the source pixel at the same offset in the source region; every other destination pixel is unchanged |
| Droplet.Program.CreateWallpaper | Droplet/Program.cs:84-124 | the result is the source's wallpaper (IsWallpaperOf); without a bezel it is the source itself, otherwise a newly allocated bitmap |
| Droplet.Program.CopyScreens | Droplet/Program.cs:94-121 | after the loop over both running origins, every wallpaper pixel is the source pixel at its mapped column |
| Droplet.Program.ProcessFile | Droplet/Program.cs:57-66 | an image is skipped iff its width or height differs from the expected source size; an image that is not skipped yields its wallpaper |
| Droplet.Program.ProcessFiles | Droplet/Program.cs:51-77 | one outcome per image, in order, each as ProcessFile states; a skipped image does not stop the ones after it |
| Scenarios.ThreeScreensLayout | Droplet/Program.cs:29-35 | three 1920-wide screens with bezel 10 expect a 5800×1080 source, crop to 5760, and have source origins 0/1940/3880 and destination origins 0/1920/3840 |
| Scenarios.ThreeScreensRejectCroppedImage | Droplet/Program.cs:60 | that configuration refuses a 5760×1080 image |
| Scenarios.ThreeScreensColumnMapping | Droplet/Program.cs:104-113 | wallpaper column 2000 belongs to the second screen and comes from source column 2020 |
| Scenarios.TwoMixedScreensLayout | Droplet/Program.cs:86-87 | 2560- and 1080-wide screens without a bezel give equal 3640-wide source and wallpaper, with columns mapped to themselves |

## Left out

- File handling in `Main` is not modelled: path building, decoding the bitmap from disk, and saving the result as JPEG at the configured quality (Droplet/Program.cs:51-76). This is disk I/O and codec work. Decoded bitmaps are parameters, and outcomes are returned instead of saved.
- `GetEncoderInfo`: a lookup in the platform's codec registry, which is a foreign call.
- `DisplayInstructions` and the message shown for an empty argument list or a mis-sized image: this is UI. A skipped image is the `Skipped` outcome. An empty argument list yields no outcomes.
- The `JPEGQuality` setting is used only by the JPEG encoder.
- `Clone` and the single-rectangle `CopyRegionIntoImage` overload are never called.
- `Droplet.Program.CopyRegionIntoImage` requires equal-size rectangles that lie inside their bitmaps, and two distinct bitmaps. The drawing library's clipping, scaling, interpolation and pixel-format handling are not modelled. The only caller always meets these conditions, as `Geometry.AcceptedRegionsInside` shows.
- `Droplet.Program.CreateWallpaper` requires an image that passed the size gate. In the original it is only called after that gate.
- An empty screen list is accepted by the constructor, though the system always reports at least one screen. With no screens and no bezel, the gate accepts only a 0×0 image, which is returned unchanged. Decoding cannot produce such an image, and the exception that constructing a 0-sized bitmap would raise is not modelled. With at least one screen, `Geometry.WallpaperNotEmpty` shows that the allocated wallpaper is never 0-sized.
- `Droplet.Program.constructor`: the counts and widths are unbounded integers. The `Byte` cast of the screen count, the `Byte` bezel setting and `Int32` overflow are not modelled. With no screens, the count minus one is −1, as in the original's signed arithmetic.
- `Math.Max(i, i - 1)` at lines 116-117 is always `i` and is written as `i`.
- Settings and screen topology are not read from the environment. They are constructor parameters.
