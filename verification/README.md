# rn-app-icon-generator: the icon planning logic in Dafny

rn-app-icon-generator is a command-line tool for React Native projects. It takes one
square source icon and writes the launcher icons both platforms need:

- On Android it writes, for each of five density buckets, a square icon and a round icon.
  It also writes an adaptive foreground, whose padded icon can be cut by an optional mask.
  Then it writes the `mipmap-anydpi-v26/ic_launcher.xml` document and, when needed,
  adds the `ic_launcher_background` colour to `colors.xml`.
- On iOS it writes one image per slot of a fixed size catalog into `AppIcon.appiconset`.
  It also writes a `Contents.json` manifest with one entry per idiom (iphone, ipad,
  ios-marketing) of each slot.

This project models the planning logic as pure functions:

- the size tables;
- idiom classification and file naming;
- the manifest;
- padding and centring of the adaptive foreground;
- the mask decision;
- the `colors.xml` patch;
- project discovery (icon search, iOS project name);
- argument parsing, the colour check, and the order of checks and early exits in the command.

Each generator returns its effects as a value: a sequence of `Action`s (create a folder,
write an image, write text, write JSON). The image library's pipelines are abstract `Image`
terms such as `Resize`, `Flatten` and `Composite`. The file system, the image library's
answers and the prompt's answers are parameters.

Modules, one per source file plus shared helpers:

- `Specs` (`core/specs.js`)
- `IosIcons` (`core/ios-icon-generator.js`)
- `AndroidIcons` (`core/android-icon-generator.js`)
- `ImageValidator` (`core/image-validator.js`)
- `PathHelper` (`core/path-helper.js`)
- `Cli` (`bin/index.js`)
- the helpers: `Plan` (actions and image terms), `Text` (the JavaScript string
  operations used), `Paths` (`path.join` / `path.resolve`) and `Wrappers` (`Option`,
  `find`).

Two counts follow from the catalog:

- Three slots (20, 29 and 40 points at 2x) are both iPhone and iPad, so the manifest has
  15 + 3 = 18 entries (`IosIcons.ShippedManifestSize`).
- The file name carries both the size and the scale, so the 15 slots give 15 distinct
  files (`IosIcons.ShippedIosImages`, `IosIcons.FileNameInjective`).

Behaviour of the code that the model keeps and states:

- The background given with `--background` is checked against `^#([0-9a-fA-F]{3}){1,2}$`.
  The prompt's answer then replaces it, and that answer is never checked. A run can
  therefore generate every icon over "red" (`Cli.PromptedColourNotChecked`).
- `PatchColors` expands `$` patterns in the colour as `String.replace` does
  (`AndroidIcons.PatchColorsExpandsDollarPatterns`). A run cannot reach this, because the
  image library parses the same background at the first `flatten` and rejects any string
  holding `$`.
- The mask flag is set before the mask is resized. A failed resize therefore leaves the
  flag set with no buffer, and no mask layer is added (`Cli.LoadMask`,
  `AndroidIcons.ForegroundLayers`).
- A flag consumes the next argument only when that argument is non-empty. An empty one is
  then read as a positional: `--background "" icon.png` takes the working directory as the
  icon path and ignores `icon.png` (`Cli.EmptyValueNotTaken`, `Cli.EmptyValueBecomesIcon`),
  and `--background #000 --background ""` keeps `#000` (`Cli.LastFlagWins`).
- `colors.xml` is always looked up in `android/app/src/main/res/values`, even when an
  output directory is given (`AndroidIcons.ColorsPatchIgnoresOutputDir`).

## Model

| member | source | states |
|---|---|---|
| Specs.AndroidTablesShareFolders | core/specs.js:2-17 | the legacy and adaptive tables list the same five distinct folders in the same order |
| Specs.AdaptiveIsNineQuartersOfLegacy | core/specs.js:2-17 | each adaptive canvas is 9/4 of the legacy icon of its bucket (108 = 48 x 2.25 and so on) |
| Specs.AndroidTablesIncreasing | core/specs.js:2-17 | both Android tables grow strictly from mdpi to xxxhdpi |
| Specs.IosCatalogShape | core/specs.js:21-37 | the iOS catalog has 15 distinct slots; every scale is 1, 2 or 3; every pixel size (83.5 x 2 included) is a whole number |
| IosIcons.GetIdioms | core/ios-icon-generator.js:9-35 | 1024 at 1x is marketing only; otherwise iphone is present iff the slot is in the iPhone table and ipad iff it is in the iPad table; there are no duplicates, and iphone comes before ipad |
| IosIcons.IdiomExamples | core/ios-icon-generator.js:9-35 | 60@2x is iphone only, 76@1x ipad only, 29@2x both, 83.5@2x ipad, 1024@2x none |
| IosIcons.ParseFileNameOfFileName | core/ios-icon-generator.js:53 | `icon-{size}x{size}@{scale}x.png` reads back into the slot it was made from, 83.5 included |
| IosIcons.FileNameInjective | core/ios-icon-generator.js:53 | distinct slots never share a file name |
| IosIcons.NoSeparatorInHalves | core/ios-icon-generator.js:53 | a rendered point size holds no `x` or `@`, so the file name's separators are unambiguous |
| IosIcons.EntriesFor | core/ios-icon-generator.js:62-69 | one manifest entry per idiom, in idiom order, each naming the slot's file, size string and scale string |
| IosIcons.ManifestAppend | core/ios-icon-generator.js:50-70 | the manifest of a concatenated catalog is the concatenation of the manifests |
| IosIcons.ManifestLength | core/ios-icon-generator.js:50-70 | the manifest has exactly as many entries as there are idioms over all slots |
| IosIcons.ManifestInCatalogOrder | core/ios-icon-generator.js:50-70 | slot i's entries form one block, after the entries of all earlier slots and before those of all later slots |
| IosIcons.ManifestEntriesNameTheirSlot | core/ios-icon-generator.js:50-70 | every entry's file name parses to a slot of the catalog, and the entry carries that slot's size, scale and one of its idioms |
| IosIcons.EntriesJson | core/ios-icon-generator.js:73-79 | one JSON object per manifest entry |
| IosIcons.EntriesOfEntriesJson | core/ios-icon-generator.js:73-79 | the JSON image list reads back into exactly the entries it was built from |
| IosIcons.ContentsRoundTrip | core/ios-icon-generator.js:73-83 | Contents.json carries exactly the collected entries, in order, with the info block version 1 / author xcode |
| IosIcons.AppIconRoot | core/ios-icon-generator.js:42-44 | a non-empty output directory is used as given; otherwise `ios/<project>/Images.xcassets/AppIcon.appiconset` resolved against the working directory |
| IosIcons.ImageSteps | core/ios-icon-generator.js:50-60 | one image write per slot in catalog order, whatever the slot's idioms, each the icon resized to point size x scale and flattened over the background |
| IosIcons.ImageStepsAreImages | core/ios-icon-generator.js:50-60 | the slot loop writes exactly one image per slot |
| IosIcons.IosRunShape | core/ios-icon-generator.js:38-86 | the folder is created first, then each slot's image, then Contents.json with the manifest; one image per slot |
| IosIcons.IosWritesUnderRoot | core/ios-icon-generator.js:42-83 | every file an iOS run writes (the slot images and Contents.json) lies inside the icon set folder |
| IosIcons.ShippedIosImages | core/ios-icon-generator.js:38-86 | over the shipped catalog a run writes 15 images, all to distinct files |
| IosIcons.ShippedIdiomCounts | core/ios-icon-generator.js:9-35 | every shipped slot has an idiom, and exactly 20, 29 and 40 points at 2x have two |
| IosIcons.ShippedIdiomTable | core/ios-icon-generator.js:9-35 | the idiom count of each shipped slot, in catalog order |
| IosIcons.ShippedIdiomsSum | core/specs.js:21-37 | the per-slot idiom counts add up to 18 |
| IosIcons.IdiomTotalBySlot | core/ios-icon-generator.js:50-70 | the idiom total of a catalog is the sum of its per-slot counts |
| IosIcons.ShippedManifestSize | core/ios-icon-generator.js:50-83 | the shipped manifest has 18 entries |
| AndroidIcons.PaddedSize | core/android-icon-generator.js:8-49 | the padded side is the floor of size x 0.55 and never exceeds the canvas |
| AndroidIcons.PaddingCentresIcon | core/android-icon-generator.js:49-55 | the resized icon at the offset fits inside the canvas, and the far margin is the near one or one more |
| AndroidIcons.ShippedPadding | core/android-icon-generator.js:49-55 | padded sides 59, 89, 118, 178, 237 for the five canvases; at 432 the offset is 97 and the far margin 98 |
| AndroidIcons.RoundMask | core/android-icon-generator.js:33-35 | the round icon's circle is inscribed in the size x size square |
| AndroidIcons.ReadAttrsOfAttrs | core/android-icon-generator.js:33-35 | attribute values without a quote, written in the template's `name="value"` form, read back exactly, together with the text after them |
| AndroidIcons.CircleSvgDrawsRoundMask | core/android-icon-generator.js:33-40 | the SVG the round icon is cut with reads back as a size x size document holding exactly the inscribed circle `RoundMask(size)` (centre and radius size/2, as JavaScript renders it) |
| AndroidIcons.ForegroundLayers | core/android-icon-generator.js:58-76 | the first layer is the icon resized to the padded side, placed at (offset, offset); a second layer exists iff the mask is valid and a buffer exists, and it is the mask resized to the canvas with blend dest-in |
| AndroidIcons.LegacySteps | core/android-icon-generator.js:22-41 | per bucket: the folder, then the square icon flattened over the background, then the round icon cut by the circle and flattened, in table order |
| AndroidIcons.AdaptiveSteps | core/android-icon-generator.js:44-92 | per bucket: the folder, then `ic_launcher_foreground.png`, the layers composited on a size x size canvas of the background colour |
| AndroidIcons.LegacyImageCount | core/android-icon-generator.js:22-41 | the legacy loop writes two images per bucket |
| AndroidIcons.AdaptiveImageCount | core/android-icon-generator.js:44-92 | the adaptive loop writes one image per bucket |
| AndroidIcons.AdaptiveXmlReferences | core/android-icon-generator.js:95-100 | the adaptive-icon XML points at the colour resource the patch defines and at the foreground the loop writes |
| AndroidIcons.ColorEntryHeadIsLiteral | core/android-icon-generator.js:109 | the fixed parts of the replacement text hold no `$` pattern |
| AndroidIcons.PatchColors | core/android-icon-generator.js:106-110 | unchanged when the content already mentions `ic_launcher_background` or has no `</resources>`; otherwise the first `</resources>` is replaced by the colour entry (literally when the background has no `$`); afterwards the content names the colour iff it already did or it had the closing tag |
| AndroidIcons.PatchColorsInserts | core/android-icon-generator.js:106-110 | with a `$`-free background the colour entry lands just before the first closing tag and nothing else changes |
| AndroidIcons.ExpandedColorEntry | core/android-icon-generator.js:107-110 | the expansion of the replacement starts with the literal colour-name head, and with a `$`-free background is the entry itself |
| AndroidIcons.NamedAfterPatch | core/android-icon-generator.js:106-110 | any text holding the inserted head names the colour resource |
| AndroidIcons.PatchColorsIdempotent | core/android-icon-generator.js:103-113 | patching a second time, with any background, changes nothing |
| AndroidIcons.PatchColorsExpandsDollarPatterns | core/android-icon-generator.js:107-110 | a background of `$&` would write the matched `</resources>` where the colour value should be |
| AndroidIcons.AndroidRoot | core/android-icon-generator.js:19 | a non-empty output directory is used as given; otherwise `android/app/src/main/res` resolved against the working directory |
| AndroidIcons.ColorsSteps | core/android-icon-generator.js:103-113 | at most one write; there is one iff colors.xml exists and does not mention the colour name, and it writes the patched content |
| AndroidIcons.AndroidRunShape | core/android-icon-generator.js:11-117 | a run is the legacy loop (15 steps), the adaptive loop (10 steps), the XML folder and file, then the colors.xml step; 15 images in all |
| AndroidIcons.LegacyWritesUnder | core/android-icon-generator.js:22-41 | every file the legacy loop writes lies inside the root |
| AndroidIcons.AdaptiveWritesUnder | core/android-icon-generator.js:44-92 | every file the adaptive loop writes lies inside the root |
| AndroidIcons.AndroidWritesUnderRoot | core/android-icon-generator.js:19-113 | every file the run writes lies inside the output root, except the colors.xml patch, which is always written to the app's own `values/colors.xml` |
| AndroidIcons.ColorsPatchIgnoresOutputDir | core/android-icon-generator.js:103 | the colors.xml step is the same for every output directory |
| ImageValidator.ValidateImage | core/image-validator.js:4-14 | accepted iff the image is readable, square and at least 1024 pixels wide; an unreadable file is rejected |
| ImageValidator.ValidationExamples | core/image-validator.js:4-14 | 1023 square and non-square images are rejected; 1024 square is accepted |
| ImageValidator.ValidImagesAreLargeSquares | core/image-validator.js:8 | an accepted image is square, and any larger square is accepted too |
| PathHelper.WalkIsFirstPreorderMatch | core/path-helper.js:8-35 | the walk returns the first file, in depth-first pre-order, whose name equals the target ignoring case |
| PathHelper.FindIconPathSpec | core/path-helper.js:8-35 | the search finds nothing iff no file matches; otherwise it returns the path of a matching file, and no earlier file in pre-order matches |
| PathHelper.DiscoveryExamples | core/path-helper.js:8-35 | a directory named `app_icon.png` is never returned; a match deep in the first subdirectory wins over a later sibling, whatever its case |
| PathHelper.FindIosFolderName | core/path-helper.js:41-46 | a name is found iff the `ios` listing exists and holds an entry ending in `.xcodeproj`; the first such entry is used, with its first `.xcodeproj` removed |
| PathHelper.FindIosFolderNameStripsSuffix | core/path-helper.js:41-46 | for a project entry `Name.xcodeproj` after non-project entries, where Name itself holds no `.xcodeproj`, the name found is Name |
| PathHelper.DottedIosFolderName | core/path-helper.js:41-46 | `My.App.xcodeproj` gives `My.App`: dots in the project name are kept |
| PathHelper.IosFolderNameDropsFirstOccurrence | core/path-helper.js:44 | `a.xcodeprojb.xcodeproj` gives `ab.xcodeproj`: the first occurrence of `.xcodeproj` is removed, not the suffix |
| Cli.FlagOf | bin/index.js:27-32 | the four flags are recognised exactly by name |
| Cli.SetFlag | bin/index.js:27-32 | a flag sets its own setting (mask and output resolved, colour and platform as given) and no other |
| Cli.ParseDefaults | bin/index.js:18-22 | with no arguments: no icon, background `#ffffff`, platform `all`, no mask, no output |
| Cli.ReachSplit | bin/index.js:25-33 | parsing is parsing up to any position the loop passes, then continuing from there |
| Cli.ReachNext | bin/index.js:25-33 | from a position the loop reaches, one more turn reaches the next position with the settings of one more step |
| Cli.IconPathKept | bin/index.js:26 | once an icon path is set, no later argument changes it |
| Cli.FirstPositionalIsIcon | bin/index.js:25-33 | the first non-flag argument the loop reads becomes the icon path, resolved against the working directory |
| Cli.SettingKeptUnlessTaken | bin/index.js:25-33 | a flag's setting changes only where the loop meets the flag's name followed by a non-empty argument; occurrences with no value or an empty one leave it alone |
| Cli.SettingKept | bin/index.js:25-33 | arguments other than a flag's own name never change that flag's setting |
| Cli.LastFlagWins | bin/index.js:25-33 | the last occurrence of a flag that takes a non-empty value decides its setting, over earlier occurrences, later occurrences without a value or with an empty one, and any other arguments |
| Cli.EmptyValueNotTaken | bin/index.js:27-32 | a flag followed by an empty argument takes no value: the loop goes on to the empty argument, and all settings are as before the flag |
| Cli.EmptyValueBecomesIcon | bin/index.js:26-32 | that empty argument is then read as the first positional when no icon path is set: the icon path becomes the working directory (`path.resolve("")`) and any later positional is ignored |
| Cli.EmptyValueExamples | bin/index.js:25-33 | `--background #000 --background ""` keeps `#000`; `--background "" icon.png` keeps the default colour and takes the working directory as the icon path |
| Cli.TrailingFlagAgrees | bin/index.js:27-32 | a flag without a value at the end leaves parsing as it is without it, from any position the loop passes |
| Cli.TrailingFlagIgnored | bin/index.js:27-32 | a flag left without a value at the end is ignored |
| Cli.IsHexColour | bin/index.js:40 | accepted iff `#` followed by 3 or 6 hexadecimal digits |
| Cli.ColourExamples | bin/index.js:40 | `#fff`, `#FFFFFF` are accepted; `red`, `#ff`, `#ffff`, `#gggggg`, `fff`, 7 digits are rejected |
| Cli.MaskSizeIsLargestAdaptive | bin/index.js:89 | the mask is resized once to 432, the largest adaptive canvas |
| Cli.LoadMask | bin/index.js:80-100 | the mask flag is set iff a mask path is given, readable, and a PNG with alpha or an SVG; a buffer exists iff the flag is set and the resize succeeded, and it is the mask resized to 432 x 432 |
| Cli.MaskExamples | bin/index.js:83-99 | JPEG and alpha-less PNG masks are ignored, PNG with alpha and SVG accepted, an unreadable mask ignored |
| Cli.Check | bin/index.js:40-107 | the run passes its checks iff the CLI colour is valid, an icon is found, it validates, and an iOS project exists when iOS is wanted |
| Cli.Run | bin/index.js:35-129 | icons are generated iff the checks pass; Android runs iff the platform is android or all, iOS iff ios or all; each generator gets the prompted answers, the mask state and the icon used |
| Cli.RunExits | bin/index.js:40-107 | the checks run in order and the first that fails decides the exit: colour, icon found, icon valid, iOS project |
| Cli.MaskNeverAborts | bin/index.js:83-100 | whether icons are generated does not depend on the mask |
| Cli.ArgumentsOnlyGuard | bin/index.js:40-53 | for the same prompt answers, two argument lists that both pass the colour check give the same run |
| Cli.PromptedColourNotChecked | bin/index.js:50 | a run whose prompted background is `red` generates the Android icons over `red` |
| Text.NatToString | core/ios-icon-generator.js:53 | an integer is rendered as a non-empty string of digits with no leading zero |
| Text.ParseNatOfNatToString | core/ios-icon-generator.js:53 | a rendered integer reads back as itself |
| Text.ParseHalvesOfHalvesToString | core/ios-icon-generator.js:53 | a rendered half-integer (`83.5`) reads back as itself |
| Text.HalvesToStringInjective | core/ios-icon-generator.js:53 | distinct point sizes render differently |
| Text.ReplaceFirst | core/android-icon-generator.js:107 | without an occurrence of the pattern the string is unchanged |
| Text.ReplaceFirstReplacesFirstOccurrence | core/android-icon-generator.js:107-110 | when the pattern occurs, its first occurrence is replaced by the template with its `$` patterns expanded for that match, and the text before and after is kept |
| Text.SubstituteLiteral | core/android-icon-generator.js:107 | a replacement without `$` is inserted literally |
| Text.Lower | core/path-helper.js:26 | lower-casing keeps the length and maps each character |

## Left out

- Pixels: resizing, flattening, compositing and encoding belong to the image library.
  They are abstract `Image` terms, so the model states which operations are applied,
  with which sizes and in the order the code chains them, but not the pixels they produce.
- File-system and library failures: a thrown error ends the command via the top-level
  catch (bin/index.js:136-139). The model's generators never fail; the existence of
  `colors.xml`, directory listings and image metadata are inputs.
- The interactive prompt (core/prompter.js is not part of this model): its answers are
  the `Prompted` input. The prompt's answers are not related to the parsed settings:
  the program hands the parsed icon path, mask and output directory to the prompt, which
  returns a given icon path and output directory unchanged, but in the model those parsed
  settings feed nothing. The model therefore also does not state that a mask given on the
  command line is dropped by the prompt, or how the prompt trims and resolves paths.
- Colour parsing by the image library: `flatten` and `create` parse the background as a
  CSS colour and throw on a string they cannot parse, which ends the command through the
  top-level catch. The model's generators accept any background string.
- The header and footer printing, the spinners, coloured console output and the process
  exit codes: they have no effect on the files written.
- AndroidIcons.PaddedSize: Math.floor(size * 0.55) is computed in binary floating point.
  The model uses the exact floor of size x 55/100. The two agree on the five shipped
  canvases (`AndroidIcons.ShippedPadding`), but the model does not show that they agree
  for every size.
- Paths.Resolve and Paths.Join: path normalisation (`..`, `.`, repeated separators,
  Windows drives) is not modelled.
- Text.Lower: only ASCII letters are lower-cased, whereas JavaScript's toLowerCase maps
  all of Unicode.
- Text.NatToString: exponent notation for numbers of 10^21 and above is not modelled.
  Every size rendered is far below that.
- JSON layout: `writeJson` with two-space indentation is modelled as the JSON value
  written, not its text.
- Text.ReplaceFirst: patterns are plain strings. The one regular expression used,
  `/<\/resources>/`, matches exactly the literal closing tag.
