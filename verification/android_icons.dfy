/** The Android side: legacy square and round launcher icons per density bucket,
    adaptive foregrounds padded onto a larger canvas, the adaptive-icon XML, and the
    check-then-insert patch of the app's colors.xml. */
module AndroidIcons {
  import opened Wrappers
  import opened Text
  import opened Paths
  import opened Plan
  import opened Specs

  // ---------------------------------------------------------------------------
  // Adaptive padding

  /** The share of the adaptive canvas the icon occupies, in percent (a ratio of 0.55). */
  const PaddingPercent: nat := 55

  /** Side of the resized icon on an adaptive canvas: the floor of size * 0.55. */
  function PaddedSize(size: nat): (p: nat)
    ensures p <= size
    ensures p as real <= size as real * 0.55 < (p + 1) as real
  {
    var p := size * PaddingPercent / 100;
    assert 100 * p <= 55 * size < 100 * (p + 1);
    assert (100 * p) as real <= (55 * size) as real < (100 * (p + 1)) as real;
    p
  }

  /** The offset that centres the resized icon: floor((size - padded) / 2). */
  function CentreOffset(size: nat): nat {
    (size - PaddedSize(size)) / 2
  }

  /** The resized icon fits inside the canvas, with the far margin equal to the
      near one or one pixel wider. */
  lemma PaddingCentresIcon(size: nat)
    ensures 2 * CentreOffset(size) + PaddedSize(size) <= size
    ensures var far := size - CentreOffset(size) - PaddedSize(size);
      far == CentreOffset(size) || far == CentreOffset(size) + 1
  {
  }

  lemma ShippedPadding()
    ensures PaddedSize(108) == 59 && PaddedSize(162) == 89 && PaddedSize(216) == 118
    ensures PaddedSize(324) == 178 && PaddedSize(432) == 237
    ensures CentreOffset(432) == 97 && 432 - CentreOffset(432) - PaddedSize(432) == 98
  {
  }

  // ---------------------------------------------------------------------------
  // Round icon mask

  datatype Circle = Circle(cx: real, cy: real, r: real)

  /** The round icon's stencil: a circle inscribed in the size x size square. */
  function RoundMask(size: nat): (c: Circle)
    ensures c.cx - c.r == 0.0 && c.cx + c.r == size as real
    ensures c.cy - c.r == 0.0 && c.cy + c.r == size as real
  {
    Circle(size as real / 2.0, size as real / 2.0, size as real / 2.0)
  }

  /** An attribute as the template writes it: the text leading up to the opening quote,
      the value, the closing quote, then the rest of the document. */
  function Attr(lead: string, value: string, rest: string): string {
    lead + value + "\"" + rest
  }

  /** Several attributes in a row, followed by `tail`. */
  function Attrs(leads: seq<string>, values: seq<string>, tail: string): string
    requires |leads| == |values|
    decreases |leads|
  {
    if leads == [] then tail else Attr(leads[0], values[0], Attrs(leads[1..], values[1..], tail))
  }

  /** The text before each attribute value of the round-mask document. */
  const SvgLeads: seq<string> := ["<svg width=\"", " height=\"", "><circle cx=\"", " cy=\"", " r=\""]
  const SvgTail := " fill=\"white\" /></svg>"

  /** The SVG document that stencils the round icon: the size as width and height, and
      size/2, rendered as a JavaScript number, as centre and radius. */
  function CircleSvg(size: nat): string {
    var side := NatToString(size);
    var half := HalvesToString(size);
    Attr(SvgLeads[0], side, Attr(SvgLeads[1], side, Attr(SvgLeads[2], half,
      Attr(SvgLeads[3], half, Attr(SvgLeads[4], half, SvgTail)))))
  }

  /** Reads one attribute: the lead must come first, and the value runs to the next quote. */
  function ReadAttr(s: string, lead: string): Option<(string, string)> {
    if StartsWith(s, lead) then SplitAt(s[|lead|..], '"') else None
  }

  /** Reads the attributes led by `leads` in order, returning their values and what follows. */
  function ReadAttrs(s: string, leads: seq<string>): (r: Option<(seq<string>, string)>)
    ensures r.Some? ==> |r.value.0| == |leads|
    decreases |leads|
  {
    if leads == [] then Some(([], s))
    else match ReadAttr(s, leads[0])
      case None => None
      case Some((v, rest)) =>
        match ReadAttrs(rest, leads[1..])
        case None => None
        case Some((vs, tail)) => Some(([v] + vs, tail))
  }

  /** Reads a round-mask document back into its width, height and circle. */
  function ParseCircleSvg(s: string): Option<(nat, nat, Circle)> {
    match ReadAttrs(s, SvgLeads)
    case None => None
    case Some((vals, tail)) =>
      if tail != SvgTail then None
      else match (ParseNat(vals[0]), ParseNat(vals[1]), ParseHalves(vals[2]), ParseHalves(vals[3]), ParseHalves(vals[4]))
        case (Some(w), Some(h), Some(x), Some(y), Some(r)) =>
          Some((w, h, Circle(x as real / 2.0, y as real / 2.0, r as real / 2.0)))
        case _ => None
  }

  lemma ReadAttrOfAttr(lead: string, value: string, rest: string)
    requires '"' !in value
    ensures ReadAttr(Attr(lead, value, rest), lead) == Some((value, rest))
  {
    var s := Attr(lead, value, rest);
    assert s[..|lead|] == lead;
    assert s[|lead|..] == value + ['"'] + rest;
    SplitAtJoin(value, '"', rest);
  }

  /** Quote-free values written as attributes are read back exactly, with the tail. */
  lemma {:induction false} ReadAttrsOfAttrs(leads: seq<string>, values: seq<string>, tail: string)
    requires |leads| == |values|
    requires forall i :: 0 <= i < |values| ==> '"' !in values[i]
    ensures ReadAttrs(Attrs(leads, values, tail), leads) == Some((values, tail))
    decreases |leads|
  {
    if leads != [] {
      ReadAttrOfAttr(leads[0], values[0], Attrs(leads[1..], values[1..], tail));
      ReadAttrsOfAttrs(leads[1..], values[1..], tail);
      assert [values[0]] + values[1..] == values;
    }
  }

  /** The SVG the round icon is stencilled with reads back as a size x size document
      holding exactly the inscribed circle RoundMask(size). */
  lemma CircleSvgDrawsRoundMask(size: nat)
    ensures ParseCircleSvg(CircleSvg(size)) == Some((size, size, RoundMask(size)))
  {
    var side := NatToString(size);
    var half := HalvesToString(size);
    HalvesToStringChars(size);
    assert forall i :: 0 <= i < |side| ==> side[i] != '"';
    assert forall i :: 0 <= i < |half| ==> half[i] != '"';
    var values := [side, side, half, half, half];
    assert CircleSvg(size) == Attrs(SvgLeads, values, SvgTail) by {
      assert values[1..][1..][1..][1..][1..] == [];
    }
    ReadAttrsOfAttrs(SvgLeads, values, SvgTail);
    ParseNatOfNatToString(size);
    ParseHalvesOfHalvesToString(size);
  }

  // ---------------------------------------------------------------------------
  // Images

  const LegacyFile := "ic_launcher.png"
  const RoundFile := "ic_launcher_round.png"
  const ForegroundName := "ic_launcher_foreground"
  const ForegroundFile := ForegroundName + ".png"

  /** The square legacy icon: resized and flattened over the background. */
  function LegacyImage(iconPath: string, size: nat, background: string): Image {
    Flatten(Resize(Decode(iconPath), size as real, size as real), background)
  }

  /** The round legacy icon: resized, stencilled by the circle, then flattened. */
  function RoundImage(iconPath: string, size: nat, background: string): Image {
    Flatten(Composite(Resize(Decode(iconPath), size as real, size as real),
                      [Layer(SvgMarkup(CircleSvg(size)), Centre, DestIn)]),
            background)
  }

  /** The layers put on an adaptive canvas: the padded icon at the centring offset,
      then the mask stencil when a valid mask was loaded. */
  function ForegroundLayers(iconPath: string, size: nat, hasValidMask: bool, maskBuffer: Option<Image>): (ls: seq<Layer>)
    ensures 1 <= |ls| <= 2
    ensures ls[0].input == Resize(Decode(iconPath), PaddedSize(size) as real, PaddedSize(size) as real)
    ensures ls[0].placement == At(CentreOffset(size), CentreOffset(size)) && ls[0].blend == Over
    ensures |ls| == 2 <==> hasValidMask && maskBuffer.Some?
    ensures |ls| == 2 ==> ls[1] == Layer(Resize(maskBuffer.value, size as real, size as real), Centre, DestIn)
  {
    var padded := PaddedSize(size);
    var offset := CentreOffset(size);
    var icon := Layer(Resize(Decode(iconPath), padded as real, padded as real), At(offset, offset), Over);
    if hasValidMask && maskBuffer.Some? then
      [icon, Layer(Resize(maskBuffer.value, size as real, size as real), Centre, DestIn)]
    else
      [icon]
  }

  /** The adaptive foreground: the layers composited onto a size x size canvas. */
  function ForegroundImage(iconPath: string, size: nat, background: string, hasValidMask: bool,
                           maskBuffer: Option<Image>): Image
  {
    Composite(Canvas(size, size, 4, background), ForegroundLayers(iconPath, size, hasValidMask, maskBuffer))
  }

  // ---------------------------------------------------------------------------
  // Bucket loops

  /** The legacy loop: per bucket, the folder, then ic_launcher.png, then ic_launcher_round.png. */
  function LegacySteps(root: string, iconPath: string, background: string, buckets: seq<Bucket>): (acts: seq<Action>)
    ensures |acts| == 3 * |buckets|
    ensures forall i :: 0 <= i < |buckets| ==>
      var dest := Join(root, buckets[i].folder);
      && acts[3 * i] == EnsureDir(dest)
      && acts[3 * i + 1] == WriteImage(Join(dest, LegacyFile), LegacyImage(iconPath, buckets[i].size, background))
      && acts[3 * i + 2] == WriteImage(Join(dest, RoundFile), RoundImage(iconPath, buckets[i].size, background))
  {
    if buckets == [] then []
    else
      var dest := Join(root, buckets[0].folder);
      var size := buckets[0].size;
      [EnsureDir(dest),
       WriteImage(Join(dest, LegacyFile), LegacyImage(iconPath, size, background)),
       WriteImage(Join(dest, RoundFile), RoundImage(iconPath, size, background))]
        + LegacySteps(root, iconPath, background, buckets[1..])
  }

  /** The adaptive loop: per bucket, the folder, then ic_launcher_foreground.png. */
  function AdaptiveSteps(root: string, iconPath: string, background: string, hasValidMask: bool,
                         maskBuffer: Option<Image>, buckets: seq<Bucket>): (acts: seq<Action>)
    ensures |acts| == 2 * |buckets|
    ensures forall i :: 0 <= i < |buckets| ==>
      var dest := Join(root, buckets[i].folder);
      && acts[2 * i] == EnsureDir(dest)
      && acts[2 * i + 1] == WriteImage(Join(dest, ForegroundFile),
                                       ForegroundImage(iconPath, buckets[i].size, background, hasValidMask, maskBuffer))
  {
    if buckets == [] then []
    else
      var dest := Join(root, buckets[0].folder);
      [EnsureDir(dest),
       WriteImage(Join(dest, ForegroundFile),
                  ForegroundImage(iconPath, buckets[0].size, background, hasValidMask, maskBuffer))]
        + AdaptiveSteps(root, iconPath, background, hasValidMask, maskBuffer, buckets[1..])
  }

  lemma {:induction false} LegacyImageCount(root: string, iconPath: string, background: string, buckets: seq<Bucket>)
    ensures ImageCount(LegacySteps(root, iconPath, background, buckets)) == 2 * |buckets|
  {
    if buckets != [] {
      var acts := LegacySteps(root, iconPath, background, buckets);
      var rest := LegacySteps(root, iconPath, background, buckets[1..]);
      assert acts == [acts[0]] + ([acts[1]] + ([acts[2]] + rest));
      ImageCountCons(acts[0], [acts[1]] + ([acts[2]] + rest));
      ImageCountCons(acts[1], [acts[2]] + rest);
      ImageCountCons(acts[2], rest);
      LegacyImageCount(root, iconPath, background, buckets[1..]);
    }
  }

  lemma {:induction false} AdaptiveImageCount(root: string, iconPath: string, background: string, hasValidMask: bool,
                                              maskBuffer: Option<Image>, buckets: seq<Bucket>)
    ensures ImageCount(AdaptiveSteps(root, iconPath, background, hasValidMask, maskBuffer, buckets)) == |buckets|
  {
    if buckets != [] {
      var acts := AdaptiveSteps(root, iconPath, background, hasValidMask, maskBuffer, buckets);
      var rest := AdaptiveSteps(root, iconPath, background, hasValidMask, maskBuffer, buckets[1..]);
      assert acts == [acts[0]] + ([acts[1]] + rest);
      ImageCountCons(acts[0], [acts[1]] + rest);
      ImageCountCons(acts[1], rest);
      AdaptiveImageCount(root, iconPath, background, hasValidMask, maskBuffer, buckets[1..]);
    }
  }

  // ---------------------------------------------------------------------------
  // Adaptive-icon XML

  const AnyDpiFolder := "mipmap-anydpi-v26"
  const BackgroundColorName := "ic_launcher_background"

  const XmlHead := "<?xml version=\"1.0\" encoding=\"utf-8\"?>\n"
    + "<adaptive-icon xmlns:android=\"http://schemas.android.com/apk/res/android\">\n"
  const BackgroundRef := "@color/" + BackgroundColorName
  const ForegroundRef := "@mipmap/" + ForegroundName

  /** The fixed adaptive-icon document: background from the colour resource,
      foreground from the foreground mipmap. */
  const AdaptiveIconXml: string :=
    XmlHead
    + ("  <background android:drawable=\"" + BackgroundRef + "\" />\n")
    + ("  <foreground android:drawable=\"" + ForegroundRef + "\" />\n")
    + "</adaptive-icon>"

  /** The XML points at the colour resource the patch defines and at the foreground
      image the adaptive loop writes. */
  lemma AdaptiveXmlReferences()
    ensures Contains(AdaptiveIconXml, "@color/" + BackgroundColorName)
    ensures Contains(AdaptiveIconXml, "@mipmap/" + ForegroundName)
    ensures ForegroundFile == ForegroundName + ".png"
  {
    var bgLine := "  <background android:drawable=\"" + BackgroundRef + "\" />\n";
    var fgLine := "  <foreground android:drawable=\"" + ForegroundRef + "\" />\n";
    ContainsInside(XmlHead, "  <background android:drawable=\"", BackgroundRef, "\" />\n", fgLine + "</adaptive-icon>");
    assert AdaptiveIconXml == XmlHead + bgLine + (fgLine + "</adaptive-icon>");
    ContainsInside(XmlHead + bgLine, "  <foreground android:drawable=\"", ForegroundRef, "\" />\n", "</adaptive-icon>");
  }

  // ---------------------------------------------------------------------------
  // colors.xml

  const ResourcesClose := "</resources>"
  const ColorNameOpen := "  <color name=\""
  const ColorNameClose := "\">"
  const ColorEntryHead := ColorNameOpen + BackgroundColorName + ColorNameClose
  const ColorEntryTail := "</color>\n" + ResourcesClose

  /** The replacement text for the closing tag: the colour entry, then the tag again. */
  function ColorEntry(background: string): string {
    ColorEntryHead + background + ColorEntryTail
  }

  lemma ColorEntryHeadIsLiteral()
    ensures '$' !in ColorEntryHead && '$' !in ColorEntryTail
  {
  }

  /** The content of colors.xml after a run: unchanged when it already names the
      background colour, otherwise the first closing tag becomes the colour entry and
      the tag (the replacement text's `$` patterns expanded as String.replace does). */
  function PatchColors(content: string, background: string): (r: string)
    ensures Contains(content, BackgroundColorName) ==> r == content
    ensures !Contains(content, ResourcesClose) ==> r == content
    ensures !Contains(content, BackgroundColorName) && Contains(content, ResourcesClose) ==>
      var i := IndexOf(content, ResourcesClose).value;
      var before := content[..i];
      var after := content[i + |ResourcesClose|..];
      && r == before + ColorEntryHead
                + Substitute(background + ColorEntryTail, ResourcesClose, before, after) + after
      && ('$' !in background ==> r == before + ColorEntry(background) + after)
    ensures Contains(r, BackgroundColorName) <==>
      Contains(content, BackgroundColorName) || Contains(content, ResourcesClose)
  {
    if Contains(content, BackgroundColorName) then content
    else
      var r := ReplaceFirst(content, ResourcesClose, ColorEntry(background));
      PatchColorsInserts(content, background);
      r
  }

  lemma PatchColorsInserts(content: string, background: string)
    requires !Contains(content, BackgroundColorName)
    ensures var r := ReplaceFirst(content, ResourcesClose, ColorEntry(background));
      && (!Contains(content, ResourcesClose) ==> r == content)
      && (Contains(content, ResourcesClose) ==>
            var i := IndexOf(content, ResourcesClose).value;
            var before := content[..i];
            var after := content[i + |ResourcesClose|..];
            && r == before + ColorEntryHead
                      + Substitute(background + ColorEntryTail, ResourcesClose, before, after) + after
            && ('$' !in background ==> r == before + ColorEntry(background) + after)
            && Contains(r, BackgroundColorName))
  {
    if Contains(content, ResourcesClose) {
      var i := IndexOf(content, ResourcesClose).value;
      var before := content[..i];
      var after := content[i + |ResourcesClose|..];
      var sub := Substitute(background + ColorEntryTail, ResourcesClose, before, after);
      ExpandedColorEntry(background, before, after);
      NamedAfterPatch(before, sub, after);
    }
  }

  /** The entry's head is inserted literally, and with a `$`-free background so is the rest. */
  lemma ExpandedColorEntry(background: string, before: string, after: string)
    ensures Substitute(ColorEntry(background), ResourcesClose, before, after)
         == ColorEntryHead + Substitute(background + ColorEntryTail, ResourcesClose, before, after)
    ensures '$' !in background ==>
      Substitute(ColorEntry(background), ResourcesClose, before, after) == ColorEntry(background)
  {
    ColorEntryHeadIsLiteral();
    assert ColorEntry(background) == ColorEntryHead + (background + ColorEntryTail);
    SubstituteLiteralHead(ColorEntryHead, background + ColorEntryTail, ResourcesClose, before, after);
    if '$' !in background {
      assert '$' !in background + ColorEntryTail;
      SubstituteLiteral(background + ColorEntryTail, ResourcesClose, before, after);
    }
  }

  lemma NamedAfterPatch(before: string, sub: string, after: string)
    ensures Contains(before + ColorEntryHead + sub + after, BackgroundColorName)
  {
    assert before + ColorEntryHead + sub + after
        == before + (ColorNameOpen + BackgroundColorName + ColorNameClose) + (sub + after);
    ContainsInside(before, ColorNameOpen, BackgroundColorName, ColorNameClose, sub + after);
  }

  /** Patching twice is patching once: the second run finds the entry the first inserted,
      whatever background it is given. */
  lemma PatchColorsIdempotent(content: string, first: string, second: string)
    ensures PatchColors(PatchColors(content, first), second) == PatchColors(content, first)
  {
  }

  /** `$&` in the replacement stands for the matched closing tag. */
  lemma DollarAmpersandExpands(before: string, after: string)
    ensures Substitute("$&" + ColorEntryTail, ResourcesClose, before, after) == ResourcesClose + ColorEntryTail
  {
    var t := "$&" + ColorEntryTail;
    ColorEntryHeadIsLiteral();
    SubstituteLiteral(ColorEntryTail, ResourcesClose, before, after);
    assert t[0] == '$' && t[1] == '&' && t[2..] == ColorEntryTail;
  }

  /** A background holding `$&` inserts the matched closing tag where the colour should be. */
  lemma PatchColorsExpandsDollarPatterns(content: string)
    requires !Contains(content, BackgroundColorName) && Contains(content, ResourcesClose)
    ensures var i := IndexOf(content, ResourcesClose).value;
      PatchColors(content, "$&")
        == content[..i] + ColorEntryHead + ResourcesClose + ColorEntryTail + content[i + |ResourcesClose|..]
  {
    var i := IndexOf(content, ResourcesClose).value;
    var before := content[..i];
    var after := content[i + |ResourcesClose|..];
    DollarAmpersandExpands(before, after);
    assert PatchColors(content, "$&")
        == before + ColorEntryHead + Substitute("$&" + ColorEntryTail, ResourcesClose, before, after) + after;
  }

  // ---------------------------------------------------------------------------
  // The run

  /** The output directory, or the app's resource folder. */
  function AndroidRoot(cwd: string, outputDir: Option<string>): (root: string)
    ensures Truthy(outputDir) ==> root == outputDir.value
    ensures !Truthy(outputDir) ==> root == Resolve(cwd, "android/app/src/main/res")
  {
    if Truthy(outputDir) then outputDir.value else Resolve(cwd, "android/app/src/main/res")
  }

  /** colors.xml lives in the app's resource folder whatever the output directory. */
  function ColorsPath(cwd: string): string {
    Resolve(cwd, "android/app/src/main/res/values/colors.xml")
  }

  /** The colors.xml write: none when the file is missing or already names the colour. */
  function ColorsSteps(cwd: string, colors: Option<string>, background: string): (acts: seq<Action>)
    ensures |acts| <= 1
    ensures |acts| == 1 <==> colors.Some? && !Contains(colors.value, BackgroundColorName)
    ensures |acts| == 1 ==> acts[0] == WriteText(ColorsPath(cwd), PatchColors(colors.value, background))
  {
    match colors
    case None => []
    case Some(c) =>
      if Contains(c, BackgroundColorName) then []
      else [WriteText(ColorsPath(cwd), ReplaceFirst(c, ResourcesClose, ColorEntry(background)))]
  }

  /** generateAndroid. `colors` is the content of colors.xml, None when it is missing. */
  function GenerateAndroid(cwd: string, iconPath: string, background: string, hasValidMask: bool,
                           maskBuffer: Option<Image>, outputDir: Option<string>, colors: Option<string>): seq<Action>
  {
    var root := AndroidRoot(cwd, outputDir);
    var anyDpi := Join(root, AnyDpiFolder);
    LegacySteps(root, iconPath, background, AndroidSizes)
      + AdaptiveSteps(root, iconPath, background, hasValidMask, maskBuffer, AdaptiveIconSizes)
      + [EnsureDir(anyDpi), WriteText(Join(anyDpi, "ic_launcher.xml"), AdaptiveIconXml)]
      + ColorsSteps(cwd, colors, background)
  }

  /** The run writes 5 x 2 legacy images, then 5 foregrounds, then the XML, then at most
      the colors.xml patch, which does not depend on the output directory. */
  lemma AndroidRunShape(cwd: string, iconPath: string, background: string, hasValidMask: bool,
                        maskBuffer: Option<Image>, outputDir: Option<string>, colors: Option<string>)
    ensures var acts := GenerateAndroid(cwd, iconPath, background, hasValidMask, maskBuffer, outputDir, colors);
      var root := AndroidRoot(cwd, outputDir);
      && |acts| == 27 + |ColorsSteps(cwd, colors, background)|
      && acts[..15] == LegacySteps(root, iconPath, background, AndroidSizes)
      && acts[15..25] == AdaptiveSteps(root, iconPath, background, hasValidMask, maskBuffer, AdaptiveIconSizes)
      && acts[25] == EnsureDir(Join(root, AnyDpiFolder))
      && acts[26] == WriteText(Join(Join(root, AnyDpiFolder), "ic_launcher.xml"), AdaptiveIconXml)
      && acts[27..] == ColorsSteps(cwd, colors, background)
      && ImageCount(acts) == 15
  {
    var root := AndroidRoot(cwd, outputDir);
    var legacy := LegacySteps(root, iconPath, background, AndroidSizes);
    var adaptive := AdaptiveSteps(root, iconPath, background, hasValidMask, maskBuffer, AdaptiveIconSizes);
    var xml := [EnsureDir(Join(root, AnyDpiFolder)), WriteText(Join(Join(root, AnyDpiFolder), "ic_launcher.xml"), AdaptiveIconXml)];
    var patch := ColorsSteps(cwd, colors, background);
    LegacyImageCount(root, iconPath, background, AndroidSizes);
    AdaptiveImageCount(root, iconPath, background, hasValidMask, maskBuffer, AdaptiveIconSizes);
    ImageCountAppend(legacy, adaptive);
    ImageCountAppend(legacy + adaptive, xml);
    ImageCountAppend(legacy + adaptive + xml, patch);
    assert ImageCount(xml) == 0 by {
      assert xml[1..][1..] == [];
    }
    assert ImageCount(patch) == 0 by {
      if patch != [] {
        assert patch[1..] == [];
      }
    }
  }

  lemma LegacyWritesUnder(root: string, iconPath: string, background: string, buckets: seq<Bucket>)
    ensures WritesUnder(LegacySteps(root, iconPath, background, buckets), root)
  {
    var acts := LegacySteps(root, iconPath, background, buckets);
    forall k | 0 <= k < |acts| && IsWrite(acts[k])
      ensures StartsWith(acts[k].path, root + "/")
    {
      var i := k / 3;
      assert k == 3 * i || k == 3 * i + 1 || k == 3 * i + 2;
      JoinIsInside(root, buckets[i].folder, LegacyFile);
      JoinIsInside(root, buckets[i].folder, RoundFile);
    }
  }

  lemma AdaptiveWritesUnder(root: string, iconPath: string, background: string, hasValidMask: bool,
                            maskBuffer: Option<Image>, buckets: seq<Bucket>)
    ensures WritesUnder(AdaptiveSteps(root, iconPath, background, hasValidMask, maskBuffer, buckets), root)
  {
    var acts := AdaptiveSteps(root, iconPath, background, hasValidMask, maskBuffer, buckets);
    forall k | 0 <= k < |acts| && IsWrite(acts[k])
      ensures StartsWith(acts[k].path, root + "/")
    {
      var i := k / 2;
      assert k == 2 * i || k == 2 * i + 1;
      JoinIsInside(root, buckets[i].folder, ForegroundFile);
    }
  }

  /** Every file the run writes lies inside the output root, except the colors.xml patch,
      which always goes to the app's own resource folder. */
  lemma AndroidWritesUnderRoot(cwd: string, iconPath: string, background: string, hasValidMask: bool,
                               maskBuffer: Option<Image>, outputDir: Option<string>, colors: Option<string>)
    ensures var acts := GenerateAndroid(cwd, iconPath, background, hasValidMask, maskBuffer, outputDir, colors);
      && |acts| >= 27
      && WritesUnder(acts[..27], AndroidRoot(cwd, outputDir))
      && forall k :: 27 <= k < |acts| ==> IsWrite(acts[k]) && acts[k].path == ColorsPath(cwd)
  {
    var acts := GenerateAndroid(cwd, iconPath, background, hasValidMask, maskBuffer, outputDir, colors);
    var root := AndroidRoot(cwd, outputDir);
    AndroidRunShape(cwd, iconPath, background, hasValidMask, maskBuffer, outputDir, colors);
    LegacyWritesUnder(root, iconPath, background, AndroidSizes);
    AdaptiveWritesUnder(root, iconPath, background, hasValidMask, maskBuffer, AdaptiveIconSizes);
    var head := acts[..27];
    forall k | 0 <= k < 27 && IsWrite(head[k])
      ensures StartsWith(head[k].path, root + "/")
    {
      if k < 15 {
        assert head[k] == acts[..15][k];
      } else if k < 25 {
        assert head[k] == acts[15..25][k - 15];
      } else {
        JoinIsInside(root, AnyDpiFolder, "ic_launcher.xml");
      }
    }
    forall k | 27 <= k < |acts|
      ensures IsWrite(acts[k]) && acts[k].path == ColorsPath(cwd)
    {
      assert acts[k] == acts[27..][k - 27];
    }
  }

  /** The colors.xml step is the same whatever output directory is chosen. */
  lemma ColorsPatchIgnoresOutputDir(cwd: string, iconPath: string, background: string, hasValidMask: bool,
                                    maskBuffer: Option<Image>, out1: Option<string>, out2: Option<string>,
                                    colors: Option<string>)
    ensures GenerateAndroid(cwd, iconPath, background, hasValidMask, maskBuffer, out1, colors)[27..]
         == GenerateAndroid(cwd, iconPath, background, hasValidMask, maskBuffer, out2, colors)[27..]
  {
    AndroidRunShape(cwd, iconPath, background, hasValidMask, maskBuffer, out1, colors);
    AndroidRunShape(cwd, iconPath, background, hasValidMask, maskBuffer, out2, colors);
  }
}
