/** The iOS side: which idioms a (point size, scale) slot belongs to, the file
    written for every slot of the catalog, and the asset catalog's Contents.json. */
module IosIcons {
  import opened Wrappers
  import opened Text
  import opened Paths
  import opened Plan
  import opened Specs

  datatype Idiom = IPhone | IPad | Marketing

  function IdiomName(d: Idiom): string {
    match d
    case IPhone => "iphone"
    case IPad => "ipad"
    case Marketing => "ios-marketing"
  }

  // ---------------------------------------------------------------------------
  // Idiom classification

  /** The App Store slot, 1024 points at 1x. */
  predicate IsAppStoreSlot(size: real, scale: real) {
    size == 1024.0 && scale == 1.0
  }

  /** The iPhone family's slots, as a table. */
  predicate IphoneSlot(size: real, scale: real) {
    size in {20.0, 29.0, 40.0, 60.0} && scale in {2.0, 3.0}
  }

  /** The iPad family's slots, as a table. */
  predicate IpadSlot(size: real, scale: real) {
    (size in {20.0, 29.0, 40.0, 76.0} && scale in {1.0, 2.0}) || (size == 83.5 && scale == 2.0)
  }

  /** The idioms of a slot: the App Store slot is marketing only; any other slot gets
      "iphone" and then "ipad", each when its family's table lists the slot. */
  function GetIdioms(size: real, scale: real): (r: seq<Idiom>)
    ensures IsAppStoreSlot(size, scale) ==> r == [Marketing]
    ensures !IsAppStoreSlot(size, scale) ==> Marketing !in r
    ensures !IsAppStoreSlot(size, scale) ==> (IPhone in r <==> IphoneSlot(size, scale))
    ensures !IsAppStoreSlot(size, scale) ==> (IPad in r <==> IpadSlot(size, scale))
    ensures |r| <= 2
    ensures forall i, j :: 0 <= i < j < |r| ==> r[i] != r[j]
    ensures IPhone in r && IPad in r ==> r == [IPhone, IPad]
  {
    if size == 1024.0 && scale == 1.0 then [Marketing]
    else
      var iphone :=
        (size == 20.0 && (scale == 2.0 || scale == 3.0)) ||
        (size == 29.0 && (scale == 2.0 || scale == 3.0)) ||
        (size == 40.0 && (scale == 2.0 || scale == 3.0)) ||
        (size == 60.0 && (scale == 2.0 || scale == 3.0));
      var ipad :=
        (size == 20.0 && (scale == 1.0 || scale == 2.0)) ||
        (size == 29.0 && (scale == 1.0 || scale == 2.0)) ||
        (size == 40.0 && (scale == 1.0 || scale == 2.0)) ||
        (size == 76.0 && (scale == 1.0 || scale == 2.0)) ||
        (size == 83.5 && scale == 2.0);
      (if iphone then [IPhone] else []) + (if ipad then [IPad] else [])
  }

  function SlotIdioms(item: IosSize): seq<Idiom> {
    GetIdioms(Points(item), item.scale as real)
  }

  lemma IdiomExamples()
    ensures GetIdioms(1024.0, 1.0) == [Marketing]
    ensures GetIdioms(60.0, 2.0) == [IPhone]
    ensures GetIdioms(76.0, 1.0) == [IPad]
    ensures GetIdioms(29.0, 2.0) == [IPhone, IPad]
    ensures GetIdioms(83.5, 2.0) == [IPad]
    ensures GetIdioms(1024.0, 2.0) == []
  {
  }

  // ---------------------------------------------------------------------------
  // File names and manifest strings

  /** icon-{size}x{size}@{scale}x.png */
  function FileName(item: IosSize): string {
    "icon-" + HalvesToString(item.halfPoints) + "x" + HalvesToString(item.halfPoints)
      + "@" + NatToString(item.scale) + "x.png"
  }

  /** {size}x{size} */
  function SizeString(item: IosSize): string {
    HalvesToString(item.halfPoints) + "x" + HalvesToString(item.halfPoints)
  }

  /** {scale}x */
  function ScaleString(item: IosSize): string {
    NatToString(item.scale) + "x"
  }

  /** Reads a file name of the form icon-{size}x{size}@{scale}x.png back into its slot. */
  function ParseFileName(f: string): Option<IosSize> {
    if |f| >= 10 && f[..5] == "icon-" && f[|f| - 5..] == "x.png" then
      match SplitAt(f[5..|f| - 5], 'x')
      case None => None
      case Some(first) =>
        match SplitAt(first.1, '@')
        case None => None
        case Some(second) =>
          if first.0 != second.0 then None
          else match (ParseHalves(first.0), ParseNat(second.1))
            case (Some(h), Some(k)) => Some(IosSize(h, k))
            case _ => None
    else None
  }

  lemma NoSeparatorInHalves(h: nat)
    ensures 'x' !in HalvesToString(h) && '@' !in HalvesToString(h)
  {
    HalvesToStringChars(h);
  }

  /** The file name of a slot determines the slot. */
  lemma ParseFileNameOfFileName(item: IosSize)
    ensures ParseFileName(FileName(item)) == Some(item)
  {
    var p := HalvesToString(item.halfPoints);
    var s := NatToString(item.scale);
    var f := FileName(item);
    var mid := p + "x" + p + "@" + s;
    assert f == "icon-" + mid + "x.png";
    assert f[..5] == "icon-";
    assert f[|f| - 5..] == "x.png";
    assert f[5..|f| - 5] == mid;
    NoSeparatorInHalves(item.halfPoints);
    assert mid == p + ['x'] + (p + "@" + s);
    SplitAtJoin(p, 'x', p + "@" + s);
    assert p + "@" + s == p + ['@'] + s;
    SplitAtJoin(p, '@', s);
    ParseHalvesOfHalvesToString(item.halfPoints);
    ParseNatOfNatToString(item.scale);
  }

  /** Distinct slots are written to distinct files. */
  lemma FileNameInjective(a: IosSize, b: IosSize)
    ensures FileName(a) == FileName(b) ==> a == b
  {
    ParseFileNameOfFileName(a);
    ParseFileNameOfFileName(b);
  }

  // ---------------------------------------------------------------------------
  // Manifest

  datatype ManifestEntry = ManifestEntry(size: string, idiom: string, filename: string, scale: string)

  /** The inner loop over a slot's idioms: one entry per idiom, all naming the slot's file. */
  function EntriesFor(item: IosSize, idioms: seq<Idiom>): (es: seq<ManifestEntry>)
    ensures |es| == |idioms|
    ensures forall k :: 0 <= k < |es| ==> es[k].idiom == IdiomName(idioms[k])
    ensures forall k :: 0 <= k < |es| ==>
      es[k].filename == FileName(item) && es[k].size == SizeString(item) && es[k].scale == ScaleString(item)
  {
    if idioms == [] then []
    else
      [ManifestEntry(SizeString(item), IdiomName(idioms[0]), FileName(item), ScaleString(item))]
        + EntriesFor(item, idioms[1..])
  }

  function SlotEntries(item: IosSize): seq<ManifestEntry> {
    EntriesFor(item, SlotIdioms(item))
  }

  /** The entries the outer loop collects, slot after slot. */
  function Manifest(items: seq<IosSize>): seq<ManifestEntry> {
    if items == [] then [] else SlotEntries(items[0]) + Manifest(items[1..])
  }

  /** The number of idioms over all slots. */
  function IdiomTotal(items: seq<IosSize>): nat {
    if items == [] then 0 else |SlotIdioms(items[0])| + IdiomTotal(items[1..])
  }

  lemma {:induction false} ManifestAppend(a: seq<IosSize>, b: seq<IosSize>)
    ensures Manifest(a + b) == Manifest(a) + Manifest(b)
  {
    if a == [] {
      assert a + b == b;
    } else {
      assert (a + b)[1..] == a[1..] + b;
      ManifestAppend(a[1..], b);
    }
  }

  /** One entry per idiom of every slot. */
  lemma {:induction false} ManifestLength(items: seq<IosSize>)
    ensures |Manifest(items)| == IdiomTotal(items)
  {
    if items != [] {
      ManifestLength(items[1..]);
    }
  }

  /** The entries of slot i form one block, after the blocks of the slots before it
      and before the blocks of the slots after it. */
  lemma {:induction false} ManifestInCatalogOrder(items: seq<IosSize>, i: nat)
    requires i < |items|
    ensures Manifest(items) == Manifest(items[..i]) + SlotEntries(items[i]) + Manifest(items[i + 1..])
  {
    var tail := items[i..];
    assert items == items[..i] + tail;
    ManifestAppend(items[..i], tail);
    assert tail != [] && tail[0] == items[i] && tail[1..] == items[i + 1..];
    assert Manifest(tail) == SlotEntries(items[i]) + Manifest(items[i + 1..]);
  }

  /** Every entry names a slot of the catalog by its file name, and carries that slot's
      size and scale strings and one of its idioms. */
  lemma {:induction false} ManifestEntriesNameTheirSlot(items: seq<IosSize>, k: nat)
    requires k < |Manifest(items)|
    ensures ParseFileName(Manifest(items)[k].filename).Some?
    ensures ParseFileName(Manifest(items)[k].filename).value in items
    ensures var it := ParseFileName(Manifest(items)[k].filename).value;
      Manifest(items)[k].size == SizeString(it) && Manifest(items)[k].scale == ScaleString(it)
      && exists d :: d in SlotIdioms(it) && Manifest(items)[k].idiom == IdiomName(d)
  {
    var head := SlotEntries(items[0]);
    if k < |head| {
      ParseFileNameOfFileName(items[0]);
      assert Manifest(items)[k] == head[k];
      assert SlotIdioms(items[0])[k] in SlotIdioms(items[0]);
    } else {
      ManifestEntriesNameTheirSlot(items[1..], k - |head|);
      assert Manifest(items)[k] == Manifest(items[1..])[k - |head|];
    }
  }

  // ---------------------------------------------------------------------------
  // Contents.json

  const InfoJson: Json := JObject([("version", JNumber(1)), ("author", JString("xcode"))])

  function EntryJson(e: ManifestEntry): Json {
    JObject([("size", JString(e.size)), ("idiom", JString(e.idiom)),
             ("filename", JString(e.filename)), ("scale", JString(e.scale))])
  }

  function EntriesJson(es: seq<ManifestEntry>): (js: seq<Json>)
    ensures |js| == |es|
  {
    if es == [] then [] else [EntryJson(es[0])] + EntriesJson(es[1..])
  }

  /** The document written as Contents.json. */
  function ContentsJson(es: seq<ManifestEntry>): Json {
    JObject([("images", JArray(EntriesJson(es))), ("info", InfoJson)])
  }

  function EntryOfJson(j: Json): Option<ManifestEntry> {
    match j
    case JObject(fs) =>
      if |fs| == 4 && fs[0].0 == "size" && fs[1].0 == "idiom" && fs[2].0 == "filename" && fs[3].0 == "scale"
        && fs[0].1.JString? && fs[1].1.JString? && fs[2].1.JString? && fs[3].1.JString?
      then Some(ManifestEntry(fs[0].1.s, fs[1].1.s, fs[2].1.s, fs[3].1.s))
      else None
    case _ => None
  }

  function EntriesOfJson(js: seq<Json>): Option<seq<ManifestEntry>> {
    if js == [] then Some([])
    else match (EntryOfJson(js[0]), EntriesOfJson(js[1..]))
      case (Some(e), Some(rest)) => Some([e] + rest)
      case _ => None
  }

  /** Reads the image list out of a Contents.json document whose info block is Xcode's. */
  function ManifestOfContents(j: Json): Option<seq<ManifestEntry>> {
    match j
    case JObject(fs) =>
      if |fs| == 2 && fs[0].0 == "images" && fs[0].1.JArray? && fs[1] == ("info", InfoJson)
      then EntriesOfJson(fs[0].1.items)
      else None
    case _ => None
  }

  lemma {:induction false} EntriesOfEntriesJson(es: seq<ManifestEntry>)
    ensures EntriesOfJson(EntriesJson(es)) == Some(es)
  {
    if es != [] {
      assert EntriesJson(es)[1..] == EntriesJson(es[1..]);
      EntriesOfEntriesJson(es[1..]);
      assert [es[0]] + es[1..] == es;
    }
  }

  /** Contents.json carries exactly the collected entries, in order, and Xcode's info block. */
  lemma ContentsRoundTrip(es: seq<ManifestEntry>)
    ensures ManifestOfContents(ContentsJson(es)) == Some(es)
  {
    EntriesOfEntriesJson(es);
  }

  // ---------------------------------------------------------------------------
  // The run

  /** The output directory, or the app's asset catalog inside the iOS project. */
  function AppIconRoot(cwd: string, iosFolder: string, outputDir: Option<string>): (root: string)
    ensures Truthy(outputDir) ==> root == outputDir.value
    ensures !Truthy(outputDir) ==> root == Resolve(cwd, "ios/" + iosFolder + "/Images.xcassets/AppIcon.appiconset")
  {
    if Truthy(outputDir) then outputDir.value
    else Resolve(cwd, "ios/" + iosFolder + "/Images.xcassets/AppIcon.appiconset")
  }

  /** A slot's image: the icon resized to its pixel size and flattened over the background. */
  function SlotImage(iconPath: string, item: IosSize, background: string): Image {
    Flatten(Resize(Decode(iconPath), PixelSize(item), PixelSize(item)), background)
  }

  /** One image write per slot, idioms or not, in catalog order. */
  function ImageSteps(root: string, iconPath: string, background: string, items: seq<IosSize>): (acts: seq<Action>)
    ensures |acts| == |items|
    ensures forall i :: 0 <= i < |items| ==>
      acts[i] == WriteImage(Join(root, FileName(items[i])), SlotImage(iconPath, items[i], background))
  {
    if items == [] then []
    else
      [WriteImage(Join(root, FileName(items[0])), SlotImage(iconPath, items[0], background))]
        + ImageSteps(root, iconPath, background, items[1..])
  }

  lemma {:induction false} ImageStepsAreImages(root: string, iconPath: string, background: string, items: seq<IosSize>)
    ensures ImageCount(ImageSteps(root, iconPath, background, items)) == |items|
  {
    if items != [] {
      var acts := ImageSteps(root, iconPath, background, items);
      assert acts == [acts[0]] + ImageSteps(root, iconPath, background, items[1..]);
      ImageCountAppend([acts[0]], ImageSteps(root, iconPath, background, items[1..]));
      ImageStepsAreImages(root, iconPath, background, items[1..]);
    }
  }

  /** generateIos over a given catalog. */
  function GenerateIosFrom(items: seq<IosSize>, cwd: string, iconPath: string, iosFolder: string,
                           background: string, outputDir: Option<string>): seq<Action>
  {
    var root := AppIconRoot(cwd, iosFolder, outputDir);
    [EnsureDir(root)]
      + ImageSteps(root, iconPath, background, items)
      + [WriteJson(Join(root, "Contents.json"), ContentsJson(Manifest(items)))]
  }

  /** The directory is created first, then every slot's image is written in catalog order,
      then Contents.json with the manifest; there is one image per slot. */
  lemma IosRunShape(items: seq<IosSize>, cwd: string, iconPath: string, iosFolder: string,
                    background: string, outputDir: Option<string>)
    ensures var acts := GenerateIosFrom(items, cwd, iconPath, iosFolder, background, outputDir);
      var root := AppIconRoot(cwd, iosFolder, outputDir);
      && |acts| == |items| + 2
      && acts[0] == EnsureDir(root)
      && (forall i :: 0 <= i < |items| ==>
            acts[i + 1] == WriteImage(Join(root, FileName(items[i])), SlotImage(iconPath, items[i], background)))
      && acts[|acts| - 1] == WriteJson(Join(root, "Contents.json"), ContentsJson(Manifest(items)))
      && ImageCount(acts) == |items|
  {
    var root := AppIconRoot(cwd, iosFolder, outputDir);
    var steps := ImageSteps(root, iconPath, background, items);
    var last := [WriteJson(Join(root, "Contents.json"), ContentsJson(Manifest(items)))];
    ImageStepsAreImages(root, iconPath, background, items);
    ImageCountAppend([EnsureDir(root)], steps);
    ImageCountAppend([EnsureDir(root)] + steps, last);
  }

  /** Every file an iOS run writes lies inside the icon set folder. */
  lemma IosWritesUnderRoot(items: seq<IosSize>, cwd: string, iconPath: string, iosFolder: string,
                           background: string, outputDir: Option<string>)
    ensures WritesUnder(GenerateIosFrom(items, cwd, iconPath, iosFolder, background, outputDir),
                        AppIconRoot(cwd, iosFolder, outputDir))
  {
    var acts := GenerateIosFrom(items, cwd, iconPath, iosFolder, background, outputDir);
    var root := AppIconRoot(cwd, iosFolder, outputDir);
    IosRunShape(items, cwd, iconPath, iosFolder, background, outputDir);
    forall k | 0 <= k < |acts| && IsWrite(acts[k])
      ensures StartsWith(acts[k].path, root + "/")
    {
      if k == |acts| - 1 {
        JoinIsInside(root, "", "Contents.json");
      } else {
        JoinIsInside(root, "", FileName(items[k - 1]));
      }
    }
  }

  /** generateIos over the shipped catalog. */
  function GenerateIos(cwd: string, iconPath: string, iosFolder: string, background: string,
                       outputDir: Option<string>): seq<Action>
  {
    GenerateIosFrom(IosSizes, cwd, iconPath, iosFolder, background, outputDir)
  }

  /** Over the shipped catalog: one image per slot, 15 in all, in 15 distinct files. */
  lemma ShippedIosImages(cwd: string, iconPath: string, iosFolder: string, background: string,
                         outputDir: Option<string>)
    ensures ImageCount(GenerateIos(cwd, iconPath, iosFolder, background, outputDir)) == 15
    ensures forall i, j :: 0 <= i < j < |IosSizes| ==> FileName(IosSizes[i]) != FileName(IosSizes[j])
  {
    IosRunShape(IosSizes, cwd, iconPath, iosFolder, background, outputDir);
    IosCatalogShape();
    forall i, j | 0 <= i < j < |IosSizes|
      ensures FileName(IosSizes[i]) != FileName(IosSizes[j])
    {
      FileNameInjective(IosSizes[i], IosSizes[j]);
    }
  }

  /** Every shipped slot has an idiom, and exactly 20, 29 and 40 points at 2x have two. */
  lemma ShippedIdiomCounts()
    ensures forall i :: 0 <= i < |IosSizes| ==> |SlotIdioms(IosSizes[i])| >= 1
    ensures forall i :: 0 <= i < |IosSizes| ==>
      (|SlotIdioms(IosSizes[i])| == 2 <==> IosSizes[i] in {Whole(20, 2), Whole(29, 2), Whole(40, 2)})
  {
  }

  /** The number of idioms of each shipped slot, in catalog order. */
  const ShippedIdiomsPerSlot: seq<nat> := [1, 2, 1, 1, 2, 1, 1, 2, 1, 1, 1, 1, 1, 1, 1]

  function Sum(xs: seq<nat>): nat {
    if xs == [] then 0 else xs[0] + Sum(xs[1..])
  }

  lemma {:induction false} SumAppend(a: seq<nat>, b: seq<nat>)
    ensures Sum(a + b) == Sum(a) + Sum(b)
  {
    if a != [] {
      assert (a + b)[1..] == a[1..] + b;
      SumAppend(a[1..], b);
    } else {
      assert a + b == b;
    }
  }

  lemma ShippedIdiomsSum()
    ensures Sum(ShippedIdiomsPerSlot) == 18
  {
    var head, middle, tail := [1, 2, 1, 1, 2], [1, 1, 2, 1, 1], [1, 1, 1, 1, 1];
    assert ShippedIdiomsPerSlot == head + middle + tail;
    SumAppend(head + middle, tail);
    SumAppend(head, middle);
  }

  lemma ShippedIdiomTable()
    ensures forall k :: 0 <= k < |IosSizes| ==> |SlotIdioms(IosSizes[k])| == ShippedIdiomsPerSlot[k]
  {
  }

  lemma {:induction false} IdiomTotalBySlot(items: seq<IosSize>, counts: seq<nat>)
    requires |items| == |counts|
    requires forall k :: 0 <= k < |items| ==> |SlotIdioms(items[k])| == counts[k]
    ensures IdiomTotal(items) == Sum(counts)
  {
    if items != [] {
      IdiomTotalBySlot(items[1..], counts[1..]);
    }
  }

  /** The shipped manifest has 18 entries: 15 slots, three of them with two idioms. */
  lemma ShippedManifestSize()
    ensures |Manifest(IosSizes)| == 18
  {
    ShippedIdiomTable();
    IdiomTotalBySlot(IosSizes, ShippedIdiomsPerSlot);
    ShippedIdiomsSum();
    ManifestLength(IosSizes);
  }
}
