/** The command line: argument parsing, the background colour check, the mask check,
    and the order of checks and early exits that decides which generators run. */
module Cli {
  import opened Wrappers
  import opened Text
  import opened Paths
  import opened Plan
  import opened Specs
  import opened ImageValidator
  import opened PathHelper
  import opened AndroidIcons
  import opened IosIcons

  // ---------------------------------------------------------------------------
  // Arguments

  datatype Config = Config(iconPath: Option<string>, background: string, platform: string,
                           maskPath: Option<string>, outputDir: Option<string>)

  const Defaults := Config(None, "#ffffff", "all", None, None)

  datatype Flag = BackgroundFlag | PlatformFlag | MaskFlag | OutputFlag

  function FlagName(f: Flag): string {
    match f
    case BackgroundFlag => "--background"
    case PlatformFlag => "--platform"
    case MaskFlag => "--mask"
    case OutputFlag => "--output"
  }

  function FlagOf(a: string): (r: Option<Flag>)
    ensures r.Some? ==> FlagName(r.value) == a && StartsWith(a, "--")
    ensures forall f :: FlagName(f) == a ==> r == Some(f)
  {
    if a == "--background" then Some(BackgroundFlag)
    else if a == "--platform" then Some(PlatformFlag)
    else if a == "--mask" then Some(MaskFlag)
    else if a == "--output" then Some(OutputFlag)
    else None
  }

  /** The value a flag stores: paths are resolved, the colour and platform are kept as given. */
  function Stored(cwd: string, f: Flag, v: string): string {
    if f == MaskFlag || f == OutputFlag then Resolve(cwd, v) else v
  }

  /** The setting a flag controls. */
  function Setting(cfg: Config, f: Flag): Option<string> {
    match f
    case BackgroundFlag => Some(cfg.background)
    case PlatformFlag => Some(cfg.platform)
    case MaskFlag => cfg.maskPath
    case OutputFlag => cfg.outputDir
  }

  function SetFlag(cwd: string, cfg: Config, f: Flag, v: string): (c: Config)
    ensures Setting(c, f) == Some(Stored(cwd, f, v))
    ensures forall g :: g != f ==> Setting(c, g) == Setting(cfg, g)
    ensures c.iconPath == cfg.iconPath
  {
    match f
    case BackgroundFlag => cfg.(background := v)
    case PlatformFlag => cfg.(platform := v)
    case MaskFlag => cfg.(maskPath := Some(Resolve(cwd, v)))
    case OutputFlag => cfg.(outputDir := Some(Resolve(cwd, v)))
  }

  /** A flag at i takes the next argument as its value when there is one and it is not empty. */
  predicate TakesValue(args: seq<string>, i: nat)
    requires i < |args|
  {
    FlagOf(args[i]).Some? && i + 1 < |args| && args[i + 1] != ""
  }

  /** Where the loop continues after the argument at i. */
  function Next(args: seq<string>, i: nat): nat
    requires i < |args|
  {
    if TakesValue(args, i) then i + 2 else i + 1
  }

  /** One turn of the loop: the first positional argument becomes the icon path, a flag
      with a value sets its setting, anything else is ignored. */
  function Step(cwd: string, args: seq<string>, i: nat, cfg: Config): Config
    requires i < |args|
  {
    var a := args[i];
    if !StartsWith(a, "--") && !Truthy(cfg.iconPath) then cfg.(iconPath := Some(Resolve(cwd, a)))
    else if TakesValue(args, i) then SetFlag(cwd, cfg, FlagOf(a).value, args[i + 1])
    else cfg
  }

  function ParseFrom(cwd: string, args: seq<string>, i: nat, cfg: Config): Config
    decreases |args| - i
  {
    if i >= |args| then cfg else ParseFrom(cwd, args, Next(args, i), Step(cwd, args, i, cfg))
  }

  function ParseArgs(cwd: string, args: seq<string>): Config {
    ParseFrom(cwd, args, 0, Defaults)
  }

  /** The loop, started at i, stops at j (j is an argument the loop looks at, or the end). */
  predicate Reach(args: seq<string>, i: nat, j: nat)
    decreases j - i
  {
    i == j || (i < j && i < |args| && Reach(args, Next(args, i), j))
  }

  /** The settings when the loop, started at i, arrives at j. */
  function RunTo(cwd: string, args: seq<string>, i: nat, j: nat, cfg: Config): Config
    requires Reach(args, i, j)
    decreases j - i
  {
    if i == j then cfg else RunTo(cwd, args, Next(args, i), j, Step(cwd, args, i, cfg))
  }

  lemma ParseDefaults(cwd: string)
    ensures ParseArgs(cwd, []) == Defaults
  {
  }

  lemma {:induction false} ReachSplit(cwd: string, args: seq<string>, i: nat, j: nat, cfg: Config)
    requires Reach(args, i, j)
    ensures ParseFrom(cwd, args, i, cfg) == ParseFrom(cwd, args, j, RunTo(cwd, args, i, j, cfg))
    decreases j - i
  {
    if i != j {
      ReachSplit(cwd, args, Next(args, i), j, Step(cwd, args, i, cfg));
    }
  }

  /** Once set, the icon path is never replaced. */
  lemma {:induction false} IconPathKept(cwd: string, args: seq<string>, i: nat, cfg: Config)
    requires Truthy(cfg.iconPath)
    ensures ParseFrom(cwd, args, i, cfg).iconPath == cfg.iconPath
    decreases |args| - i
  {
    if i < |args| {
      IconPathKept(cwd, args, Next(args, i), Step(cwd, args, i, cfg));
    }
  }

  /** The first positional argument the loop meets becomes the icon path, resolved;
      later positional arguments are ignored. */
  lemma FirstPositionalIsIcon(cwd: string, args: seq<string>, j: nat)
    requires cwd != ""
    requires j < |args| && Reach(args, 0, j)
    requires !StartsWith(args[j], "--")
    requires !Truthy(RunTo(cwd, args, 0, j, Defaults).iconPath)
    ensures ParseArgs(cwd, args).iconPath == Some(Resolve(cwd, args[j]))
  {
    ReachSplit(cwd, args, 0, j, Defaults);
    var cfg := RunTo(cwd, args, 0, j, Defaults);
    IconPathKept(cwd, args, Next(args, j), Step(cwd, args, j, cfg));
  }

  /** Taking one more turn of the loop from a position it reaches. */
  lemma {:induction false} ReachNext(cwd: string, args: seq<string>, i: nat, j: nat, cfg: Config)
    requires Reach(args, i, j) && j < |args|
    ensures Reach(args, i, Next(args, j))
    ensures RunTo(cwd, args, i, Next(args, j), cfg) == Step(cwd, args, j, RunTo(cwd, args, i, j, cfg))
    decreases j - i
  {
    if i != j {
      ReachNext(cwd, args, Next(args, i), j, Step(cwd, args, i, cfg));
    }
  }

  /** A flag's setting changes only where the loop meets the flag's name with a value:
      an occurrence followed by nothing or by an empty argument leaves it alone. */
  lemma {:induction false} SettingKeptUnlessTaken(cwd: string, args: seq<string>, i: nat, cfg: Config, f: Flag)
    requires forall k :: i <= k < |args| && Reach(args, i, k) && args[k] == FlagName(f) ==> !TakesValue(args, k)
    ensures Setting(ParseFrom(cwd, args, i, cfg), f) == Setting(cfg, f)
    decreases |args| - i
  {
    if i < |args| {
      assert Reach(args, i, i);
      var n := Next(args, i);
      forall k | n <= k < |args| && Reach(args, n, k) && args[k] == FlagName(f)
        ensures !TakesValue(args, k)
      {
        assert Reach(args, i, k);
      }
      SettingKeptUnlessTaken(cwd, args, n, Step(cwd, args, i, cfg), f);
    }
  }

  /** Arguments other than a flag's name never change that flag's setting. */
  lemma SettingKept(cwd: string, args: seq<string>, i: nat, cfg: Config, f: Flag)
    requires forall k :: i <= k < |args| ==> args[k] != FlagName(f)
    ensures Setting(ParseFrom(cwd, args, i, cfg), f) == Setting(cfg, f)
  {
    SettingKeptUnlessTaken(cwd, args, i, cfg, f);
  }

  /** The last occurrence of a flag that takes a value decides its setting, whatever earlier
      occurrences said; later occurrences without a value (at the end, or followed by an
      empty argument) and all other arguments leave it alone. */
  lemma LastFlagWins(cwd: string, args: seq<string>, f: Flag, j: nat)
    requires j + 1 < |args| && Reach(args, 0, j)
    requires args[j] == FlagName(f) && args[j + 1] != ""
    requires forall k :: j + 2 <= k < |args| && Reach(args, j + 2, k) && args[k] == FlagName(f) ==> !TakesValue(args, k)
    ensures Setting(ParseArgs(cwd, args), f) == Some(Stored(cwd, f, args[j + 1]))
  {
    ReachSplit(cwd, args, 0, j, Defaults);
    var cfg := RunTo(cwd, args, 0, j, Defaults);
    assert Next(args, j) == j + 2;
    SettingKeptUnlessTaken(cwd, args, j + 2, Step(cwd, args, j, cfg), f);
  }

  /** A flag followed by an empty argument takes no value: the loop goes on to the empty
      argument itself, and the settings are as they were. */
  lemma EmptyValueNotTaken(cwd: string, args: seq<string>, f: Flag, j: nat)
    requires j + 1 < |args| && Reach(args, 0, j)
    requires args[j] == FlagName(f) && args[j + 1] == ""
    ensures Reach(args, 0, j + 1)
    ensures RunTo(cwd, args, 0, j + 1, Defaults) == RunTo(cwd, args, 0, j, Defaults)
  {
    ReachNext(cwd, args, 0, j, Defaults);
    assert Next(args, j) == j + 1;
  }

  /** The empty argument after a flag is then read as a positional: when no icon path is set
      yet, the icon path becomes the working directory and any later positional is ignored. */
  lemma EmptyValueBecomesIcon(cwd: string, args: seq<string>, j: nat)
    requires cwd != ""
    requires j + 1 < |args| && Reach(args, 0, j)
    requires FlagOf(args[j]).Some? && args[j + 1] == ""
    requires !Truthy(RunTo(cwd, args, 0, j, Defaults).iconPath)
    ensures ParseArgs(cwd, args).iconPath == Some(cwd)
  {
    ReachNext(cwd, args, 0, j, Defaults);
    assert Next(args, j) == j + 1;
    FirstPositionalIsIcon(cwd, args, j + 1);
  }

  lemma EmptyValueExamples(cwd: string)
    requires cwd != ""
    ensures ParseArgs(cwd, ["--background", "#000", "--background", ""]).background == "#000"
    ensures ParseArgs(cwd, ["--background", "", "icon.png"]) == Defaults.(iconPath := Some(cwd))
  {
  }

  lemma {:induction false} TrailingFlagAgrees(cwd: string, args: seq<string>, i: nat, cfg: Config)
    requires |args| >= 1 && FlagOf(args[|args| - 1]).Some?
    requires Reach(args, i, |args| - 1)
    ensures ParseFrom(cwd, args, i, cfg) == ParseFrom(cwd, args[..|args| - 1], i, cfg)
    decreases |args| - i
  {
    var n := |args|;
    var pre := args[..n - 1];
    if i < n - 1 {
      assert pre[i] == args[i];
      if i + 1 < n - 1 {
        assert pre[i + 1] == args[i + 1];
      } else if TakesValue(args, i) {
        assert false;
      }
      assert Next(pre, i) == Next(args, i);
      assert Step(cwd, pre, i, cfg) == Step(cwd, args, i, cfg);
      TrailingFlagAgrees(cwd, args, Next(args, i), Step(cwd, args, i, cfg));
    }
  }

  /** A flag left without a value at the end changes nothing. */
  lemma TrailingFlagIgnored(cwd: string, args: seq<string>)
    requires |args| >= 1 && FlagOf(args[|args| - 1]).Some?
    requires Reach(args, 0, |args| - 1)
    ensures ParseArgs(cwd, args) == ParseArgs(cwd, args[..|args| - 1])
  {
    TrailingFlagAgrees(cwd, args, 0, Defaults);
  }

  // ---------------------------------------------------------------------------
  // Background colour

  predicate IsHexDigit(c: char) {
    '0' <= c <= '9' || 'a' <= c <= 'f' || 'A' <= c <= 'F'
  }

  predicate HexTriple(s: string) {
    |s| == 3 && IsHexDigit(s[0]) && IsHexDigit(s[1]) && IsHexDigit(s[2])
  }

  /** The pattern ^#([0-9a-fA-F]{3}){1,2}$: a '#' and then one or two groups of three hex digits. */
  function IsHexColour(s: string): (ok: bool)
    ensures ok <==> (|s| == 4 || |s| == 7) && s[0] == '#' && forall i :: 1 <= i < |s| ==> IsHexDigit(s[i])
  {
    |s| >= 1 && s[0] == '#'
      && (HexTriple(s[1..]) || (|s| == 7 && HexTriple(s[1..4]) && HexTriple(s[4..])))
  }

  lemma ColourExamples()
    ensures IsHexColour("#fff") && IsHexColour("#FFFFFF") && IsHexColour("#1a2B3c")
    ensures !IsHexColour("red") && !IsHexColour("#ff") && !IsHexColour("#ffff")
    ensures !IsHexColour("#gggggg") && !IsHexColour("fff") && !IsHexColour("#fffffff")
  {
    assert "red"[0] != '#';
    assert "fff"[0] != '#';
    assert !IsHexDigit("#gggggg"[1]);
  }

  // ---------------------------------------------------------------------------
  // Mask

  /** The side the mask is resized to once, the largest adaptive canvas. */
  const MaskReferenceSize: nat := 432

  lemma MaskSizeIsLargestAdaptive()
    ensures MaskReferenceSize == AdaptiveIconSizes[|AdaptiveIconSizes| - 1].size
    ensures forall i :: 0 <= i < |AdaptiveIconSizes| ==> AdaptiveIconSizes[i].size <= MaskReferenceSize
  {
  }

  /** A mask must be a PNG with an alpha channel or an SVG. */
  predicate AcceptsMask(m: Metadata) {
    (m.format == "png" && m.hasAlpha) || m.format == "svg"
  }

  /** What the image library does with the mask file: it cannot read it, or it reports
      its metadata and the resize to the reference size succeeds or fails. */
  datatype MaskProbe = Unreadable | Probed(meta: Metadata, resized: bool)

  datatype MaskState = MaskState(hasValidMask: bool, buffer: Option<Image>)

  /** The mask check: a rejected or unreadable mask is ignored with a warning. The flag is
      set before the resize, so a failed resize leaves the flag set and no buffer. */
  function LoadMask(maskPath: Option<string>, probe: MaskProbe): (m: MaskState)
    ensures m.hasValidMask <==> Truthy(maskPath) && probe.Probed? && AcceptsMask(probe.meta)
    ensures m.buffer.Some? <==> m.hasValidMask && probe.resized
    ensures m.buffer.Some? ==>
      m.buffer.value == Resize(Decode(maskPath.value), MaskReferenceSize as real, MaskReferenceSize as real)
  {
    if !Truthy(maskPath) then MaskState(false, None)
    else match probe
      case Unreadable => MaskState(false, None)
      case Probed(meta, resized) =>
        if AcceptsMask(meta) then
          if resized then
            MaskState(true, Some(Resize(Decode(maskPath.value), MaskReferenceSize as real, MaskReferenceSize as real)))
          else MaskState(true, None)
        else MaskState(false, None)
  }

  lemma MaskExamples(path: string, w: int, h: int)
    requires path != ""
    ensures !LoadMask(Some(path), Probed(Metadata(w, h, "jpeg", false), true)).hasValidMask
    ensures !LoadMask(Some(path), Probed(Metadata(w, h, "png", false), true)).hasValidMask
    ensures LoadMask(Some(path), Probed(Metadata(w, h, "png", true), true)).hasValidMask
    ensures LoadMask(Some(path), Probed(Metadata(w, h, "svg", false), true)).hasValidMask
    ensures !LoadMask(Some(path), Unreadable).hasValidMask
    ensures LoadMask(None, Probed(Metadata(w, h, "svg", false), true)) == MaskState(false, None)
  {
  }

  // ---------------------------------------------------------------------------
  // The run

  /** The answers of the interactive prompt, which replace the parsed settings. */
  datatype Prompted = Prompted(iconPath: string, background: string, platform: string,
                               maskPath: Option<string>, outputDir: Option<string>)

  /** What the run reads from the machine. */
  datatype World = World(
    cwd: string,                          // the working directory
    existing: set<string>,                // the paths that exist
    tree: seq<Node>,                      // the listing of the working directory
    images: map<string, Metadata>,        // the readable images
    mask: MaskProbe,                      // what the image library makes of the mask
    iosListing: Option<seq<string>>,      // the listing of ios/, None when it is missing
    colors: Option<string>                // the content of colors.xml, None when it is missing
  )

  datatype Failure = InvalidColour(value: string) | IconNotFound | InvalidImage | NoIosProject

  /** An exit with a failure, or the plans of the generators that ran (Android runs first). */
  datatype Outcome = Exit(failure: Failure) | Generated(android: Option<seq<Action>>, ios: Option<seq<Action>>)

  function MetadataOf(w: World, path: string): Option<Metadata> {
    if path in w.images then Some(w.images[path]) else None
  }

  predicate WantsAndroid(platform: string) {
    platform == "android" || platform == "all"
  }

  predicate WantsIos(platform: string) {
    platform == "ios" || platform == "all"
  }

  /** The icon used: the prompted path when it exists (the empty path never does), else the
      one the search finds. */
  function IconUsed(answers: Prompted, w: World): Option<string> {
    if answers.iconPath != "" && answers.iconPath in w.existing then Some(answers.iconPath) else FindIconPath(w.cwd, w.tree)
  }

  /** The checks, in the order the command runs them; the first that fails decides the exit. */
  function Check(args: seq<string>, answers: Prompted, w: World): (f: Option<Failure>)
    ensures f == None <==>
      && IsHexColour(ParseArgs(w.cwd, args).background)
      && Truthy(IconUsed(answers, w))
      && ValidateImage(MetadataOf(w, IconUsed(answers, w).value))
      && (WantsIos(answers.platform) ==> Truthy(FindIosFolderName(w.iosListing)))
  {
    var cli := ParseArgs(w.cwd, args);
    if !IsHexColour(cli.background) then Some(InvalidColour(cli.background))
    else
      var icon := IconUsed(answers, w);
      if !Truthy(icon) then Some(IconNotFound)
      else if !ValidateImage(MetadataOf(w, icon.value)) then Some(InvalidImage)
      else if WantsIos(answers.platform) && !Truthy(FindIosFolderName(w.iosListing)) then
        Some(NoIosProject)
      else None
  }

  function Run(args: seq<string>, answers: Prompted, w: World): (o: Outcome)
    ensures o.Generated? <==> Check(args, answers, w) == None
    ensures o.Exit? ==> Check(args, answers, w) == Some(o.failure)
    ensures o.Generated? ==> (o.android.Some? <==> WantsAndroid(answers.platform))
    ensures o.Generated? ==> (o.ios.Some? <==> WantsIos(answers.platform))
    ensures o.Generated? && o.android.Some? ==>
      var mask := LoadMask(answers.maskPath, w.mask);
      o.android.value == GenerateAndroid(w.cwd, IconUsed(answers, w).value, answers.background,
                                         mask.hasValidMask, mask.buffer, answers.outputDir, w.colors)
    ensures o.Generated? && o.ios.Some? ==>
      o.ios.value == GenerateIos(w.cwd, IconUsed(answers, w).value, FindIosFolderName(w.iosListing).value,
                                 answers.background, answers.outputDir)
  {
    match Check(args, answers, w)
    case Some(failure) => Exit(failure)
    case None =>
      var icon := IconUsed(answers, w).value;
      var mask := LoadMask(answers.maskPath, w.mask);
      var iosFolder := FindIosFolderName(w.iosListing);
      var platform := answers.platform;
      Generated(
        if WantsAndroid(platform) then
          Some(GenerateAndroid(w.cwd, icon, answers.background, mask.hasValidMask, mask.buffer,
                               answers.outputDir, w.colors))
        else None,
        if WantsIos(platform) && Truthy(iosFolder) then
          Some(GenerateIos(w.cwd, icon, iosFolder.value, answers.background, answers.outputDir))
        else None)
  }

  /** The checks run in order and the first failing one decides the exit. */
  lemma RunExits(args: seq<string>, answers: Prompted, w: World)
    ensures var cli := ParseArgs(w.cwd, args);
      var o := Run(args, answers, w);
      var icon := IconUsed(answers, w);
      && (!IsHexColour(cli.background) ==> o == Exit(InvalidColour(cli.background)))
      && (IsHexColour(cli.background) && !Truthy(icon) ==> o == Exit(IconNotFound))
      && ((IsHexColour(cli.background) && Truthy(icon) && !ValidateImage(MetadataOf(w, icon.value)))
            ==> o == Exit(InvalidImage))
      && ((IsHexColour(cli.background) && Truthy(icon) && ValidateImage(MetadataOf(w, icon.value))
             && WantsIos(answers.platform) && !Truthy(FindIosFolderName(w.iosListing)))
            ==> o == Exit(NoIosProject))
  {
  }

  /** An unusable mask never stops the run: whether generation happens does not depend
      on what the image library makes of the mask. */
  lemma MaskNeverAborts(args: seq<string>, answers: Prompted, w: World, probe: MaskProbe)
    ensures Run(args, answers, w.(mask := probe)).Generated? == Run(args, answers, w).Generated?
  {
  }

  /** The arguments matter only through the colour check: the settings they carry go to
      the prompt, whose answers are what the generators use. */
  lemma ArgumentsOnlyGuard(args1: seq<string>, args2: seq<string>, answers: Prompted, w: World)
    requires IsHexColour(ParseArgs(w.cwd, args1).background)
    requires IsHexColour(ParseArgs(w.cwd, args2).background)
    ensures Run(args1, answers, w) == Run(args2, answers, w)
  {
  }

  /** The prompted background is not checked: a run can generate icons over "red". */
  lemma PromptedColourNotChecked()
    ensures var w := World("/app", {"/app/icon.png"}, [], map["/app/icon.png" := Metadata(1024, 1024, "png", true)],
                           Unreadable, None, None);
      var o := Run([], Prompted("/app/icon.png", "red", "android", None, None), w);
      && !IsHexColour("red")
      && o.Generated? && o.android.Some?
      && o.android.value == GenerateAndroid("/app", "/app/icon.png", "red", false, None, None, None)
  {
    ParseDefaults("/app");
    assert IsHexColour("#ffffff");
    assert "red"[0] != '#';
  }
}
