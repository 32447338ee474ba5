/** Project discovery over a directory tree given as a value: the depth-first search
    for the icon file, and the iOS project name taken from the `ios` listing. */
module PathHelper {
  import opened Wrappers
  import opened Text
  import opened Paths

  /** A directory entry, with a directory's entries in listing order. */
  datatype Node = File(name: string) | Dir(name: string, children: seq<Node>)

  const DefaultIconName := "app_icon.png"

  predicate NameMatches(name: string, target: string) {
    Lower(name) == Lower(target)
  }

  /** The walk over a directory's listing: a subdirectory is searched completely before
      its later siblings, and the first file whose name matches ends the search. */
  function Walk(dir: string, entries: seq<Node>, target: string): Option<string>
    decreases entries
  {
    if entries == [] then None
    else match entries[0]
      case Dir(n, kids) =>
        var inner := Walk(Join(dir, n), kids, target);
        if inner.Some? then inner else Walk(dir, entries[1..], target)
      case File(n) =>
        if NameMatches(n, target) then Some(Join(dir, n)) else Walk(dir, entries[1..], target)
  }

  /** findIconPath: `entries` is the listing of `startDir`. */
  function FindIconPath(startDir: string, entries: seq<Node>, filename: string := DefaultIconName): Option<string> {
    Walk(startDir, entries, filename)
  }

  // ---------------------------------------------------------------------------
  // Reference: the files of a tree in pre-order

  datatype FileRef = FileRef(path: string, name: string)

  /** Every file of the tree with its full path, in depth-first pre-order. */
  function Files(dir: string, entries: seq<Node>): seq<FileRef>
    decreases entries
  {
    if entries == [] then []
    else match entries[0]
      case Dir(n, kids) => Files(Join(dir, n), kids) + Files(dir, entries[1..])
      case File(n) => [FileRef(Join(dir, n), n)] + Files(dir, entries[1..])
  }

  function FirstMatch(files: seq<FileRef>, target: string): Option<string> {
    match FindIndex(files, (f: FileRef) => NameMatches(f.name, target))
    case None => None
    case Some(k) => Some(files[k].path)
  }

  lemma {:induction false} FirstMatchAppend(a: seq<FileRef>, b: seq<FileRef>, target: string)
    ensures FirstMatch(a + b, target) == if FirstMatch(a, target).Some? then FirstMatch(a, target) else FirstMatch(b, target)
  {
    var p := (f: FileRef) => NameMatches(f.name, target);
    if a == [] {
      assert a + b == b;
    } else if p(a[0]) {
      assert (a + b)[0] == a[0];
    } else {
      assert (a + b)[0] == a[0];
      assert (a + b)[1..] == a[1..] + b;
      FirstMatchAppend(a[1..], b, target);
      FirstMatchTail(a, target);
      FirstMatchTail(a + b, target);
    }
  }

  lemma FirstMatchTail(files: seq<FileRef>, target: string)
    requires files != [] && !NameMatches(files[0].name, target)
    ensures FirstMatch(files, target) == FirstMatch(files[1..], target)
  {
  }

  lemma FirstMatchHead(f: FileRef, rest: seq<FileRef>, target: string)
    requires NameMatches(f.name, target)
    ensures FirstMatch([f] + rest, target) == Some(f.path)
  {
    assert ([f] + rest)[0] == f;
  }

  /** The search returns the first file, in depth-first pre-order, whose name equals the
      target ignoring case; directories are entered, never returned. */
  lemma {:induction false} WalkIsFirstPreorderMatch(dir: string, entries: seq<Node>, target: string)
    ensures Walk(dir, entries, target) == FirstMatch(Files(dir, entries), target)
    decreases entries
  {
    if entries != [] {
      match entries[0]
      case Dir(n, kids) =>
        WalkIsFirstPreorderMatch(Join(dir, n), kids, target);
        WalkIsFirstPreorderMatch(dir, entries[1..], target);
        FirstMatchAppend(Files(Join(dir, n), kids), Files(dir, entries[1..]), target);
      case File(n) =>
        WalkIsFirstPreorderMatch(dir, entries[1..], target);
        var f := FileRef(Join(dir, n), n);
        if NameMatches(n, target) {
          FirstMatchHead(f, Files(dir, entries[1..]), target);
        } else {
          FirstMatchAppend([f], Files(dir, entries[1..]), target);
          FirstMatchTail([f], target);
        }
    }
  }

  /** findIconPath returns the path of a matching file of the tree, and no file listed
      before it in pre-order matches; it returns None exactly when no file matches. */
  lemma FindIconPathSpec(startDir: string, entries: seq<Node>, filename: string)
    ensures var r := FindIconPath(startDir, entries, filename);
      var files := Files(startDir, entries);
      && (r.None? <==> forall k :: 0 <= k < |files| ==> !NameMatches(files[k].name, filename))
      && (r.Some? ==> exists k :: 0 <= k < |files| && files[k].path == r.value
                         && NameMatches(files[k].name, filename)
                         && forall j :: 0 <= j < k ==> !NameMatches(files[j].name, filename))
  {
    WalkIsFirstPreorderMatch(startDir, entries, filename);
    var files := Files(startDir, entries);
    var p := (f: FileRef) => NameMatches(f.name, filename);
    match FindIndex(files, p)
    case None =>
    case Some(k) =>
      assert files[k].path == FindIconPath(startDir, entries, filename).value;
  }

  lemma DiscoveryExamples()
    ensures FindIconPath("/p", [Dir("app_icon.png", [])]) == None
    ensures FindIconPath("/p", [Dir("a", [File("App_Icon.PNG")]), File("app_icon.png")]) == Some("/p/a/App_Icon.PNG")
  {
    assert Lower("App_Icon.PNG") == "app_icon.png";
    assert Lower("app_icon.png") == "app_icon.png";
    assert NameMatches("App_Icon.PNG", "app_icon.png");
    assert Join("/p", "a") == "/p/a";
    assert Walk("/p/a", [File("App_Icon.PNG")], "app_icon.png") == Some(Join("/p/a", "App_Icon.PNG"));
    assert Join("/p/a", "App_Icon.PNG") == "/p/a/App_Icon.PNG";
  }

  // ---------------------------------------------------------------------------
  // iOS project folder

  const XcodeprojSuffix := ".xcodeproj"

  predicate IsXcodeproj(entry: string) {
    EndsWith(entry, XcodeprojSuffix)
  }

  /** findIosFolderName: `listing` is the content of the `ios` directory, None when it
      does not exist. The first `.xcodeproj` entry names the project, with the first
      occurrence of `.xcodeproj` removed. */
  function FindIosFolderName(listing: Option<seq<string>>): (r: Option<string>)
    ensures r.Some? <==> listing.Some? && exists k :: 0 <= k < |listing.value| && IsXcodeproj(listing.value[k])
    ensures r.Some? ==>
      exists k :: 0 <= k < |listing.value| && IsXcodeproj(listing.value[k])
        && (forall j :: 0 <= j < k ==> !IsXcodeproj(listing.value[j]))
        && r.value == ReplaceFirst(listing.value[k], XcodeprojSuffix, "")
  {
    var dirs := if listing.Some? then listing.value else [];
    match FindIndex(dirs, IsXcodeproj)
    case None => None
    case Some(k) => Some(ReplaceFirst(dirs[k], XcodeprojSuffix, ""))
  }

  /** A project entry `Name.xcodeproj` after non-project entries is found as Name, as long
      as Name itself does not contain `.xcodeproj`. */
  lemma FindIosFolderNameStripsSuffix(before: seq<string>, name: string, after: seq<string>)
    requires forall k :: 0 <= k < |before| ==> !IsXcodeproj(before[k])
    requires !Contains(name, XcodeprojSuffix)
    ensures FindIosFolderName(Some(before + [name + XcodeprojSuffix] + after)) == Some(name)
  {
    var listing := before + [name + XcodeprojSuffix] + after;
    var entry := name + XcodeprojSuffix;
    assert listing[|before|] == entry;
    assert IsXcodeproj(entry);
    var k := FindIndex(listing, IsXcodeproj).value;
    assert k == |before|;
    assert OccursAt(entry, XcodeprojSuffix, |name|);
    forall j: nat | j < |name|
      ensures !OccursAt(entry, XcodeprojSuffix, j)
    {
      if j + |XcodeprojSuffix| <= |name| {
        if OccursAt(entry, XcodeprojSuffix, j) {
          assert name[j..j + |XcodeprojSuffix|] == entry[j..j + |XcodeprojSuffix|];
          OccursAtContains(name, XcodeprojSuffix, j);
        }
      } else {
        // the '.' that starts the appended suffix would fall inside the occurrence, but
        // `.xcodeproj` has no '.' after its first character
        var m := |name| - j;
        assert entry[j..j + |XcodeprojSuffix|][m] == entry[|name|] == '.';
        assert XcodeprojSuffix[m] != '.';
      }
    }
    var i := IndexOf(entry, XcodeprojSuffix).value;
    assert i == |name|;
    assert entry[..i] == name;
    assert entry[i + |XcodeprojSuffix|..] == [];
    assert ReplaceFirst(entry, XcodeprojSuffix, "") == name;
  }

  /** A dotted project name keeps its dots. */
  lemma DottedIosFolderName()
    ensures FindIosFolderName(Some(["Podfile", "My.App.xcodeproj"])) == Some("My.App")
  {
    assert "My.App" + XcodeprojSuffix == "My.App.xcodeproj";
    assert ["Podfile"] + ["My.App" + XcodeprojSuffix] + [] == ["Podfile", "My.App.xcodeproj"];
    FindIosFolderNameStripsSuffix(["Podfile"], "My.App", []);
  }

  /** The first occurrence of `.xcodeproj` is removed, not the suffix. */
  lemma IosFolderNameDropsFirstOccurrence()
    ensures FindIosFolderName(Some(["a.xcodeprojb.xcodeproj"])) == Some("ab.xcodeproj")
  {
    var e := "a.xcodeprojb.xcodeproj";
    assert IsXcodeproj(e);
    assert FindIndex([e], IsXcodeproj) == Some(0);
    assert e[0..10][0] != XcodeprojSuffix[0];
    assert e[1..11] == XcodeprojSuffix;
    assert IndexOf(e, XcodeprojSuffix) == Some(1);
    assert e[..1] + "" + e[11..] == "ab.xcodeproj";
  }
}
