/** What a generator run does to the outside world, as a value: the pixel library's
    work is an abstract image term (the chain of operations that produced it) and the
    filesystem effects are a list of actions in the order they are performed. */
module Plan {
  import opened Text
  import opened Paths

  /** How a composite layer is combined with the canvas below it. */
  datatype Blend = Over | DestIn

  /** Where a composite layer is placed: explicit offsets, or the library's default centring. */
  datatype Placement = Centre | At(top: int, left: int)

  datatype Image =
    | Decode(path: string)                                        // an image file on disk
    | SvgMarkup(svg: string)                                      // an in-memory SVG document
    | Canvas(width: nat, height: nat, channels: nat, background: string)
    | Resize(source: Image, toWidth: real, toHeight: real)
    | Flatten(source: Image, background: string)                  // alpha composited over a colour
    | Composite(base: Image, layers: seq<Layer>)

  datatype Layer = Layer(input: Image, placement: Placement, blend: Blend)

  /** The JSON values a generator writes. */
  datatype Json =
    | JNumber(n: int)
    | JString(s: string)
    | JArray(items: seq<Json>)
    | JObject(fields: seq<(string, Json)>)

  datatype Action =
    | EnsureDir(dir: string)
    | WriteImage(path: string, image: Image)
    | WriteText(path: string, text: string)
    | WriteJson(path: string, value: Json)

  predicate IsWrite(a: Action) {
    !a.EnsureDir?
  }

  /** Every file the actions write lies inside the directory `dir`. */
  predicate WritesUnder(acts: seq<Action>, dir: string) {
    forall k :: 0 <= k < |acts| && IsWrite(acts[k]) ==> StartsWith(acts[k].path, dir + "/")
  }

  /** A path joined onto `dir`, directly or through one subfolder, lies inside `dir`. */
  lemma JoinIsInside(dir: string, sub: string, name: string)
    ensures StartsWith(Join(dir, name), dir + "/")
    ensures StartsWith(Join(Join(dir, sub), name), dir + "/")
  {
    assert Join(dir, name)[..|dir + "/"|] == dir + "/";
    assert Join(Join(dir, sub), name) == (dir + "/") + (sub + "/" + name);
    assert Join(Join(dir, sub), name)[..|dir + "/"|] == dir + "/";
  }

  /** The number of image files a sequence of actions writes. */
  function ImageCount(acts: seq<Action>): nat {
    if acts == [] then 0
    else (if acts[0].WriteImage? then 1 else 0) + ImageCount(acts[1..])
  }

  lemma {:induction false} ImageCountAppend(a: seq<Action>, b: seq<Action>)
    ensures ImageCount(a + b) == ImageCount(a) + ImageCount(b)
  {
    if a != [] {
      assert (a + b)[1..] == a[1..] + b;
      ImageCountAppend(a[1..], b);
    } else {
      assert a + b == b;
    }
  }

  /** One action in front adds one to the count exactly when it writes an image. */
  lemma ImageCountCons(x: Action, rest: seq<Action>)
    ensures ImageCount([x] + rest) == (if x.WriteImage? then 1 else 0) + ImageCount(rest)
  {
    assert ([x] + rest)[1..] == rest;
  }
}
