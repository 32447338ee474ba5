/** String operations of JavaScript that the generators rely on: number rendering,
    ASCII lower-casing, prefix/suffix tests, `includes`, `indexOf` and a first-match
    `replace` with the substitution patterns of a replacement string. */
module Text {
  import opened Wrappers

  /** JavaScript truthiness of an optional string: present and not empty. */
  predicate Truthy(o: Option<string>) {
    o.Some? && o.value != ""
  }

  // ---------------------------------------------------------------------------
  // Decimal rendering of numbers

  predicate IsDigit(c: char) {
    '0' <= c <= '9'
  }

  predicate AllDigits(s: string) {
    forall i :: 0 <= i < |s| ==> IsDigit(s[i])
  }

  function DigitChar(d: nat): (c: char)
    requires d < 10
    ensures IsDigit(c) && c as int - '0' as int == d
  {
    ('0' as int + d) as char
  }

  /** Decimal rendering of a natural number, as String(n) gives it for an integer below 10^21. */
  function NatToString(n: nat): (s: string)
    ensures |s| > 0 && AllDigits(s)
    ensures s[0] == '0' <==> n == 0
    decreases n
  {
    if n < 10 then [DigitChar(n)] else NatToString(n / 10) + [DigitChar(n % 10)]
  }

  /** The value of a string of decimal digits (0 for the empty string). */
  function DigitsValue(s: string): nat
    requires AllDigits(s)
  {
    if s == [] then 0 else 10 * DigitsValue(s[..|s| - 1]) + (s[|s| - 1] as int - '0' as int)
  }

  /** Reads a non-empty string of decimal digits back into a number. */
  function ParseNat(s: string): Option<nat> {
    if s != [] && AllDigits(s) then Some(DigitsValue(s)) else None
  }

  lemma {:induction false} DigitsValueOfNatToString(n: nat)
    ensures DigitsValue(NatToString(n)) == n
    decreases n
  {
    if n >= 10 {
      var s := NatToString(n);
      assert s[..|s| - 1] == NatToString(n / 10);
      DigitsValueOfNatToString(n / 10);
    }
  }

  /** Reading back a rendered number gives the number. */
  lemma ParseNatOfNatToString(n: nat)
    ensures ParseNat(NatToString(n)) == Some(n)
  {
    DigitsValueOfNatToString(n);
  }

  /** Rendering of the number h/2 for a natural h, as String() gives it: "41" for 82, "83.5" for 167. */
  function HalvesToString(h: nat): string {
    NatToString(h / 2) + (if h % 2 == 1 then ".5" else "")
  }

  /** Reads a rendering of HalvesToString back into the count of halves. */
  function ParseHalves(s: string): Option<nat> {
    if |s| >= 2 && s[|s| - 2..] == ".5" then
      match ParseNat(s[..|s| - 2])
      case None => None
      case Some(n) => Some(2 * n + 1)
    else
      match ParseNat(s)
      case None => None
      case Some(n) => Some(2 * n)
  }

  lemma ParseHalvesOfHalvesToString(h: nat)
    ensures ParseHalves(HalvesToString(h)) == Some(h)
  {
    var d := NatToString(h / 2);
    ParseNatOfNatToString(h / 2);
    if h % 2 == 1 {
      var s := d + ".5";
      assert s[|s| - 2..] == ".5";
      assert s[..|s| - 2] == d;
    } else {
      assert HalvesToString(h) == d;
      if |d| >= 2 {
        assert IsDigit(d[|d| - 2]);
        assert d[|d| - 2..] != ".5";
      }
    }
  }

  lemma HalvesToStringInjective(a: nat, b: nat)
    ensures HalvesToString(a) == HalvesToString(b) ==> a == b
  {
    ParseHalvesOfHalvesToString(a);
    ParseHalvesOfHalvesToString(b);
  }

  /** A rendered half-point number holds no character other than digits and '.'. */
  lemma HalvesToStringChars(h: nat)
    ensures forall i :: 0 <= i < |HalvesToString(h)| ==>
      IsDigit(HalvesToString(h)[i]) || HalvesToString(h)[i] == '.'
  {
  }

  // ---------------------------------------------------------------------------
  // Case folding (ASCII letters only)

  function LowerChar(c: char): char {
    if 'A' <= c <= 'Z' then (c as int + 32) as char else c
  }

  /** toLowerCase restricted to the ASCII letters. */
  function Lower(s: string): (r: string)
    ensures |r| == |s|
    ensures forall i :: 0 <= i < |s| ==> r[i] == LowerChar(s[i])
  {
    seq(|s|, i requires 0 <= i < |s| => LowerChar(s[i]))
  }

  // ---------------------------------------------------------------------------
  // Searching

  predicate StartsWith(s: string, p: string) {
    |p| <= |s| && s[..|p|] == p
  }

  predicate EndsWith(s: string, x: string) {
    |x| <= |s| && s[|s| - |x|..] == x
  }

  predicate OccursAt(s: string, t: string, i: nat) {
    i + |t| <= |s| && s[i..i + |t|] == t
  }

  /** First position at or after `from` where `t` occurs in `s`. */
  function IndexOfFrom(s: string, t: string, from: nat): (r: Option<nat>)
    ensures r.Some? ==> from <= r.value && OccursAt(s, t, r.value)
    ensures r.Some? ==> forall j :: from <= j < r.value ==> !OccursAt(s, t, j)
    ensures r.None? ==> forall j :: from <= j ==> !OccursAt(s, t, j)
    decreases |s| - from
  {
    if from + |t| > |s| then None
    else if s[from..from + |t|] == t then Some(from)
    else IndexOfFrom(s, t, from + 1)
  }

  /** indexOf: the first position where `t` occurs in `s`. */
  function IndexOf(s: string, t: string): Option<nat> {
    IndexOfFrom(s, t, 0)
  }

  /** includes. */
  predicate Contains(s: string, t: string) {
    IndexOf(s, t).Some?
  }

  lemma OccursAtContains(s: string, t: string, i: nat)
    requires OccursAt(s, t, i)
    ensures Contains(s, t) && IndexOf(s, t).value <= i
  {
  }

  /** A string is found inside any string it is embedded in. */
  lemma ContainsInfix(a: string, t: string, b: string)
    ensures Contains(a + t + b, t)
  {
    var s := a + t + b;
    assert s[|a|..|a| + |t|] == t;
    OccursAtContains(s, t, |a|);
  }

  /** A string is found inside any string built around it. */
  lemma ContainsInside(x: string, a: string, t: string, b: string, y: string)
    ensures Contains(x + (a + t + b) + y, t)
  {
    assert x + (a + t + b) + y == (x + a) + t + (b + y);
    ContainsInfix(x + a, t, b + y);
  }

  /** A character that does not occur in `a` is first found at the end of `a`. */
  function SplitAt(s: string, c: char): (r: Option<(string, string)>)
    ensures r.Some? ==> r.value.0 + [c] + r.value.1 == s && c !in r.value.0
    ensures r.None? ==> c !in s
  {
    if s == [] then None
    else if s[0] == c then Some(([], s[1..]))
    else match SplitAt(s[1..], c)
      case None => None
      case Some(p) => Some(([s[0]] + p.0, p.1))
  }

  lemma {:induction false} SplitAtJoin(a: string, c: char, b: string)
    requires c !in a
    ensures SplitAt(a + [c] + b, c) == Some((a, b))
  {
    if a != [] {
      assert (a + [c] + b)[0] == a[0] != c;
      assert (a + [c] + b)[1..] == a[1..] + [c] + b;
      SplitAtJoin(a[1..], c, b);
      assert [a[0]] + a[1..] == a;
    } else {
      assert (a + [c] + b)[1..] == b;
    }
  }

  // ---------------------------------------------------------------------------
  // String.prototype.replace with a string pattern or a capture-free regular expression

  /** Expands the `$` patterns of a replacement string for a match `matched` that sits
      between `before` and `after`: `$$`, `$&`, `` $` `` and `$'`. Any other `$` is
      kept as it is, since the patterns in question have no capture groups. */
  function Substitute(template: string, matched: string, before: string, after: string): string
    decreases |template|
  {
    if template == [] then []
    else if template[0] == '$' && |template| >= 2 then
      var c := template[1];
      if c == '$' then "$" + Substitute(template[2..], matched, before, after)
      else if c == '&' then matched + Substitute(template[2..], matched, before, after)
      else if c == '`' then before + Substitute(template[2..], matched, before, after)
      else if c == '\'' then after + Substitute(template[2..], matched, before, after)
      else [template[0]] + Substitute(template[1..], matched, before, after)
    else [template[0]] + Substitute(template[1..], matched, before, after)
  }

  /** Text without a `$` is inserted literally. */
  lemma {:induction false} SubstituteLiteral(template: string, matched: string, before: string, after: string)
    requires '$' !in template
    ensures Substitute(template, matched, before, after) == template
    decreases |template|
  {
    if template != [] {
      assert '$' !in template[1..];
      SubstituteLiteral(template[1..], matched, before, after);
    }
  }

  /** A `$`-free head of the template passes through unchanged. */
  lemma {:induction false} SubstituteLiteralHead(head: string, rest: string, matched: string, before: string, after: string)
    requires '$' !in head
    ensures Substitute(head + rest, matched, before, after) == head + Substitute(rest, matched, before, after)
    decreases |head|
  {
    if head != [] {
      assert (head + rest)[0] == head[0] != '$';
      assert (head + rest)[1..] == head[1..] + rest;
      assert '$' !in head[1..];
      SubstituteLiteralHead(head[1..], rest, matched, before, after);
      assert [head[0]] + head[1..] == head;
    } else {
      assert head + rest == rest;
    }
  }

  /** Replaces the first occurrence of `pat` in `s` by the expansion of `template`;
      `s` is returned unchanged when `pat` does not occur. */
  function ReplaceFirst(s: string, pat: string, template: string): (r: string)
    ensures !Contains(s, pat) ==> r == s
  {
    match IndexOf(s, pat)
    case None => s
    case Some(i) =>
      s[..i] + Substitute(template, pat, s[..i], s[i + |pat|..]) + s[i + |pat|..]
  }

  /** When `pat` occurs, its first occurrence is replaced by the expansion of `template`,
      computed for that match, and the text around it is kept. */
  lemma ReplaceFirstReplacesFirstOccurrence(s: string, pat: string, template: string)
    ensures Contains(s, pat) ==>
      exists i: nat :: OccursAt(s, pat, i) && (forall j :: 0 <= j < i ==> !OccursAt(s, pat, j))
        && ReplaceFirst(s, pat, template)
           == s[..i] + Substitute(template, pat, s[..i], s[i + |pat|..]) + s[i + |pat|..]
  {
    if Contains(s, pat) {
      var i := IndexOf(s, pat).value;
      assert OccursAt(s, pat, i);
    }
  }
}
