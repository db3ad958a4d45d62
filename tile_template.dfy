/**
 * The tile-URL adapter of the satellite overlay: a GIBS template such as
 * `https://host/{z}/{y}/{x}.png` becomes a concrete tile URL by three chained
 * string replacements, `{z}` by the zoom, `{y}` by the row and `{x}` by the
 * column. A replacement with a string pattern substitutes the FIRST
 * occurrence only, so later repeats of a placeholder stay in the output.
 */
module TileTemplate {
  import opened Options

  /** The tile address the map passes to getTileUrl: column x, row y, zoom z. */
  datatype Coords = Coords(x: int, y: int, z: int)

  /** `p` occurs in `s` starting at index `i`. */
  predicate OccursAt(s: string, p: string, i: int)
  {
    0 <= i && i + |p| <= |s| && s[i..i + |p|] == p
  }

  /** `p` occurs nowhere in `s`. */
  ghost predicate Absent(s: string, p: string)
  {
    forall j :: !OccursAt(s, p, j)
  }

  /** `i` is the first index at which `p` occurs in `s`. */
  ghost predicate FirstOccurrence(s: string, p: string, i: int)
  {
    OccursAt(s, p, i) && forall j :: 0 <= j < i ==> !OccursAt(s, p, j)
  }

  /** `s` begins with `p`. */
  predicate StartsWith(s: string, p: string)
  {
    |p| <= |s| && s[..|p|] == p
  }

  /**
   * `s.replace(p, r)` with a string pattern: the leftmost match of `p` is
   * replaced by `r`, and nothing else changes (the empty pattern matches at 0).
   * At most one match is replaced, so the length changes at most once by `|r| - |p|`.
   */
  function Replace(s: string, p: string, r: string): (out: string)
    decreases |s|
    ensures |out| == |s| || |out| == |s| - |p| + |r|
  {
    if StartsWith(s, p) then r + s[|p|..]
    else if |s| == 0 then s
    else [s[0]] + Replace(s[1..], p, r)
  }

  /** Occurrences in `s[1..]` are the occurrences in `s` shifted left by one. */
  lemma OccursShift(s: string, p: string, j: int)
    requires |s| > 0 && 0 <= j
    ensures OccursAt(s, p, j + 1) <==> OccursAt(s[1..], p, j)
  {
    if j + 1 + |p| <= |s| {
      assert s[j + 1..j + 1 + |p|] == s[1..][j..j + |p|];
    }
  }

  /** When the pattern does not occur, Replace returns the string unchanged. */
  lemma {:induction false} ReplaceAbsent(s: string, p: string, r: string)
    requires Absent(s, p)
    decreases |s|
    ensures Replace(s, p, r) == s
  {
    assert !OccursAt(s, p, 0);
    if |s| > 0 {
      forall j | 0 <= j ensures !OccursAt(s[1..], p, j) { OccursShift(s, p, j); }
      ReplaceAbsent(s[1..], p, r);
      assert [s[0]] + s[1..] == s;
    }
  }

  /** A first occurrence past index 0 is, one index earlier, the first occurrence in the tail. */
  lemma FirstOccurrenceTail(s: string, p: string, i: int)
    requires FirstOccurrence(s, p, i) && i >= 1
    ensures |s| > 0 && FirstOccurrence(s[1..], p, i - 1)
  {
    OccursShift(s, p, i - 1);
    forall j | 0 <= j < i - 1 ensures !OccursAt(s[1..], p, j) { OccursShift(s, p, j); }
  }

  /** Putting the first character back in front of a splice of the tail. */
  lemma SpliceCons(s: string, i: int, k: int, r: string)
    requires 1 <= i <= k <= |s|
    ensures [s[0]] + (s[1..][..i - 1] + r + s[1..][k - 1..]) == s[..i] + r + s[k..]
  {
    assert [s[0]] + s[1..][..i - 1] == s[..i];
    assert s[1..][k - 1..] == s[k..];
  }

  /**
   * Replace swaps the first occurrence of the pattern for `r` and keeps the
   * text before and after it; later occurrences stay as they are.
   */
  lemma {:induction false} ReplaceFirst(s: string, p: string, r: string, i: int)
    requires FirstOccurrence(s, p, i)
    decreases |s|
    ensures Replace(s, p, r) == s[..i] + r + s[i + |p|..]
  {
    if StartsWith(s, p) {
      assert OccursAt(s, p, 0);
    } else {
      assert i >= 1 by { assert !OccursAt(s, p, 0); }
      FirstOccurrenceTail(s, p, i);
      ReplaceFirst(s[1..], p, r, i - 1);
      SpliceCons(s, i, i + |p|, r);
    }
  }

  predicate IsDigit(c: char)
  {
    '0' <= c <= '9'
  }

  function DigitChar(d: nat): (c: char)
    requires d < 10
    ensures IsDigit(c) && (c == '0' <==> d == 0)
  {
    ('0' as int + d) as char
  }

  /**
   * Decimal digits of a natural number, most significant first, without
   * leading zeros: only the number 0 is written with a leading `0`, as "0".
   */
  function NatToString(n: nat): (s: string)
    decreases n
    ensures |s| > 0 && forall i :: 0 <= i < |s| ==> IsDigit(s[i])
    ensures s[0] == '0' <==> n == 0
    ensures n == 0 ==> s == "0"
  {
    if n < 10 then [DigitChar(n)] else NatToString(n / 10) + [DigitChar(n % 10)]
  }

  /** The value a string of decimal digits denotes. */
  function DecimalValue(s: string): int
    requires forall i :: 0 <= i < |s| ==> IsDigit(s[i])
  {
    if |s| == 0 then 0 else DecimalValue(s[..|s| - 1]) * 10 + (s[|s| - 1] as int - '0' as int)
  }

  /** Reading back the digits written by NatToString gives the number again. */
  lemma {:induction false} NatToStringRoundTrip(n: nat)
    ensures DecimalValue(NatToString(n)) == n
  {
    var s := NatToString(n);
    if n >= 10 {
      NatToStringRoundTrip(n / 10);
      assert s[..|s| - 1] == NatToString(n / 10);
    }
  }

  /**
   * JavaScript's conversion of an integral Number to a string, as `replace`
   * applies it to a coordinate: a `-` exactly for negative numbers, then the
   * decimal digits of the magnitude without leading zeros.
   */
  function NumberToString(n: int): (s: string)
    ensures |s| > 0 && '{' !in s
    ensures (s[0] == '-') <==> n < 0
    ensures n >= 0 ==> (forall i :: 0 <= i < |s| ==> IsDigit(s[i])) && DecimalValue(s) == n
    ensures n >= 0 ==> (s[0] == '0' <==> n == 0) && (n == 0 ==> s == "0")
    ensures n < 0 ==> |s| > 1 && (forall i :: 1 <= i < |s| ==> IsDigit(s[i])) && DecimalValue(s[1..]) == -n
    ensures n < 0 ==> s[1] != '0'
  {
    var digits := NatToString(if n < 0 then -n else n);
    NatToStringRoundTrip(if n < 0 then -n else n);
    if n < 0 then
      assert ("-" + digits)[1..] == digits;
      "-" + digits
    else digits
  }

  /** `{q}`, the placeholder named `q`. */
  function Placeholder(q: char): string
  {
    ['{', q, '}']
  }

  /** The three names a tile template uses. */
  predicate IsName(q: char)
  {
    q == 'z' || q == 'y' || q == 'x'
  }

  /** Substituted text that can neither start nor finish a placeholder: a sign and digits. */
  predicate Inert(r: string)
  {
    |r| > 0 && forall i :: 0 <= i < |r| ==> IsDigit(r[i]) || r[i] == '-'
  }

  lemma NumberToStringInert(n: int)
    ensures Inert(NumberToString(n))
  {
  }

  /**
   * The tile URL by name, in one left-to-right pass: the first `{z}` becomes
   * `zs`, the first `{y}` becomes `ys` and the first `{x}` becomes `xs`,
   * wherever each stands; a flag says whether its placeholder is still to be
   * replaced, and all other text is copied.
   */
  function Substitute(s: string, fz: bool, fy: bool, fx: bool, zs: string, ys: string, xs: string): string
    decreases |s|
  {
    if fz && StartsWith(s, "{z}") then zs + Substitute(s[3..], false, fy, fx, zs, ys, xs)
    else if fy && StartsWith(s, "{y}") then ys + Substitute(s[3..], fz, false, fx, zs, ys, xs)
    else if fx && StartsWith(s, "{x}") then xs + Substitute(s[3..], fz, fy, false, zs, ys, xs)
    else if |s| == 0 then s
    else [s[0]] + Substitute(s[1..], fz, fy, fx, zs, ys, xs)
  }

  /** One `replace` of the chain, or none when `on` is false. */
  function Step(s: string, on: bool, p: string, r: string): string
  {
    if on then Replace(s, p, r) else s
  }

  /** The chain of getTileUrl, restricted to the placeholders whose flag is set. */
  function Chain(s: string, fz: bool, fy: bool, fx: bool, zs: string, ys: string, xs: string): string
  {
    Step(Step(Step(s, fz, "{z}", zs), fy, "{y}", ys), fx, "{x}", xs)
  }

  /** A prefix without the pattern's first character is copied by Replace. */
  lemma {:induction false} ReplaceSkipPrefix(u: string, t: string, p: string, r: string)
    requires |p| > 0 && p[0] !in u
    decreases |u|
    ensures Replace(u + t, p, r) == u + Replace(t, p, r)
  {
    if |u| == 0 {
      assert u + t == t;
    } else {
      var s := u + t;
      assert !StartsWith(s, p) by { assert |p| <= |s| ==> s[..|p|][0] == u[0]; }
      assert s[1..] == u[1..] + t;
      ReplaceSkipPrefix(u[1..], t, p, r);
      assert [u[0]] + (u[1..] + Replace(t, p, r)) == u + Replace(t, p, r);
    }
  }

  lemma StepSkipPrefix(u: string, t: string, on: bool, p: string, r: string)
    requires |p| > 0 && p[0] !in u
    ensures Step(u + t, on, p, r) == u + Step(t, on, p, r)
  {
    if on {
      ReplaceSkipPrefix(u, t, p, r);
    }
  }

  /** Another placeholder in front is copied by the replacement of `{q}`. */
  lemma StepPassPlaceholder(q': char, t: string, on: bool, q: char, r: string)
    requires IsName(q) && IsName(q') && q != q'
    ensures Step(Placeholder(q') + t, on, Placeholder(q), r) == Placeholder(q') + Step(t, on, Placeholder(q), r)
  {
    if on {
      var s := Placeholder(q') + t;
      assert s[..3] == Placeholder(q');
      assert s[1..] == [q', '}'] + t;
      ReplaceSkipPrefix([q', '}'], t, Placeholder(q), r);
      assert [s[0]] + ([q', '}'] + Replace(t, Placeholder(q), r)) == Placeholder(q') + Replace(t, Placeholder(q), r);
    }
  }

  /** A placeholder at the front is replaced by the replacement of its own name. */
  lemma StepAtFront(t: string, q: char, r: string)
    ensures Step(Placeholder(q) + t, true, Placeholder(q), r) == r + t
  {
    var s := Placeholder(q) + t;
    assert s[..3] == Placeholder(q) && s[3..] == t;
  }

  /** The first character of a replacement's result: the original one, or one of the inert text. */
  lemma ReplaceHead(t: string, q: char, r: string)
    requires |t| > 0 && Inert(r)
    ensures |Replace(t, Placeholder(q), r)| > 0
    ensures Replace(t, Placeholder(q), r)[0] == t[0] || Inert([Replace(t, Placeholder(q), r)[0]])
  {
  }

  /**
   * Replacing `{q}` by inert text cannot make a string start with a name
   * followed by `}` unless it did already: a replacement cannot complete a
   * placeholder whose `{` stands just before it.
   */
  lemma StepKeepsHead(t: string, on: bool, q: char, r: string, a: char)
    requires Inert(r) && IsName(a)
    ensures StartsWith(Step(t, on, Placeholder(q), r), [a, '}']) ==> StartsWith(t, [a, '}'])
  {
    var out := Step(t, on, Placeholder(q), r);
    if on && StartsWith(out, [a, '}']) {
      ReplaceHead(t, q, r);
      assert out[0] == t[0];
      assert !StartsWith(t, Placeholder(q)) by { assert t[0] == a != '{'; }
      assert out == [t[0]] + Replace(t[1..], Placeholder(q), r);
      ReplaceHead(t[1..], q, r);
      assert out[1] == t[1];
      assert t[..2] == [a, '}'];
    }
  }

  /** A `{` that does not open a placeholder being replaced is copied. */
  lemma StepPeelBrace(w: string, on: bool, q: char, r: string)
    requires !(on && StartsWith(w, [q, '}']))
    ensures Step("{" + w, on, Placeholder(q), r) == "{" + Step(w, on, Placeholder(q), r)
  {
    if on {
      var s := "{" + w;
      assert s[1..] == w;
    }
  }

  /**
   * The three chained replacements with inert text are the one-pass
   * substitution by name: no replacement creates or destroys an occurrence of
   * another placeholder.
   */
  lemma {:induction false} ChainSubstitute(s: string, fz: bool, fy: bool, fx: bool, zs: string, ys: string, xs: string)
    requires Inert(zs) && Inert(ys) && Inert(xs)
    decreases |s|
    ensures Chain(s, fz, fy, fx, zs, ys, xs) == Substitute(s, fz, fy, fx, zs, ys, xs)
  {
    assert "{z}" == Placeholder('z') && "{y}" == Placeholder('y') && "{x}" == Placeholder('x');
    if fz && StartsWith(s, "{z}") {
      var t := s[3..];
      assert s == Placeholder('z') + t;
      StepAtFront(t, 'z', zs);
      StepSkipPrefix(zs, t, fy, "{y}", ys);
      StepSkipPrefix(zs, Step(t, fy, "{y}", ys), fx, "{x}", xs);
      ChainSubstitute(t, false, fy, fx, zs, ys, xs);
    } else if fy && StartsWith(s, "{y}") {
      var t := s[3..];
      assert s == Placeholder('y') + t;
      StepPassPlaceholder('y', t, fz, 'z', zs);
      var t1 := Step(t, fz, "{z}", zs);
      StepAtFront(t1, 'y', ys);
      StepSkipPrefix(ys, t1, fx, "{x}", xs);
      ChainSubstitute(t, fz, false, fx, zs, ys, xs);
    } else if fx && StartsWith(s, "{x}") {
      var t := s[3..];
      assert s == Placeholder('x') + t;
      StepPassPlaceholder('x', t, fz, 'z', zs);
      var t1 := Step(t, fz, "{z}", zs);
      StepPassPlaceholder('x', t1, fy, 'y', ys);
      var t2 := Step(t1, fy, "{y}", ys);
      StepAtFront(t2, 'x', xs);
      ChainSubstitute(t, fz, fy, false, zs, ys, xs);
    } else if |s| == 0 {
      assert !StartsWith(s, "{z}") && !StartsWith(s, "{y}") && !StartsWith(s, "{x}");
    } else {
      var t := s[1..];
      assert s == [s[0]] + t;
      ChainSubstitute(t, fz, fy, fx, zs, ys, xs);
      if s[0] != '{' {
        StepSkipPrefix([s[0]], t, fz, "{z}", zs);
        var t1 := Step(t, fz, "{z}", zs);
        StepSkipPrefix([s[0]], t1, fy, "{y}", ys);
        StepSkipPrefix([s[0]], Step(t1, fy, "{y}", ys), fx, "{x}", xs);
      } else {
        HeadAfterBrace(s, t, fz, fy, fx);
        StepPeelBrace(t, fz, 'z', zs);
        var t1 := Step(t, fz, "{z}", zs);
        StepKeepsHead(t, fz, 'z', zs, 'y');
        StepPeelBrace(t1, fy, 'y', ys);
        var t2 := Step(t1, fy, "{y}", ys);
        StepKeepsHead(t, fz, 'z', zs, 'x');
        StepKeepsHead(t1, fy, 'y', ys, 'x');
        StepPeelBrace(t2, fx, 'x', xs);
      }
    }
  }

  /** A `{` that opens no placeholder still to be replaced is not followed by such a name and `}`. */
  lemma HeadAfterBrace(s: string, t: string, fz: bool, fy: bool, fx: bool)
    requires s == "{" + t
    requires !(fz && StartsWith(s, "{z}")) && !(fy && StartsWith(s, "{y}")) && !(fx && StartsWith(s, "{x}"))
    ensures !(fz && StartsWith(t, "z}")) && !(fy && StartsWith(t, "y}")) && !(fx && StartsWith(t, "x}"))
  {
    if |t| >= 2 {
      assert s[..3] == "{" + t[..2];
    }
  }

  /** getTileUrl: substitute `{z}`, then `{y}`, then `{x}` in the stored template; each placeholder gets its own coordinate. */
  function TileUrl(template: string, c: Coords): (url: string)
    ensures url == Substitute(template, true, true, true, NumberToString(c.z), NumberToString(c.y), NumberToString(c.x))
  {
    var withZ := Replace(template, "{z}", NumberToString(c.z));
    var withY := Replace(withZ, "{y}", NumberToString(c.y));
    NumberToStringInert(c.z);
    NumberToStringInert(c.y);
    NumberToStringInert(c.x);
    ChainSubstitute(template, true, true, true, NumberToString(c.z), NumberToString(c.y), NumberToString(c.x));
    Replace(withY, "{x}", NumberToString(c.x))
  }

  /**
   * A placeholder preceded by text without `{` is the first occurrence, so it
   * is the one replaced; the text before and after it is kept as it was.
   */
  lemma ReplaceAfterPlainPrefix(u: string, p: string, v: string, r: string)
    requires |p| > 0 && p[0] !in u
    ensures Replace(u + p + v, p, r) == u + r + v
  {
    var s := u + p + v;
    assert s[|u|..|u| + |p|] == p;
    forall j | 0 <= j < |u|
      ensures !OccursAt(s, p, j)
    {
      assert s[j] == u[j] != p[0];
      assert j + |p| <= |s| ==> s[j..j + |p|][0] == s[j];
    }
    ReplaceFirst(s, p, r, |u|);
    assert s[..|u|] == u;
    assert s[|u| + |p|..] == v;
  }

  /** A template without any of the three placeholders is returned unchanged. */
  lemma TileUrlWithoutPlaceholders(template: string, c: Coords)
    requires Absent(template, "{z}") && Absent(template, "{y}") && Absent(template, "{x}")
    ensures TileUrl(template, c) == template
  {
    ReplaceAbsent(template, "{z}", NumberToString(c.z));
    ReplaceAbsent(template, "{y}", NumberToString(c.y));
    ReplaceAbsent(template, "{x}", NumberToString(c.x));
  }

  /** The three chained replacements on a template in GIBS order, for any substituted text without `{`. */
  lemma ReplaceChainGibsOrder(a: string, b: string, d: string, e: string, z: string, y: string, x: string)
    requires '{' !in a && '{' !in b && '{' !in d && '{' !in z && '{' !in y
    ensures Replace(Replace(Replace(a + "{z}" + b + "{y}" + d + "{x}" + e, "{z}", z), "{y}", y), "{x}", x)
         == a + z + b + y + d + x + e
  {
    var tail2 := d + "{x}" + e;
    var tail1 := b + "{y}" + tail2;
    assert a + "{z}" + b + "{y}" + d + "{x}" + e == a + "{z}" + tail1;
    ReplaceAfterPlainPrefix(a, "{z}", tail1, z);
    var pre2 := a + z + b;
    assert a + z + tail1 == pre2 + "{y}" + tail2;
    assert '{' !in pre2;
    ReplaceAfterPlainPrefix(pre2, "{y}", tail2, y);
    var pre3 := pre2 + y + d;
    assert pre2 + y + tail2 == pre3 + "{x}" + e;
    assert '{' !in pre3;
    ReplaceAfterPlainPrefix(pre3, "{x}", e, x);
  }

  /**
   * A template in GIBS order `a{z}b{y}d{x}e`, whose text `a`, `b`, `d` holds no `{`:
   * each placeholder is replaced by its own coordinate (`{y}` by the row,
   * `{x}` by the column), all other text is kept, and whatever follows `{x}`,
   * repeated placeholders included, stays literally in the result.
   */
  lemma TileUrlGibsOrder(template: string, a: string, b: string, d: string, e: string, c: Coords)
    requires template == a + "{z}" + b + "{y}" + d + "{x}" + e
    requires '{' !in a && '{' !in b && '{' !in d
    ensures TileUrl(template, c)
         == a + NumberToString(c.z) + b + NumberToString(c.y) + d + NumberToString(c.x) + e
  {
    ReplaceChainGibsOrder(a, b, d, e, NumberToString(c.z), NumberToString(c.y), NumberToString(c.x));
  }

  /** The worked example: zoom 5, column 3, row 7 give `https://host/5/7/3.png`. */
  lemma TileUrlExample(template: string, c: Coords)
    requires template == "https://host/{z}/{y}/{x}.png" && c == Coords(3, 7, 5)
    ensures TileUrl(template, c) == "https://host/5/7/3.png"
  {
    ExampleTemplateParts(template);
    TileUrlGibsOrder(template, "https://host/", "/", "/", ".png", c);
    SmallNumberToString();
    ExampleUrlParts();
  }

  lemma ExampleTemplateParts(template: string)
    requires template == "https://host/{z}/{y}/{x}.png"
    ensures template == "https://host/" + "{z}" + "/" + "{y}" + "/" + "{x}" + ".png"
  {
  }

  lemma ExampleUrlParts()
    ensures "https://host/" + "5" + "/" + "7" + "/" + "3" + ".png" == "https://host/5/7/3.png"
  {
  }

  lemma SmallNumberToString()
    ensures NumberToString(3) == "3" && NumberToString(5) == "5" && NumberToString(7) == "7"
  {
    assert NatToString(3) == [DigitChar(3)];
    assert NatToString(5) == [DigitChar(5)];
    assert NatToString(7) == [DigitChar(7)];
  }

  /** A second `{z}` after the first one is not substituted: it stays at the end of the tile URL. */
  lemma TileUrlRepeatedZoom(template: string, s1: string, s2: string, s3: string, c: Coords)
    requires template == "{z}" + s1 + "{y}" + s2 + "{x}" + (s3 + "{z}")
    requires '{' !in s1 && '{' !in s2
    ensures TileUrl(template, c)
         == NumberToString(c.z) + s1 + NumberToString(c.y) + s2 + NumberToString(c.x) + (s3 + "{z}")
  {
    assert template == "" + "{z}" + s1 + "{y}" + s2 + "{x}" + (s3 + "{z}");
    TileUrlGibsOrder(template, "", s1, s2, s3 + "{z}", c);
  }

  /** Once every placeholder has been replaced, the rest of the template is copied as it stands. */
  lemma {:induction false} SubstituteDone(s: string, zs: string, ys: string, xs: string)
    decreases |s|
    ensures Substitute(s, false, false, false, zs, ys, xs) == s
  {
    if |s| > 0 {
      SubstituteDone(s[1..], zs, ys, xs);
      assert [s[0]] + s[1..] == s;
    }
  }

  /** Text without `{` in front of the placeholders is copied as it stands. */
  lemma {:induction false} SubstitutePlainPrefix(u: string, t: string, fz: bool, fy: bool, fx: bool, zs: string, ys: string, xs: string)
    requires '{' !in u
    decreases |u|
    ensures Substitute(u + t, fz, fy, fx, zs, ys, xs) == u + Substitute(t, fz, fy, fx, zs, ys, xs)
  {
    if |u| == 0 {
      assert u + t == t;
    } else {
      var s := u + t;
      assert s[0] == u[0] != '{';
      assert s[1..] == u[1..] + t;
      SubstitutePlainPrefix(u[1..], t, fz, fy, fx, zs, ys, xs);
      assert [u[0]] + (u[1..] + Substitute(t, fz, fy, fx, zs, ys, xs)) == u + Substitute(t, fz, fy, fx, zs, ys, xs);
    }
  }

  /**
   * A `{` that opens no placeholder still to be replaced, such as the start of
   * another `{…}` field or of a placeholder already replaced, is copied.
   */
  lemma SubstituteOtherBrace(t: string, fz: bool, fy: bool, fx: bool, zs: string, ys: string, xs: string)
    requires !(fz && StartsWith(t, "z}")) && !(fy && StartsWith(t, "y}")) && !(fx && StartsWith(t, "x}"))
    ensures Substitute("{" + t, fz, fy, fx, zs, ys, xs) == "{" + Substitute(t, fz, fy, fx, zs, ys, xs)
  {
    var s := "{" + t;
    if |t| >= 2 {
      assert s[..3] == "{" + t[..2];
    }
    assert s[1..] == t;
  }

  /** A placeholder still to be replaced at the front becomes its own text and is cleared. */
  lemma SubstituteFront(t: string, fz: bool, fy: bool, fx: bool, zs: string, ys: string, xs: string)
    ensures fz ==> Substitute("{z}" + t, fz, fy, fx, zs, ys, xs) == zs + Substitute(t, false, fy, fx, zs, ys, xs)
    ensures fy ==> Substitute("{y}" + t, fz, fy, fx, zs, ys, xs) == ys + Substitute(t, fz, false, fx, zs, ys, xs)
    ensures fx ==> Substitute("{x}" + t, fz, fy, fx, zs, ys, xs) == xs + Substitute(t, fz, fy, false, zs, ys, xs)
  {
    assert ("{z}" + t)[..3] == "{z}" && ("{z}" + t)[3..] == t;
    assert ("{y}" + t)[..3] == "{y}" && ("{y}" + t)[3..] == t;
    assert ("{x}" + t)[..3] == "{x}" && ("{x}" + t)[3..] == t;
  }

  /** A `{z}` after the first one is copied as it stands. */
  lemma SubstituteRepeatedZoom(t: string, fy: bool, fx: bool, zs: string, ys: string, xs: string)
    ensures Substitute("{z}" + t, false, fy, fx, zs, ys, xs) == "{z}" + Substitute(t, false, fy, fx, zs, ys, xs)
  {
    var s := "{z}" + t;
    assert s[..3] == "{z}" && s[1..] == "z}" + t;
    SubstitutePlainPrefix("z}", t, false, fy, fx, zs, ys, xs);
    assert "{" + ("z}" + Substitute(t, false, fy, fx, zs, ys, xs)) == "{z}" + Substitute(t, false, fy, fx, zs, ys, xs);
  }

  /** A placeholder still to be replaced, then text without `{`: both are settled in one go. */
  lemma SubstituteFrontPlain(u: string, t: string, fz: bool, fy: bool, fx: bool, zs: string, ys: string, xs: string)
    requires '{' !in u
    ensures fz ==> Substitute("{z}" + (u + t), fz, fy, fx, zs, ys, xs) == zs + (u + Substitute(t, false, fy, fx, zs, ys, xs))
    ensures fy ==> Substitute("{y}" + (u + t), fz, fy, fx, zs, ys, xs) == ys + (u + Substitute(t, fz, false, fx, zs, ys, xs))
    ensures fx ==> Substitute("{x}" + (u + t), fz, fy, fx, zs, ys, xs) == xs + (u + Substitute(t, fz, fy, false, zs, ys, xs))
  {
    SubstituteFront(u + t, fz, fy, fx, zs, ys, xs);
    SubstitutePlainPrefix(u, t, false, fy, fx, zs, ys, xs);
    SubstitutePlainPrefix(u, t, fz, false, fx, zs, ys, xs);
    SubstitutePlainPrefix(u, t, fz, fy, false, zs, ys, xs);
  }

  /** The last placeholder still to be replaced, at the front: the rest is copied. */
  lemma SubstituteLast(e: string, zs: string, ys: string, xs: string)
    ensures Substitute("{z}" + e, true, false, false, zs, ys, xs) == zs + e
    ensures Substitute("{x}" + e, false, false, true, zs, ys, xs) == xs + e
  {
    SubstituteFront(e, true, false, false, zs, ys, xs);
    SubstituteFront(e, false, false, true, zs, ys, xs);
    SubstituteDone(e, zs, ys, xs);
  }

  lemma JoinSeven(a: string, b: string, c: string, d: string, e: string, f: string, g: string)
    ensures a + b + c + d + e + f + g == a + (b + (c + (d + (e + (f + g)))))
  {
  }

  lemma JoinNine(a: string, b: string, c: string, d: string, e: string, f: string, g: string, h: string, i: string)
    ensures a + b + c + d + e + f + g + h + i == a + (b + (c + (d + (e + (f + (g + (h + i)))))))
  {
  }

  lemma SubstituteReversedTail(b: string, d: string, e: string, zs: string, ys: string, xs: string)
    requires '{' !in b && '{' !in d
    ensures Substitute("{x}" + (b + ("{y}" + (d + ("{z}" + e)))), true, true, true, zs, ys, xs)
         == xs + (b + (ys + (d + (zs + e))))
  {
    SubstituteFrontPlain(b, "{y}" + (d + ("{z}" + e)), true, true, true, zs, ys, xs);
    SubstituteFrontPlain(d, "{z}" + e, true, true, false, zs, ys, xs);
    SubstituteLast(e, zs, ys, xs);
  }

  /** The placeholders in reverse order `a{x}b{y}d{z}e` are each replaced by their own value. */
  lemma SubstituteReversed(a: string, b: string, d: string, e: string, zs: string, ys: string, xs: string)
    requires '{' !in a && '{' !in b && '{' !in d
    ensures Substitute(a + "{x}" + b + "{y}" + d + "{z}" + e, true, true, true, zs, ys, xs)
         == a + xs + b + ys + d + zs + e
  {
    JoinSeven(a, "{x}", b, "{y}", d, "{z}", e);
    JoinSeven(a, xs, b, ys, d, zs, e);
    SubstitutePlainPrefix(a, "{x}" + (b + ("{y}" + (d + ("{z}" + e)))), true, true, true, zs, ys, xs);
    SubstituteReversedTail(b, d, e, zs, ys, xs);
  }

  lemma SubstituteZoomTwiceTail(b: string, b': string, d: string, e: string, zs: string, ys: string, xs: string)
    requires '{' !in b && '{' !in b' && '{' !in d
    ensures Substitute("{z}" + (b + ("{z}" + (b' + ("{y}" + (d + ("{x}" + e)))))), true, true, true, zs, ys, xs)
         == zs + (b + ("{z}" + (b' + (ys + (d + (xs + e))))))
  {
    var rest := "{y}" + (d + ("{x}" + e));
    SubstituteFrontPlain(b, "{z}" + (b' + rest), true, true, true, zs, ys, xs);
    SubstituteRepeatedZoom(b' + rest, true, true, zs, ys, xs);
    SubstitutePlainPrefix(b', rest, false, true, true, zs, ys, xs);
    SubstituteFrontPlain(d, "{x}" + e, false, true, true, zs, ys, xs);
    SubstituteLast(e, zs, ys, xs);
  }

  /** A second `{z}` between the first one and `{y}` is copied as it stands; `{y}` and `{x}` are still replaced. */
  lemma SubstituteZoomTwice(a: string, b: string, b': string, d: string, e: string, zs: string, ys: string, xs: string)
    requires '{' !in a && '{' !in b && '{' !in b' && '{' !in d
    ensures Substitute(a + "{z}" + b + "{z}" + b' + "{y}" + d + "{x}" + e, true, true, true, zs, ys, xs)
         == a + zs + b + "{z}" + b' + ys + d + xs + e
  {
    JoinNine(a, "{z}", b, "{z}", b', "{y}", d, "{x}", e);
    JoinNine(a, zs, b, "{z}", b', ys, d, xs, e);
    SubstitutePlainPrefix(a, "{z}" + (b + ("{z}" + (b' + ("{y}" + (d + ("{x}" + e)))))), true, true, true, zs, ys, xs);
    SubstituteZoomTwiceTail(b, b', d, e, zs, ys, xs);
  }

  /** The placeholders are found by name in any order: `{x}/{y}/{z}` with column 3, row 7 and zoom 5 gives `3/7/5`. */
  lemma TileUrlReversedOrder(template: string, c: Coords)
    requires template == "{x}/{y}/{z}" && c == Coords(3, 7, 5)
    ensures TileUrl(template, c) == "3/7/5"
  {
    SmallNumberToString();
    assert template == "" + "{x}" + "/" + "{y}" + "/" + "{z}" + "";
    SubstituteReversed("", "/", "/", "", "5", "7", "3");
    assert "" + "3" + "/" + "7" + "/" + "5" + "" == "3/7/5";
  }

  /** A repeated `{z}` before `{y}` and `{x}` stays literally: `{z}/{z}/{y}/{x}` gives `5/{z}/7/3`. */
  lemma TileUrlRepeatBeforeColumn(template: string, c: Coords)
    requires template == "{z}/{z}/{y}/{x}" && c == Coords(3, 7, 5)
    ensures TileUrl(template, c) == "5/{z}/7/3"
  {
    SmallNumberToString();
    assert template == "" + "{z}" + "/" + "{z}" + "/" + "{y}" + "/" + "{x}" + "";
    SubstituteZoomTwice("", "/", "/", "/", "", "5", "7", "3");
    assert "" + "5" + "/" + "{z}" + "/" + "7" + "/" + "3" + "" == "5/{z}/7/3";
  }
}
