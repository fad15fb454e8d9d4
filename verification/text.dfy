/**
 * The JavaScript string operations the catalog code relies on, restricted to what
 * the code uses: ASCII lower-casing, the `/[^a-z0-9]+/g` handle rewrite, `trim`,
 * `startsWith`, `includes`, `split('/').pop()`, number-to-text and `parseInt`.
 */
module Text {
  import opened Wrappers

  /** A JavaScript number as produced by `parseInt`: NaN or an integer. */
  datatype Num = NaN | Int(value: int)

  /** `n > 0` in JavaScript: NaN compares false. */
  predicate IsPositive(n: Num) {
    n.Int? && n.value > 0
  }

  /** JavaScript truthiness of an optional string: present and non-empty. */
  predicate Truthy(s: Option<string>) {
    s.Some? && s.value != ""
  }

  /** `s || fallback` on an optional string. */
  function OrElse(s: Option<string>, fallback: string): (r: string)
    ensures Truthy(s) ==> r == s.value
    ensures !Truthy(s) ==> r == fallback
  {
    if s.Some? && s.value != "" then s.value else fallback
  }

  /** `xs.filter(Boolean)` on optional strings: the present, non-empty values in order. */
  function Present(xs: seq<Option<string>>): (r: seq<string>)
    ensures |r| <= |xs|
    ensures forall v :: v in r <==> v != "" && Some(v) in xs
  {
    if |xs| == 0 then []
    else
      var init := xs[..|xs| - 1];
      assert xs == init + [xs[|xs| - 1]];
      Present(init) + (if Truthy(xs[|xs| - 1]) then [xs[|xs| - 1].value] else [])
  }

  // ---------------------------------------------------------------- case

  predicate IsAsciiUpper(c: char) {
    'A' <= c <= 'Z'
  }

  function LowerChar(c: char): (r: char)
    ensures !IsAsciiUpper(r)
    ensures !IsAsciiUpper(c) ==> r == c
  {
    if IsAsciiUpper(c) then (c as int + 32) as char else c
  }

  /** `toLowerCase` on the ASCII range; other characters are left as they are. */
  function ToLower(s: string): (r: string)
    ensures |r| == |s|
    ensures forall i :: 0 <= i < |s| ==> r[i] == LowerChar(s[i])
  {
    if |s| == 0 then [] else [LowerChar(s[0])] + ToLower(s[1..])
  }

  lemma ToLowerKeepsLowercase(s: string)
    requires forall i :: 0 <= i < |s| ==> !IsAsciiUpper(s[i])
    ensures ToLower(s) == s
  {
  }

  // ---------------------------------------------------------------- handles

  /** The characters a handle keeps verbatim: `[a-z0-9]`. */
  predicate IsHandleChar(c: char) {
    'a' <= c <= 'z' || '0' <= c <= '9'
  }

  /** Text made only of `[a-z0-9-]` with no two hyphens in a row. */
  predicate IsSlug(s: string) {
    && (forall i :: 0 <= i < |s| ==> IsHandleChar(s[i]) || s[i] == '-')
    && (forall i :: 0 <= i < |s| - 1 ==> !(s[i] == '-' && s[i + 1] == '-'))
  }

  /** The `[a-z0-9]` characters of `s`, in order. */
  function HandleChars(s: string): (r: string)
    ensures |r| <= |s|
  {
    if |s| == 0 then []
    else (if IsHandleChar(s[0]) then [s[0]] else []) + HandleChars(s[1..])
  }

  /** Drops the leading run of characters outside `[a-z0-9]`. */
  function SkipRun(s: string): (r: string)
    ensures |r| <= |s| && r == s[|s| - |r|..]
    ensures forall i :: 0 <= i < |s| - |r| ==> !IsHandleChar(s[i])
    ensures |r| > 0 ==> IsHandleChar(r[0])
  {
    if |s| == 0 || IsHandleChar(s[0]) then s else SkipRun(s[1..])
  }

  lemma {:induction false} SkipRunHandleChars(s: string)
    ensures HandleChars(SkipRun(s)) == HandleChars(s)
  {
    if |s| > 0 && !IsHandleChar(s[0]) {
      SkipRunHandleChars(s[1..]);
    }
  }

  /**
   * `s.replace(/[^a-z0-9]+/g, '-')`: every maximal run of characters outside
   * `[a-z0-9]` becomes a single hyphen, including a leading or trailing run.
   */
  function ReplaceRuns(s: string): (r: string)
    ensures |r| <= |s|
    ensures |s| > 0 ==> |r| > 0 && r[0] == (if IsHandleChar(s[0]) then s[0] else '-')
    decreases |s|
  {
    if |s| == 0 then ""
    else if IsHandleChar(s[0]) then [s[0]] + ReplaceRuns(s[1..])
    else "-" + ReplaceRuns(SkipRun(s[1..]))
  }

  /** The rewrite produces only `[a-z0-9-]` and never two hyphens in a row. */
  lemma {:induction false} ReplaceRunsIsSlug(s: string)
    ensures IsSlug(ReplaceRuns(s))
    decreases |s|
  {
    if |s| == 0 {
    } else if IsHandleChar(s[0]) {
      ReplaceRunsIsSlug(s[1..]);
    } else {
      ReplaceRunsIsSlug(SkipRun(s[1..]));
    }
  }

  /** The rewrite keeps every `[a-z0-9]` character of its input, in order. */
  lemma {:induction false} ReplaceRunsKeepsHandleChars(s: string)
    ensures HandleChars(ReplaceRuns(s)) == HandleChars(s)
    decreases |s|
  {
    if |s| == 0 {
    } else if IsHandleChar(s[0]) {
      var rest := ReplaceRuns(s[1..]);
      ReplaceRunsKeepsHandleChars(s[1..]);
      assert ([s[0]] + rest)[1..] == rest;
    } else {
      var rest := ReplaceRuns(SkipRun(s[1..]));
      ReplaceRunsKeepsHandleChars(SkipRun(s[1..]));
      SkipRunHandleChars(s[1..]);
      assert ("-" + rest)[1..] == rest;
    }
  }

  /** A trailing character outside `[a-z0-9]` leaves a trailing hyphen. */
  lemma {:induction false} ReplaceRunsLastChar(s: string)
    requires |s| > 0
    ensures |ReplaceRuns(s)| > 0
    ensures ReplaceRuns(s)[|ReplaceRuns(s)| - 1] == (if IsHandleChar(s[|s| - 1]) then s[|s| - 1] else '-')
    decreases |s|
  {
    if IsHandleChar(s[0]) {
      if |s| > 1 {
        ReplaceRunsLastChar(s[1..]);
      }
    } else {
      var tail := SkipRun(s[1..]);
      if |tail| > 0 {
        ReplaceRunsLastChar(tail);
        assert tail[|tail| - 1] == s[|s| - 1];
      } else {
        assert !IsHandleChar(s[|s| - 1]);
      }
    }
  }

  /** A product or collection handle: `title.toLowerCase().replace(/[^a-z0-9]+/g, '-')`. */
  /**
   * The handle derived from a title: a slug (only `[a-z0-9-]`, no two hyphens
   * in a row), no longer than the title, and empty only for an empty title.
   */
  function Handle(title: string): (r: string)
    ensures IsSlug(r)
    ensures |r| <= |title|
    ensures |r| > 0 <==> |title| > 0
  {
    ReplaceRunsIsSlug(ToLower(title));
    ReplaceRuns(ToLower(title))
  }

  lemma {:induction false} SlugTail(s: string)
    requires |s| > 0 && IsSlug(s)
    ensures IsSlug(s[1..])
  {
    var t := s[1..];
    forall i | 0 <= i < |t|
      ensures IsHandleChar(t[i]) || t[i] == '-'
    {
      assert t[i] == s[i + 1];
    }
    forall i | 0 <= i < |t| - 1
      ensures !(t[i] == '-' && t[i + 1] == '-')
    {
      assert t[i] == s[i + 1] && t[i + 1] == s[i + 2];
    }
  }

  /** A text already in handle form is left unchanged by the rewrite. */
  lemma {:induction false} ReplaceRunsFixesSlugs(s: string)
    requires IsSlug(s)
    ensures ReplaceRuns(s) == s
    decreases |s|
  {
    if |s| > 0 {
      SlugTail(s);
      ReplaceRunsFixesSlugs(s[1..]);
      if IsHandleChar(s[0]) {
        assert ReplaceRuns(s) == [s[0]] + ReplaceRuns(s[1..]);
      } else {
        assert s[0] == '-';
        if |s| > 1 {
          assert !(s[0] == '-' && s[1] == '-');
        }
        assert SkipRun(s[1..]) == s[1..];
        assert ReplaceRuns(s) == "-" + ReplaceRuns(s[1..]);
      }
      assert s == [s[0]] + s[1..];
    }
  }

  /** Deriving a handle from a handle changes nothing. */
  lemma HandleIdempotent(title: string)
    ensures Handle(Handle(title)) == Handle(title)
  {
    var h := Handle(title);
    ReplaceRunsIsSlug(ToLower(title));
    assert forall i :: 0 <= i < |h| ==> !IsAsciiUpper(h[i]);
    ToLowerKeepsLowercase(h);
    ReplaceRunsFixesSlugs(h);
  }

  // ---------------------------------------------------------------- whitespace

  /** The characters `String.prototype.trim` removes: WhiteSpace and LineTerminator. */
  predicate IsJsWhitespace(c: char) {
    || c == '\t' || c == '\n' || c == '\U{B}' || c == '\U{C}' || c == '\r' || c == ' '
    || c == '\U{A0}' || c == '\U{1680}' || ('\U{2000}' <= c <= '\U{200A}')
    || c == '\U{2028}' || c == '\U{2029}' || c == '\U{202F}' || c == '\U{205F}'
    || c == '\U{3000}' || c == '\U{FEFF}'
  }

  predicate AllWhitespace(s: string) {
    forall i :: 0 <= i < |s| ==> IsJsWhitespace(s[i])
  }

  /** `trimStart`: the suffix after the leading whitespace. */
  function TrimStart(s: string): (r: string)
    ensures |r| <= |s| && r == s[|s| - |r|..]
    ensures AllWhitespace(s[..|s| - |r|])
    ensures |r| > 0 ==> !IsJsWhitespace(r[0])
  {
    if |s| == 0 || !IsJsWhitespace(s[0]) then s else TrimStart(s[1..])
  }

  /** `trimEnd`: the prefix before the trailing whitespace. */
  function TrimEnd(s: string): (r: string)
    ensures |r| <= |s| && r == s[..|r|]
    ensures AllWhitespace(s[|r|..])
    ensures |r| > 0 ==> !IsJsWhitespace(r[|r| - 1])
  {
    if |s| == 0 || !IsJsWhitespace(s[|s| - 1]) then s else TrimEnd(s[..|s| - 1])
  }

  /**
   * `trim`: what remains of `s` once the leading and the trailing whitespace are
   * cut away; it neither starts nor ends with whitespace, and it is empty exactly
   * when `s` is all whitespace.
   */
  function Trim(s: string): (r: string)
    ensures |r| <= |s|
    ensures |r| > 0 ==> !IsJsWhitespace(r[0]) && !IsJsWhitespace(r[|r| - 1])
    ensures r == "" <==> AllWhitespace(s)
    ensures CutFrom(s, |s| - |TrimStart(s)|, r)
  {
    var t := TrimStart(s);
    var r := TrimEnd(t);
    CutTwice(s, |s| - |t|, t, r);
    r
  }

  /** `r` is `s` with the whitespace prefix `s[..k]` and a whitespace suffix cut away. */
  predicate CutFrom(s: string, k: int, r: string) {
    && 0 <= k && k + |r| <= |s| && s[k..k + |r|] == r
    && AllWhitespace(s[..k]) && AllWhitespace(s[k + |r|..])
  }

  /** Cutting a whitespace prefix and then a whitespace suffix is one cut of `s`. */
  lemma CutTwice(s: string, k: nat, t: string, r: string)
    requires k + |t| == |s| && s[k..] == t && AllWhitespace(s[..k])
    requires |r| <= |t| && t[..|r|] == r && AllWhitespace(t[|r|..])
    ensures CutFrom(s, k, r)
    ensures r == "" ==> AllWhitespace(s)
  {
    assert s[k..k + |r|] == t[..|r|];
    assert s[k + |r|..] == t[|r|..];
    if r == "" {
      assert s == s[..k] + t;
    }
  }

  lemma TrimIdempotent(s: string)
    ensures Trim(Trim(s)) == Trim(s)
  {
  }

  // ---------------------------------------------------------------- searching

  /** `s.startsWith(p)`. */
  predicate StartsWith(s: string, p: string) {
    |p| <= |s| && s[..|p|] == p
  }

  /** `hay.includes(needle)`, as the scan the engine performs. */
  predicate Includes(hay: string, needle: string)
    decreases |hay|
  {
    StartsWith(hay, needle) || (|hay| > 0 && Includes(hay[1..], needle))
  }

  /** `needle` occurs in `hay` at some position. */
  predicate OccursAt(hay: string, needle: string, i: int) {
    0 <= i <= |hay| - |needle| && hay[i..i + |needle|] == needle
  }

  /** The scan finds the needle exactly when it occurs somewhere. */
  lemma {:induction false} IncludesIffOccurs(hay: string, needle: string)
    ensures Includes(hay, needle) <==> exists i :: OccursAt(hay, needle, i)
    decreases |hay|
  {
    if StartsWith(hay, needle) {
      assert OccursAt(hay, needle, 0);
    } else if |hay| > 0 {
      IncludesIffOccurs(hay[1..], needle);
      if exists i :: OccursAt(hay[1..], needle, i) {
        var i :| OccursAt(hay[1..], needle, i);
        assert hay[1..][i..i + |needle|] == hay[i + 1..i + 1 + |needle|];
        assert OccursAt(hay, needle, i + 1);
      }
      if exists i :: OccursAt(hay, needle, i) {
        var i :| OccursAt(hay, needle, i);
        assert i != 0;
        assert hay[1..][i - 1..i - 1 + |needle|] == hay[i..i + |needle|];
        assert OccursAt(hay[1..], needle, i - 1);
      }
    }
  }

  /** `s.split('/').pop()`: the longest suffix of `s` without a slash. */
  function LastSegment(s: string): (r: string)
    ensures |r| <= |s| && r == s[|s| - |r|..]
    ensures '/' !in r
    ensures |r| < |s| ==> s[|s| - |r| - 1] == '/'
  {
    if |s| == 0 then s
    else if s[|s| - 1] == '/' then ""
    else LastSegment(s[..|s| - 1]) + [s[|s| - 1]]
  }

  // ---------------------------------------------------------------- numbers

  function DigitChar(d: nat): (c: char)
    requires d < 10
    ensures '0' <= c <= '9'
  {
    ('0' as int + d) as char
  }

  /** Decimal text of a natural number, as `String(n)` writes it. */
  function NatToString(n: nat): (r: string)
    ensures |r| > 0
    ensures forall i :: 0 <= i < |r| ==> '0' <= r[i] <= '9'
    ensures n > 0 ==> r[0] != '0'
    decreases n
  {
    if n < 10 then [DigitChar(n)] else NatToString(n / 10) + [DigitChar(n % 10)]
  }

  /** Decimal text of an integer (`${n}` in a template literal). */
  function IntToString(n: int): (r: string)
    ensures |r| > 0
    ensures n >= 0 ==> r == NatToString(n)
    ensures n < 0 ==> r == "-" + NatToString(-n)
  {
    if n < 0 then "-" + NatToString(-n) else NatToString(n)
  }

  /** The value of one digit character in base 16 or below, or 99 for a non-digit. */
  function DigitValue(c: char): (v: nat)
    ensures '0' <= c <= '9' ==> v == c as int - '0' as int
  {
    if '0' <= c <= '9' then c as int - '0' as int
    else if 'a' <= c <= 'f' then c as int - 'a' as int + 10
    else if 'A' <= c <= 'F' then c as int - 'A' as int + 10
    else 99
  }

  predicate IsDigitIn(c: char, radix: nat) {
    DigitValue(c) < radix
  }

  /** The longest prefix of `s` made of digits of the radix. */
  function LeadingDigits(s: string, radix: nat): (r: string)
    ensures |r| <= |s| && r == s[..|r|]
    ensures forall i :: 0 <= i < |r| ==> IsDigitIn(r[i], radix)
    ensures |r| < |s| ==> !IsDigitIn(s[|r|], radix)
  {
    if |s| == 0 || !IsDigitIn(s[0], radix) then "" else [s[0]] + LeadingDigits(s[1..], radix)
  }

  /** The value of a digit string read in the given radix. */
  function DigitsValue(ds: string, radix: nat): (v: int)
    ensures v >= 0
  {
    if |ds| == 0 then 0 else DigitsValue(ds[..|ds| - 1], radix) * radix + DigitValue(ds[|ds| - 1])
  }

  /** The number after the sign: base 16 behind a `0x`/`0X` prefix, else base 10. */
  function ParseUnsigned(u: string): (r: Option<int>)
    ensures u == "" ==> r == None
    ensures r.Some? ==> r.value >= 0
  {
    var hex := |u| >= 2 && u[0] == '0' && (u[1] == 'x' || u[1] == 'X');
    var radix := if hex then 16 else 10;
    var ds := LeadingDigits(if hex then u[2..] else u, radix);
    if |ds| == 0 then None else Some(DigitsValue(ds, radix))
  }

  /**
   * `parseInt(s)` with no radix argument: leading whitespace is skipped, one
   * optional sign is read, a `0x`/`0X` prefix switches to base 16, and the
   * longest run of digits is read; no digits gives NaN.
   */
  function ParseInt(s: string): (r: Num)
    ensures TrimStart(s) == "" ==> r == NaN
    ensures |s| > 0 && '0' <= s[0] <= '9' && !(|s| >= 2 && (s[1] == 'x' || s[1] == 'X')) ==> r.Int?
    ensures r.Int? && r.value < 0 ==> TrimStart(s)[0] == '-'
  {
    DigitStartParses(s);
    ParseSigned(TrimStart(s))
  }

  /** The number at the start of `t`, read after one optional sign. */
  function ParseSigned(t: string): (r: Num)
    ensures t == "" ==> r == NaN
    ensures |t| > 0 && '0' <= t[0] <= '9' && ParseUnsigned(t).Some? ==> r.Int?
    ensures r.Int? && r.value < 0 ==> t[0] == '-'
  {
    var negative := |t| > 0 && t[0] == '-';
    var magnitude := ParseUnsigned(if |t| > 0 && (t[0] == '-' || t[0] == '+') then t[1..] else t);
    match magnitude
    case None => NaN
    case Some(m) => Int(if negative then -m else m)
  }

  /** A text that opens with a decimal digit (and no `x` after it) is read as it stands. */
  lemma DigitStartParses(s: string)
    ensures |s| > 0 && '0' <= s[0] <= '9' && !(|s| >= 2 && (s[1] == 'x' || s[1] == 'X'))
      ==> TrimStart(s) == s && ParseUnsigned(s).Some?
  {
    if |s| > 0 && '0' <= s[0] <= '9' {
      assert !IsJsWhitespace(s[0]);
      assert IsDigitIn(s[0], 10);
    }
  }

  lemma {:induction false} NatToStringValue(n: nat)
    ensures DigitsValue(NatToString(n), 10) == n
    decreases n
  {
    var s := NatToString(n);
    if n >= 10 {
      NatToStringValue(n / 10);
      assert s[..|s| - 1] == NatToString(n / 10);
    }
  }

  lemma {:induction false} ParseUnsignedOfNatToString(m: nat)
    ensures ParseUnsigned(NatToString(m)) == Some(m)
  {
    var digits := NatToString(m);
    assert |digits| >= 2 ==> digits[1] != 'x' && digits[1] != 'X';
    LeadingDigitsOfDigits(digits, 10);
    NatToStringValue(m);
  }

  /** The decimal text of a natural number reads back as that number. */
  lemma {:induction false} ParseIntOfNatToString(m: nat)
    ensures ParseInt(NatToString(m)) == Int(m)
  {
    var s := NatToString(m);
    ParseUnsignedOfNatToString(m);
    var c := s[0];
    assert '0' <= c <= '9';
    assert !IsJsWhitespace(c) && c != '-' && c != '+';
    var t := TrimStart(s);
    assert t == s;
    assert !(|t| > 0 && (t[0] == '-' || t[0] == '+'));
  }

  /** Reading back the decimal text of an integer gives that integer. */
  lemma {:induction false} ParseIntOfIntToString(n: int)
    ensures ParseInt(IntToString(n)) == Int(n)
  {
    if n >= 0 {
      ParseIntOfNatToString(n);
    } else {
      var digits := NatToString(-n);
      var s := IntToString(n);
      ParseUnsignedOfNatToString(-n);
      assert s == "-" + digits;
      assert !IsJsWhitespace(s[0]);
      assert TrimStart(s) == s;
      assert s[1..] == digits;
    }
  }

  lemma {:induction false} LeadingDigitsOfDigits(s: string, radix: nat)
    requires forall i :: 0 <= i < |s| ==> IsDigitIn(s[i], radix)
    ensures LeadingDigits(s, radix) == s
  {
    if |s| > 0 {
      LeadingDigitsOfDigits(s[1..], radix);
    }
  }

  /** `parseInt` of text that does not start with a digit, a sign or whitespace gives NaN. */
  lemma ParseIntNoDigits(s: string)
    requires |s| > 0 && !IsJsWhitespace(s[0]) && DigitValue(s[0]) >= 10 && s[0] != '-' && s[0] != '+'
    ensures ParseInt(s) == NaN
  {
    assert TrimStart(s) == s;
    assert LeadingDigits(s, 10) == "";
  }
}
