/**
 * Text helpers shared by the encoders and parsers of the client library:
 * Rust's fixed-width integer types, `join`, `str::split` with a string
 * pattern, `trim_start_matches`, `eq_ignore_ascii_case`, decimal and hex
 * rendering, and `from_str_radix` with its exact error kinds.
 */
module Text {
  import opened Wrappers

  type U8 = x: int | 0 <= x <= 0xFF
  type U16 = x: int | 0 <= x <= 0xFFFF
  type U32 = x: int | 0 <= x <= 0xFFFF_FFFF
  type U64 = x: int | 0 <= x <= 0xFFFF_FFFF_FFFF_FFFF
  type I8 = x: int | -0x80 <= x <= 0x7F
  type I32 = x: int | -0x8000_0000 <= x <= 0x7FFF_FFFF

  const U8_MAX: int := 0xFF
  const U32_MAX: int := 0xFFFF_FFFF
  const U64_MAX: int := 0xFFFF_FFFF_FFFF_FFFF
  const I8_MIN: int := -0x80
  const I8_MAX: int := 0x7F
  const I32_MIN: int := -0x8000_0000
  const I32_MAX: int := 0x7FFF_FFFF

  // ---------------------------------------------------------------------
  // Joining and splitting

  /** `parts.join(sep)`: the parts in order with `sep` between neighbours. */
  function Join(parts: seq<string>, sep: string): string
  {
    if |parts| == 0 then ""
    else if |parts| == 1 then parts[0]
    else parts[0] + sep + Join(parts[1..], sep)
  }

  /** Joining two non-empty lists is joining each and putting `sep` between the results. */
  lemma {:induction false} JoinAppend(a: seq<string>, b: seq<string>, sep: string)
    requires |a| > 0 && |b| > 0
    ensures Join(a + b, sep) == Join(a, sep) + sep + Join(b, sep)
    decreases |a|
  {
    if |a| > 1 {
      JoinAppend(a[1..], b, sep);
      assert (a + b)[1..] == a[1..] + b;
    } else {
      assert (a + b)[1..] == b;
    }
  }

  /** `sep` occurs in `s` starting at index `i`. */
  predicate OccursAt(s: string, sep: string, i: nat)
  {
    i + |sep| <= |s| && s[i..i + |sep|] == sep
  }

  /** `s` has no occurrence of `sep` at all. */
  predicate Free(s: string, sep: string)
  {
    forall j: nat :: j <= |s| ==> !OccursAt(s, sep, j)
  }

  /** The first occurrence of `sep` in `s` at or after index `from`. */
  function IndexFrom(s: string, sep: string, from: nat): (r: Option<nat>)
    requires |sep| > 0
    ensures r.Some? ==> from <= r.value && OccursAt(s, sep, r.value)
    ensures r.Some? ==> forall j: nat :: from <= j < r.value ==> !OccursAt(s, sep, j)
    ensures r.None? ==> forall j: nat :: from <= j ==> !OccursAt(s, sep, j)
    decreases |s| - from
  {
    if from + |sep| > |s| then None
    else if OccursAt(s, sep, from) then Some(from)
    else IndexFrom(s, sep, from + 1)
  }

  /** A prefix of `s` that ends before the first occurrence of `sep` has no occurrence of it. */
  lemma PrefixBeforeFirstIsFree(s: string, sep: string, i: nat)
    requires |sep| > 0 && i <= |s|
    requires forall j: nat :: j < i ==> !OccursAt(s, sep, j)
    ensures Free(s[..i], sep)
  {
    forall j: nat | OccursAt(s[..i], sep, j)
      ensures false
    {
      assert s[..i][j..j + |sep|] == s[j..j + |sep|];
      assert OccursAt(s, sep, j);
    }
  }

  /**
   * Rust's `s.split(sep)` for a non-empty string pattern: the pieces between
   * successive leftmost non-overlapping occurrences of `sep`.
   */
  function SplitOn(s: string, sep: string): (r: seq<string>)
    requires |sep| > 0
    ensures |r| >= 1
    ensures Join(r, sep) == s
    ensures forall k :: 0 <= k < |r| ==> Free(r[k], sep)
    decreases |s|
  {
    match IndexFrom(s, sep, 0)
    case None => [s]
    case Some(i) =>
      PrefixBeforeFirstIsFree(s, sep, i);
      var rest := SplitOn(s[i + |sep|..], sep);
      assert s == s[..i] + sep + s[i + |sep|..];
      [s[..i]] + rest
  }

  /** A text without the first character of `sep` has no occurrence of `sep`. */
  lemma LeadFree(s: string, sep: string)
    requires |sep| > 0 && sep[0] !in s
    ensures Free(s, sep)
  {
  }

  /**
   * Splitting undoes joining when no part but the last holds the first
   * character of the separator and the last holds no separator: every
   * occurrence is then one of the separators put in by the join.
   */
  lemma {:induction false} SplitJoin(parts: seq<string>, sep: string)
    requires |sep| > 0 && |parts| >= 1
    requires forall k :: 0 <= k < |parts| - 1 ==> sep[0] !in parts[k]
    requires Free(parts[|parts| - 1], sep)
    ensures SplitOn(Join(parts, sep), sep) == parts
    decreases |parts|
  {
    var s := Join(parts, sep);
    if |parts| > 1 {
      var p := parts[0];
      var tail := Join(parts[1..], sep);
      assert s == p + sep + tail;
      assert s[|p|..|p| + |sep|] == sep;
      assert OccursAt(s, sep, |p|);
      forall j: nat | j < |p|
        ensures !OccursAt(s, sep, j)
      {
        assert s[j] == p[j];
      }
      assert IndexFrom(s, sep, 0) == Some(|p|);
      assert s[..|p|] == p;
      assert s[|p| + |sep|..] == tail;
      SplitJoin(parts[1..], sep);
    }
  }

  /** `s.trim_start_matches(p)`: `s` with every leading copy of `p` removed. */
  function TrimStartMatches(s: string, p: string): (r: string)
    ensures |r| <= |s| && s[|s| - |r|..] == r
    ensures |p| > 0 ==> !(|p| <= |r| && r[..|p|] == p)
    decreases |s|
  {
    if |p| > 0 && |p| <= |s| && s[..|p|] == p then TrimStartMatches(s[|p|..], p) else s
  }

  /** `p` repeated `k` times. */
  function Repeat(p: string, k: nat): string
  {
    if k == 0 then "" else p + Repeat(p, k - 1)
  }

  /** How many leading copies of `p` `trim_start_matches` removes from `s`. */
  function TrimCount(s: string, p: string): nat
    decreases |s|
  {
    if |p| > 0 && |p| <= |s| && s[..|p|] == p then 1 + TrimCount(s[|p|..], p) else 0
  }

  /** What `trim_start_matches` removed is a whole number of copies of the pattern. */
  lemma {:induction false} TrimStartRemovesCopies(s: string, p: string)
    requires |p| > 0
    ensures s == Repeat(p, TrimCount(s, p)) + TrimStartMatches(s, p)
    decreases |s|
  {
    if |p| <= |s| && s[..|p|] == p {
      var rest := s[|p|..];
      TrimStartRemovesCopies(rest, p);
      var k, t := TrimCount(rest, p), TrimStartMatches(rest, p);
      assert TrimCount(s, p) == k + 1;
      assert TrimStartMatches(s, p) == t;
      RepeatThen(p, k, t);
      assert s == p + rest;
    }
  }

  lemma RepeatThen(p: string, k: nat, t: string)
    ensures Repeat(p, k + 1) + t == p + (Repeat(p, k) + t)
  {
    assert Repeat(p, k + 1) == p + Repeat(p, k);
  }

  /** One leading copy of `p` is trimmed like any other. */
  lemma TrimStartStep(p: string, x: string)
    requires |p| > 0
    ensures TrimStartMatches(p + x, p) == TrimStartMatches(x, p)
  {
    var s := p + x;
    assert s[..|p|] == p;
    assert s[|p|..] == x;
  }

  /** Trimming copies of `p` off a text that does not itself start with `p` recovers that text. */
  lemma {:induction false} TrimStartOfRepeat(p: string, k: nat, t: string)
    requires |p| > 0
    requires !(|p| <= |t| && t[..|p|] == p)
    ensures TrimStartMatches(Repeat(p, k) + t, p) == t
  {
    if k == 0 {
      assert Repeat(p, k) + t == t;
    } else {
      var rest := Repeat(p, k - 1) + t;
      RepeatThen(p, k - 1, t);
      TrimStartStep(p, rest);
      TrimStartOfRepeat(p, k - 1, t);
    }
  }

  // ---------------------------------------------------------------------
  // ASCII case

  function AsciiLower(c: char): char
  {
    if 'A' <= c <= 'Z' then (c as int + 32) as char else c
  }

  /** `a.eq_ignore_ascii_case(b)`. */
  predicate EqIgnoreAsciiCase(a: string, b: string)
  {
    |a| == |b| && (|a| == 0 || (AsciiLower(a[0]) == AsciiLower(b[0]) && EqIgnoreAsciiCase(a[1..], b[1..])))
  }

  lemma {:induction false} EqIgnoreAsciiCaseRefl(a: string)
    ensures EqIgnoreAsciiCase(a, a)
  {
    if |a| > 0 {
      EqIgnoreAsciiCaseRefl(a[1..]);
    }
  }

  /** `s.to_ascii_lowercase()`. */
  function AsciiLowerText(s: string): (r: string)
  {
    seq(|s|, k requires 0 <= k < |s| => AsciiLower(s[k]))
  }

  /** Comparing ignoring ASCII case is comparing the lower-cased texts; hence it is an equivalence. */
  lemma {:induction false} EqIgnoreAsciiCaseLower(a: string, b: string)
    ensures EqIgnoreAsciiCase(a, b) <==> AsciiLowerText(a) == AsciiLowerText(b)
    decreases |a|
  {
    if |a| == |b| && |a| > 0 {
      EqIgnoreAsciiCaseLower(a[1..], b[1..]);
      assert AsciiLowerText(a) == [AsciiLower(a[0])] + AsciiLowerText(a[1..]);
      assert AsciiLowerText(b) == [AsciiLower(b[0])] + AsciiLowerText(b[1..]);
      if AsciiLowerText(a) == AsciiLowerText(b) {
        assert AsciiLowerText(a)[1..] == AsciiLowerText(a[1..]);
        assert AsciiLowerText(b)[1..] == AsciiLowerText(b[1..]);
        assert AsciiLowerText(a)[0] == AsciiLower(a[0]);
        assert AsciiLowerText(b)[0] == AsciiLower(b[0]);
      }
    } else if |a| != |b| {
      assert |AsciiLowerText(a)| != |AsciiLowerText(b)|;
    } else {
      assert AsciiLowerText(a) == [] == AsciiLowerText(b);
    }
  }

  // ---------------------------------------------------------------------
  // Rendering integers (`to_string`)

  function DigitChar(d: nat): char
    requires d < 16
  {
    if d < 10 then ('0' as int + d) as char else ('a' as int + d - 10) as char
  }

  /** The digits of `n` in base `radix`, most significant first, without leading zeros. */
  function Digits(n: nat, radix: nat): (r: string)
    requires 2 <= radix <= 16
    decreases n
  {
    if n < radix then [DigitChar(n)] else Digits(n / radix, radix) + [DigitChar(n % radix)]
  }

  /** Decimal `to_string` of an unsigned integer. */
  function NatText(n: nat): string
  {
    Digits(n, 10)
  }

  /** Decimal `to_string` of a signed integer. */
  function IntText(i: int): string
  {
    if i < 0 then "-" + NatText(-i) else NatText(i)
  }

  // ---------------------------------------------------------------------
  // Parsing integers (`str::parse` and `from_str_radix`)

  /** The kinds of `ParseIntError`. */
  datatype IntErrorKind = Empty | InvalidDigit | PosOverflow | NegOverflow {
    /** The `Display` text of a `ParseIntError` of this kind. */
    function Message(): string
    {
      match this
      case Empty => "cannot parse integer from empty string"
      case InvalidDigit => "invalid digit found in string"
      case PosOverflow => "number too large to fit in target type"
      case NegOverflow => "number too small to fit in target type"
    }
  }

  /** `char::to_digit(radix)`. */
  function DigitValue(c: char, radix: nat): (r: Option<nat>)
    requires 2 <= radix <= 36
    ensures r.Some? ==> r.value < radix
  {
    var d :=
      if '0' <= c <= '9' then c as int - '0' as int
      else if 'a' <= c <= 'z' then c as int - 'a' as int + 10
      else if 'A' <= c <= 'Z' then c as int - 'A' as int + 10
      else radix;
    if d < radix then Some(d) else None
  }

  /**
   * One turn of the digit loop of `from_str_radix`: a non-digit fails with
   * `InvalidDigit`, and a step that leaves the range of the target type
   * fails with the overflow kind of its direction. (A positive number only
   * grows and a negative one only shrinks, so each can leave the range on
   * one side only.)
   */
  function Step(acc: int, c: char, radix: nat, negative: bool, lo: int, hi: int): (r: Result<int, IntErrorKind>)
    requires 2 <= radix <= 36
    ensures r.Ok? ==> lo <= r.value <= hi
  {
    match DigitValue(c, radix)
    case None => Err(InvalidDigit)
    case Some(x) =>
      var next := if negative then acc * radix - x else acc * radix + x;
      if next < lo then Err(NegOverflow)
      else if next > hi then Err(PosOverflow)
      else Ok(next)
  }

  /** The digit loop of `from_str_radix`: digits are consumed left to right and the first failing step ends it. */
  function Accumulate(digits: string, radix: nat, negative: bool, lo: int, hi: int, acc: int): (r: Result<int, IntErrorKind>)
    requires 2 <= radix <= 36 && lo <= acc <= hi
    ensures r.Ok? ==> lo <= r.value <= hi
    decreases |digits|
  {
    if digits == [] then Ok(acc)
    else match Step(acc, digits[0], radix, negative, lo, hi)
      case Err(e) => Err(e)
      case Ok(next) => Accumulate(digits[1..], radix, negative, lo, hi, next)
  }

  /**
   * `from_str_radix` for an integer type whose range is `lo..=hi` (`lo < 0`
   * for signed types): one optional sign, then digits.
   */
  function ParseInt(s: string, radix: nat, lo: int, hi: int): (r: Result<int, IntErrorKind>)
    requires 2 <= radix <= 36 && lo <= 0 <= hi
    ensures r.Ok? ==> lo <= r.value <= hi
    ensures s == [] ==> r == Err(Empty)
  {
    if s == [] then Err(Empty)
    else if (s[0] == '+' || s[0] == '-') && |s| == 1 then Err(InvalidDigit)
    else if s[0] == '+' then Accumulate(s[1..], radix, false, lo, hi, 0)
    else if s[0] == '-' && lo < 0 then Accumulate(s[1..], radix, true, lo, hi, 0)
    else Accumulate(s, radix, false, lo, hi, 0)
  }

  lemma DigitCharValue(d: nat, radix: nat)
    requires 2 <= radix <= 16 && d < radix
    ensures DigitValue(DigitChar(d), radix) == Some(d)
  {
  }

  /** Feeding one more digit continues from where the shorter digit string stopped. */
  lemma {:induction false} AccumulateSnoc(a: string, c: char, radix: nat, negative: bool, lo: int, hi: int, acc: int)
    requires 2 <= radix <= 36 && lo <= acc <= hi
    ensures Accumulate(a + [c], radix, negative, lo, hi, acc) ==
      match Accumulate(a, radix, negative, lo, hi, acc)
      case Ok(v) => Step(v, c, radix, negative, lo, hi)
      case Err(e) => Err(e)
    decreases |a|
  {
    if a == [] {
      assert [c][1..] == [];
      assert a + [c] == [c];
    } else {
      assert (a + [c])[0] == a[0];
      assert (a + [c])[1..] == a[1..] + [c];
      match Step(acc, a[0], radix, negative, lo, hi)
      case Err(_) =>
      case Ok(next) => AccumulateSnoc(a[1..], c, radix, negative, lo, hi, next);
    }
  }

  /** The two bases the library renders and reads back: decimal and hexadecimal. */
  predicate TextRadix(radix: nat)
  {
    radix == 10 || radix == 16
  }

  /** The digits of `n` read back give `n` (or `-n` for a negative number) whenever it fits. */
  lemma {:induction false} AccumulateDigits(n: nat, radix: nat, negative: bool, lo: int, hi: int)
    requires TextRadix(radix) && lo <= 0 <= hi
    requires if negative then lo + n <= 0 else n <= hi
    ensures Accumulate(Digits(n, radix), radix, negative, lo, hi, 0) == Ok(Signed(n, negative))
  {
    if n < radix {
      AccumulateLastDigit(n, radix, negative, lo, hi);
    } else {
      var q, d := n / radix, n % radix;
      DivStep(n, radix);
      assert q * radix + d == n && q < n;
      AccumulateDigits(q, radix, negative, lo, hi);
      AccumulateNextDigit(q, d, radix, negative, lo, hi);
      assert Digits(n, radix) == Digits(q, radix) + [DigitChar(d)];
    }
  }

  /** A one-digit number is read back. */
  lemma AccumulateLastDigit(n: nat, radix: nat, negative: bool, lo: int, hi: int)
    requires TextRadix(radix) && lo <= 0 <= hi && n < radix
    requires if negative then lo + n <= 0 else n <= hi
    ensures Accumulate([DigitChar(n)], radix, negative, lo, hi, 0) == Ok(Signed(n, negative))
  {
    DigitCharValue(n, radix);
    AccumulateOneDigit(0, radix, n, negative, lo, hi);
    assert [DigitChar(n)][1..] == [];
  }

  /** Once the digits of `q` are read back, one more digit `d` is read back as `q * radix + d`. */
  lemma AccumulateNextDigit(q: nat, d: nat, radix: nat, negative: bool, lo: int, hi: int)
    requires TextRadix(radix) && lo <= 0 <= hi && d < radix
    requires if negative then lo + q * radix + d <= 0 else q * radix + d <= hi
    requires Accumulate(Digits(q, radix), radix, negative, lo, hi, 0) == Ok(Signed(q, negative))
    ensures Accumulate(Digits(q, radix) + [DigitChar(d)], radix, negative, lo, hi, 0) == Ok(Signed(q * radix + d, negative))
  {
    AccumulateSnoc(Digits(q, radix), DigitChar(d), radix, negative, lo, hi, 0);
    AccumulateOneDigit(q, radix, d, negative, lo, hi);
  }

  /** Appending the digit `d` to the digits of `q` yields `q * radix + d`. */
  lemma AccumulateOneDigit(q: nat, radix: nat, d: nat, negative: bool, lo: int, hi: int)
    requires TextRadix(radix) && d < radix && lo <= 0 <= hi
    requires if negative then lo + q * radix + d <= 0 else q * radix + d <= hi
    ensures lo <= Signed(q, negative) <= hi
    ensures Step(Signed(q, negative), DigitChar(d), radix, negative, lo, hi) == Ok(Signed(q * radix + d, negative))
  {
    DigitCharValue(d, radix);
    if radix == 10 {
      assert Signed(q, negative) * 10 + (if negative then -(d as int) else d) == Signed(q * 10 + d, negative);
    } else {
      assert Signed(q, negative) * 16 + (if negative then -(d as int) else d) == Signed(q * 16 + d, negative);
    }
  }

  /** Division by the base splits off the last digit and leaves a smaller number. */
  lemma DivStep(n: nat, radix: nat)
    requires TextRadix(radix) && n >= radix
    ensures n == (n / radix) * radix + n % radix
    ensures n / radix < n && n % radix < radix
  {
  }

  function Signed(n: nat, negative: bool): int
  {
    if negative then -(n as int) else n
  }

  lemma DigitsStartWithDigit(n: nat, radix: nat)
    requires TextRadix(radix)
    ensures |Digits(n, radix)| >= 1
    ensures Digits(n, radix)[0] != '+' && Digits(n, radix)[0] != '-'
    decreases n
  {
    if n >= radix {
      DigitsStartWithDigit(n / radix, radix);
    }
  }

  /** Parsing the base-`radix` digits of an unsigned value in range gives the value back. */
  lemma DigitsRoundTrip(n: nat, radix: nat, lo: int, hi: int)
    requires TextRadix(radix) && lo <= 0 && n <= hi
    ensures ParseInt(Digits(n, radix), radix, lo, hi) == Ok(n)
  {
    DigitsStartWithDigit(n, radix);
    AccumulateDigits(n, radix, false, lo, hi);
  }

  /** The digits of a number above the top of the range stop the digit loop with `PosOverflow`. */
  lemma {:induction false} AccumulateDigitsOverflow(n: nat, radix: nat, lo: int, hi: int)
    requires TextRadix(radix) && lo <= 0 <= hi < n
    ensures Accumulate(Digits(n, radix), radix, false, lo, hi, 0) == Err(PosOverflow)
    decreases n
  {
    if n < radix {
      DigitCharValue(n, radix);
      assert [DigitChar(n)][1..] == [];
    } else {
      var q, d := n / radix, n % radix;
      DivStep(n, radix);
      assert Digits(n, radix) == Digits(q, radix) + [DigitChar(d)];
      AccumulateSnoc(Digits(q, radix), DigitChar(d), radix, false, lo, hi, 0);
      if q > hi {
        AccumulateDigitsOverflow(q, radix, lo, hi);
      } else {
        AccumulateDigits(q, radix, false, lo, hi);
        DigitCharValue(d, radix);
      }
    }
  }

  /** Parsing the digits of a number too large for the type fails with `PosOverflow`. */
  lemma DigitsOverflow(n: nat, radix: nat, lo: int, hi: int)
    requires TextRadix(radix) && lo <= 0 <= hi < n
    ensures ParseInt(Digits(n, radix), radix, lo, hi) == Err(PosOverflow)
  {
    DigitsStartWithDigit(n, radix);
    AccumulateDigitsOverflow(n, radix, lo, hi);
  }

  /** A character that is no digit of the base makes the digit loop fail, at that character or at an overflow before it. */
  lemma {:induction false} AccumulateRejects(s: string, i: nat, radix: nat, negative: bool, lo: int, hi: int, acc: int)
    requires 2 <= radix <= 36 && lo <= acc <= hi
    requires i < |s| && DigitValue(s[i], radix).None?
    ensures Accumulate(s, radix, negative, lo, hi, acc).Err?
    decreases i
  {
    if i > 0 {
      match Step(acc, s[0], radix, negative, lo, hi)
      case Err(_) =>
      case Ok(next) => AccumulateRejects(s[1..], i - 1, radix, negative, lo, hi, next);
    }
  }

  /**
   * `from_str_radix` fails on a text holding a character that is no digit
   * of the base, unless that character is the one sign it accepts in front.
   */
  lemma ParseIntRejects(s: string, i: nat, radix: nat, lo: int, hi: int)
    requires 2 <= radix <= 36 && lo <= 0 <= hi
    requires i < |s| && DigitValue(s[i], radix).None?
    requires i == 0 ==> s[0] != '+' && (s[0] != '-' || lo == 0)
    ensures ParseInt(s, radix, lo, hi).Err?
  {
    if |s| == 1 && (s[0] == '+' || s[0] == '-') {
    } else if s[0] == '+' || (s[0] == '-' && lo < 0) {
      AccumulateRejects(s[1..], i - 1, radix, s[0] == '-', lo, hi, 0);
    } else {
      AccumulateRejects(s, i, radix, false, lo, hi, 0);
    }
  }

  /** `to_string` followed by `parse` is the identity on every integer type. */
  lemma IntTextRoundTrip(i: int, lo: int, hi: int)
    requires lo <= 0 <= hi && lo <= i <= hi
    requires i < 0 ==> lo < 0
    ensures ParseInt(IntText(i), 10, lo, hi) == Ok(i)
  {
    if i < 0 {
      DigitsStartWithDigit(-i, 10);
      AccumulateDigits(-i, 10, true, lo, hi);
      assert IntText(i)[1..] == NatText(-i);
    } else {
      DigitsRoundTrip(i, 10, lo, hi);
    }
  }

  /** Every character of a rendered integer is a decimal digit or the minus sign. */
  lemma DigitsAlphabet(n: nat, radix: nat)
    requires TextRadix(radix)
    ensures forall k :: 0 <= k < |Digits(n, radix)| ==> DigitValue(Digits(n, radix)[k], radix).Some?
    decreases n
  {
    DigitCharValue(n % radix, radix);
    if n >= radix {
      DigitsAlphabet(n / radix, radix);
      var pre := Digits(n / radix, radix);
      assert Digits(n, radix) == pre + [DigitChar(n % radix)];
      forall k | 0 <= k < |Digits(n, radix)|
        ensures DigitValue(Digits(n, radix)[k], radix).Some?
      {
        if k < |pre| {
          assert Digits(n, radix)[k] == pre[k];
        }
      }
    }
  }

  lemma IntTextAlphabet(i: int)
    ensures forall k :: 0 <= k < |IntText(i)| ==> '0' <= IntText(i)[k] <= '9' || IntText(i)[k] == '-'
  {
    if i < 0 {
      DigitsAlphabet(-i, 10);
      assert forall k :: 1 <= k < |IntText(i)| ==> IntText(i)[k] == NatText(-i)[k - 1];
    } else {
      DigitsAlphabet(i, 10);
    }
  }

  /** Distinct integers render to distinct text. */
  lemma IntTextInjective(i: int, j: int)
    requires IntText(i) == IntText(j)
    ensures i == j
  {
    var m := (if i < 0 then -i else i) + (if j < 0 then -j else j) + 1;
    var lo, hi := -m, m;
    IntTextRoundTrip(i, lo, hi);
    IntTextRoundTrip(j, lo, hi);
  }
}
