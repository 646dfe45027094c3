/**
 * Shared vocabulary: optional values, error-carrying results and the
 * handful of Rust `str` operations the application relies on
 * (`lines`, `trim`, `split`, `split_whitespace`, unsigned `parse`,
 * decimal formatting and UTF-8 byte length).
 */
module Text {

  datatype Option<T> = None | Some(value: T)
  {
    predicate IsSome() { Some? }
    function UnwrapOr(default: T): T { if Some? then value else default }
  }

  /** anyhow-style error: the message is the only payload. */
  datatype Result<T> = Ok(value: T) | Err(error: string)

  /** Rust `u8`. */
  type Byte = b: int | 0 <= b < 256

  // ---------------------------------------------------------------- chars

  predicate IsDigit(c: char) { '0' <= c <= '9' }

  function DigitValue(c: char): (d: nat)
    requires IsDigit(c)
    ensures d < 10
  { c as int - '0' as int }

  function DigitChar(d: nat): (c: char)
    requires d < 10
    ensures IsDigit(c) && DigitValue(c) == d
  { ('0' as int + d) as char }

  predicate IsAsciiAlpha(c: char) { 'a' <= c <= 'z' || 'A' <= c <= 'Z' }

  /** Rust `char::is_whitespace`: the Unicode White_Space property. */
  predicate IsWhitespace(c: char)
  {
    c == ' ' || ('\t' <= c <= '\r') || c == '\U{85}' || c == '\U{A0}'
    || c == '\U{1680}' || ('\U{2000}' <= c <= '\U{200A}')
    || c == '\U{2028}' || c == '\U{2029}' || c == '\U{202F}'
    || c == '\U{205F}' || c == '\U{3000}'
  }

  /** ASCII case folding (Rust `to_lowercase` restricted to ASCII letters). */
  function LowerChar(c: char): char
  { if 'A' <= c <= 'Z' then (c as int + 32) as char else c }

  function ToLower(s: string): (r: string)
    ensures |r| == |s|
    ensures forall i :: 0 <= i < |s| ==> r[i] == LowerChar(s[i])
  { seq(|s|, i requires 0 <= i < |s| => LowerChar(s[i])) }

  /** Number of bytes of the UTF-8 encoding (Rust `str::len`). */
  function CharUtf8Len(c: char): nat
  {
    if c as int < 0x80 then 1
    else if c as int < 0x800 then 2
    else if c as int < 0x10000 then 3
    else 4
  }

  function Utf8Len(s: string): (n: nat)
    ensures n >= |s|
    ensures n == 0 <==> s == []
  { if s == [] then 0 else CharUtf8Len(s[0]) + Utf8Len(s[1..]) }

  lemma {:induction false} Utf8LenOne(s: string)
    ensures Utf8Len(s) == 1 <==> (|s| == 1 && s[0] as int < 0x80)
  {
    if |s| > 1 {
      assert Utf8Len(s) >= |s|;
    }
  }

  // ------------------------------------------------------------- prefixes

  predicate StartsWith(s: string, p: string) { |p| <= |s| && s[..|p|] == p }

  predicate EndsWith(s: string, p: string) { |p| <= |s| && s[|s| - |p|..] == p }

  /** `p` occurs somewhere in `s` (Rust `str::contains`). */
  predicate Contains(s: string, p: string)
    decreases |s|
  { StartsWith(s, p) || (|s| > 0 && Contains(s[1..], p)) }

  predicate HasChar(s: string, c: char) { c in s }

  /** Rust `strip_prefix`. */
  function StripPrefix(s: string, p: string): (r: Option<string>)
    ensures r.Some? <==> StartsWith(s, p)
    ensures r.Some? ==> p + r.value == s
  { if StartsWith(s, p) then Some(s[|p|..]) else None }

  /** Index of the first occurrence of `c`. */
  function IndexOf(s: string, c: char): (r: Option<nat>)
    ensures r.None? <==> c !in s
    ensures r.Some? ==> r.value < |s| && s[r.value] == c && c !in s[..r.value]
  {
    if s == [] then None
    else if s[0] == c then Some(0)
    else match IndexOf(s[1..], c)
      case None => None
      case Some(i) => assert s[1..][..i] == s[1..i + 1]; Some(i + 1)
  }

  /** The string with every occurrence of `c` deleted (Rust `replace(c, "")`). */
  function RemoveChar(s: string, c: char): (r: string)
    ensures c !in r
    ensures |r| <= |s|
  { if s == [] then [] else (if s[0] == c then [] else [s[0]]) + RemoveChar(s[1..], c) }

  /** RemoveChar keeps every other character and only those. */
  lemma {:induction false} RemoveCharMembers(s: string, c: char)
    ensures forall x :: x in RemoveChar(s, c) <==> x in s && x != c
    decreases |s|
  {
    if s != [] {
      RemoveCharMembers(s[1..], c);
      assert s == [s[0]] + s[1..];
    }
  }

  lemma {:induction false} RemoveCharAppend(a: string, b: string, c: char)
    ensures RemoveChar(a + b, c) == RemoveChar(a, c) + RemoveChar(b, c)
    decreases |a|
  {
    if a == [] {
      assert a + b == b;
    } else {
      var head := if a[0] == c then [] else [a[0]];
      assert (a + b)[0] == a[0] && (a + b)[1..] == a[1..] + b;
      assert RemoveChar(a + b, c) == head + RemoveChar(a[1..] + b, c);
      RemoveCharAppend(a[1..], b, c);
      assert RemoveChar(a, c) == head + RemoveChar(a[1..], c);
      ConcatAssoc(head, RemoveChar(a[1..], c), RemoveChar(b, c));
    }
  }

  /** A subset is no larger than its superset. */
  lemma SubsetCard<T>(a: set<T>, b: set<T>)
    requires a <= b
    ensures |a| <= |b|
  {
    if a != {} {
      var x :| x in a;
      SubsetCard(a - {x}, b - {x});
    }
  }

  lemma ConcatAssoc<T>(a: seq<T>, b: seq<T>, c: seq<T>)
    ensures a + (b + c) == (a + b) + c
  {
  }

  // ---------------------------------------------------------------- trims

  function TrimStart(s: string): (r: string)
    ensures |r| <= |s| && r == s[|s| - |r|..]
    ensures r == [] || !IsWhitespace(r[0])
    ensures forall i :: 0 <= i < |s| - |r| ==> IsWhitespace(s[i])
  { if s != [] && IsWhitespace(s[0]) then TrimStart(s[1..]) else s }

  function TrimEnd(s: string): (r: string)
    ensures |r| <= |s| && r == s[..|r|]
    ensures r == [] || !IsWhitespace(r[|r| - 1])
    ensures forall i :: |r| <= i < |s| ==> IsWhitespace(s[i])
  { if s != [] && IsWhitespace(s[|s| - 1]) then TrimEnd(s[..|s| - 1]) else s }

  /** Rust `trim`: both ends, Unicode white space. */
  function Trim(s: string): (r: string)
    ensures r == [] || (!IsWhitespace(r[0]) && !IsWhitespace(r[|r| - 1]))
  { TrimEnd(TrimStart(s)) }

  /** Rust `trim_end_matches(c)`: every trailing copy of `c` is removed. */
  function TrimEndMatches(s: string, c: char): (r: string)
    ensures |r| <= |s| && r == s[..|r|]
    ensures r == [] || r[|r| - 1] != c
    ensures forall i :: |r| <= i < |s| ==> s[i] == c
  { if s != [] && s[|s| - 1] == c then TrimEndMatches(s[..|s| - 1], c) else s }

  // ------------------------------------------------------------- splitting

  /** Rust `str::split(c)`: the pieces between separators; never empty. */
  function Split(s: string, c: char): (r: seq<string>)
    ensures |r| >= 1
    ensures forall i :: 0 <= i < |r| ==> c !in r[i]
    ensures c !in s ==> r == [s]
    decreases |s|
  {
    match IndexOf(s, c)
      case None => [s]
      case Some(i) => [s[..i]] + Split(s[i + 1..], c)
  }

  /** The `n`-th item of a sequence, if any (Rust `Iterator::nth`). */
  function Nth<T>(s: seq<T>, n: nat): (r: Option<T>)
    ensures r.Some? <==> n < |s|
    ensures r.Some? ==> r.value == s[n]
  { if n < |s| then Some(s[n]) else None }

  /** Rust `split_whitespace`: the maximal runs of non-white-space chars. */
  function SplitWhitespace(s: string): seq<string>
    decreases |s|
  {
    var t := TrimStart(s);
    if t == [] then []
    else
      var w := FirstWord(t);
      [w] + SplitWhitespace(t[|w|..])
  }

  /** Every piece split_whitespace yields is a non-empty run without white space. */
  lemma {:induction false} SplitWhitespaceWords(s: string)
    ensures forall i :: 0 <= i < |SplitWhitespace(s)| ==> IsWord(SplitWhitespace(s)[i])
    decreases |s|
  {
    var t := TrimStart(s);
    if t != [] {
      var w := FirstWord(t);
      SplitWhitespaceWords(t[|w|..]);
      var rest := SplitWhitespace(t[|w|..]);
      assert SplitWhitespace(s) == [w] + rest;
      assert IsWord(w);
      forall i | 0 <= i < |SplitWhitespace(s)| ensures IsWord(SplitWhitespace(s)[i]) {
        if i > 0 {
          assert SplitWhitespace(s)[i] == rest[i - 1];
        }
      }
    }
  }

  /** A non-empty run of non-white-space characters. */
  predicate IsWord(w: string)
  {
    w != [] && forall k :: 0 <= k < |w| ==> !IsWhitespace(w[k])
  }

  /** The leading run of non-white-space characters of `s`. */
  function FirstWord(s: string): (w: string)
    ensures |w| <= |s| && w == s[..|w|]
    ensures forall k :: 0 <= k < |w| ==> !IsWhitespace(w[k])
    ensures |w| < |s| ==> IsWhitespace(s[|w|])
    ensures s != [] && !IsWhitespace(s[0]) ==> w != []
  { if s != [] && !IsWhitespace(s[0]) then [s[0]] + FirstWord(s[1..]) else [] }

  /** Rust `str::lines`: split at "\n", drop one "\r" before it, no final empty line. */
  function Lines(s: string): (r: seq<string>)
    ensures forall i :: 0 <= i < |r| ==> '\n' !in r[i]
    ensures s == [] ==> r == []
    decreases |s|
  {
    match IndexOf(s, '\n')
      case None => if s == [] then [] else [s]
      case Some(i) => [StripCr(s[..i])] + Lines(s[i + 1..])
  }

  function StripCr(s: string): (r: string)
    ensures |r| <= |s| && r == s[..|r|]
  { if s != [] && s[|s| - 1] == '\r' then s[..|s| - 1] else s }

  // ------------------------------------------------------ decimal numbers

  predicate AllDigits(s: string) { forall i :: 0 <= i < |s| ==> IsDigit(s[i]) }

  /** Value of a string of ASCII digits, most significant first. */
  function DigitsValue(s: string): nat
    requires AllDigits(s)
  { if s == [] then 0 else DigitsValue(s[..|s| - 1]) * 10 + DigitValue(s[|s| - 1]) }

  /**
   * Rust `<uN as FromStr>::from_str` for an unsigned type whose maximum is
   * `max`: an optional '+', then at least one ASCII digit, value at most `max`.
   */
  function ParseUnsigned(s: string, max: nat): (r: Option<nat>)
    ensures r.Some? ==> r.value <= max
    ensures r.Some? ==> s != [] && (IsDigit(s[0]) || s[0] == '+')
    ensures AllDigits(s) && s != [] && DigitsValue(s) <= max ==> r == Some(DigitsValue(s))
  {
    var digits := if s != [] && s[0] == '+' then s[1..] else s;
    if digits == [] || !AllDigits(digits) then None
    else if DigitsValue(digits) <= max then Some(DigitsValue(digits))
    else None
  }

  /**
   * Rust `<iN as FromStr>::from_str` for a signed type with range
   * `-(max + 1) ..= max`: an optional sign, then at least one ASCII digit.
   */
  function ParseSigned(s: string, max: nat): (r: Option<int>)
    ensures r.Some? ==> -(max + 1) <= r.value <= max
    ensures AllDigits(s) && s != [] && DigitsValue(s) <= max ==> r == Some(DigitsValue(s))
  {
    if s != [] && s[0] == '-' then
      var digits := s[1..];
      if digits == [] || !AllDigits(digits) then None
      else if DigitsValue(digits) <= max + 1 then Some(0 - DigitsValue(digits) as int)
      else None
    else
      match ParseUnsigned(s, max)
        case None => None
        case Some(v) => Some(v)
  }

  /** Decimal rendering without leading zeros (Rust `to_string` / `{}`). */
  function NatToString(n: nat): (s: string)
    ensures s != [] && AllDigits(s)
    ensures |s| > 1 ==> s[0] != '0'
    decreases n
  { if n < 10 then [DigitChar(n)] else NatToString(n / 10) + [DigitChar(n % 10)] }

  lemma {:induction false} NatToStringValue(n: nat)
    ensures DigitsValue(NatToString(n)) == n
    decreases n
  {
    if n >= 10 {
      var s := NatToString(n);
      assert s[..|s| - 1] == NatToString(n / 10);
      NatToStringValue(n / 10);
    }
  }

  /** Zero-padded decimal of at least `width` digits (Rust `{:0width$}`). */
  function PadZeros(n: nat, width: nat): (s: string)
    ensures AllDigits(s) && |s| >= width
    ensures DigitsValue(s) == n
  {
    var d := NatToString(n);
    NatToStringValue(n);
    if |d| >= width then d
    else
      var z := seq(width - |d|, _ => '0');
      DigitsValueLeadingZeros(z, d);
      z + d
  }

  lemma {:induction false} DigitsValueLeadingZeros(z: string, d: string)
    requires forall i :: 0 <= i < |z| ==> z[i] == '0'
    requires AllDigits(d)
    ensures AllDigits(z + d) && DigitsValue(z + d) == DigitsValue(d)
    decreases |d|
  {
    if d == [] {
      assert z + d == z;
      AllZerosValue(z);
    } else {
      var zd := z + d;
      assert zd[..|zd| - 1] == z + d[..|d| - 1];
      DigitsValueLeadingZeros(z, d[..|d| - 1]);
    }
  }

  lemma {:induction false} AllZerosValue(z: string)
    requires forall i :: 0 <= i < |z| ==> z[i] == '0'
    ensures AllDigits(z) && DigitsValue(z) == 0
    decreases |z|
  {
    if z != [] { AllZerosValue(z[..|z| - 1]); }
  }

  /** The values of a map in some order, one per key (Rust `values().cloned().collect()`). */
  method MapValues<K, V(==)>(m: map<K, V>) returns (r: seq<V>)
    ensures |r| == |m|
    ensures forall v :: v in r <==> v in m.Values
  {
    var todo := m.Keys;
    r := [];
    while todo != {}
      invariant todo <= m.Keys
      invariant |r| + |todo| == |m|
      invariant forall v :: v in r <==> exists k :: k in m && k !in todo && m[k] == v
      decreases |todo|
    {
      var k :| k in todo;
      r := r + [m[k]];
      todo := todo - {k};
    }
  }

  /** The elements of a set in some order, each once (Rust `keys().cloned().collect()`). */
  method SetElements<T>(s: set<T>) returns (r: seq<T>)
    ensures |r| == |s|
    ensures forall x :: x in r <==> x in s
    ensures forall i, j :: 0 <= i < j < |r| ==> r[i] != r[j]
  {
    var todo := s;
    r := [];
    while todo != {}
      invariant todo <= s
      invariant |r| + |todo| == |s|
      invariant forall x :: x in r <==> x in s && x !in todo
      invariant forall i, j :: 0 <= i < j < |r| ==> r[i] != r[j]
      decreases |todo|
    {
      var x :| x in todo;
      r := r + [x];
      todo := todo - {x};
    }
  }

  /** A string of ASCII digits is one byte per character. */
  lemma {:induction false} DigitsUtf8Len(s: string)
    requires AllDigits(s)
    ensures Utf8Len(s) == |s|
  {
    if s != [] { DigitsUtf8Len(s[1..]); }
  }

  /** Deleting a character a string does not contain changes nothing. */
  lemma {:induction false} RemoveAbsentChar(s: string, c: char)
    requires c !in s
    ensures RemoveChar(s, c) == s
  {
    if s != [] { RemoveAbsentChar(s[1..], c); }
  }

  function Pow10(k: nat): (p: nat)
    ensures p >= 1
  { if k == 0 then 1 else 10 * Pow10(k - 1) }

  /** A number of k digits renders as k characters. */
  lemma {:induction false} NatToStringLength(n: nat, k: nat)
    requires k >= 1 && (k == 1 || Pow10(k - 1) <= n) && n < Pow10(k)
    ensures |NatToString(n)| == k
    decreases k
  {
    if k > 1 {
      Pow10Mono(k - 1);
      NatToStringLength(n / 10, k - 1);
    }
  }

  lemma {:induction false} Pow10Mono(k: nat)
    requires k >= 1
    ensures Pow10(k) >= 10
  {
    if k > 1 { Pow10Mono(k - 1); }
  }

  /** Join with a separator (Rust `join`). */
  function Join(parts: seq<string>, sep: string): string
  {
    if parts == [] then []
    else if |parts| == 1 then parts[0]
    else parts[0] + sep + Join(parts[1..], sep)
  }

  /** The first `c` of a + [c] + b is the one after `a` when `a` has none. */
  lemma IndexOfAfter(a: string, c: char, b: string)
    requires c !in a
    ensures IndexOf(a + [c] + b, c) == Some(|a|)
  {
    var s := a + [c] + b;
    assert s[|a|] == c;
  }

  /** Splitting a join at its separator gives the parts back when no part contains it. */
  lemma {:induction false} SplitJoin(parts: seq<string>, c: char)
    requires parts != [] && forall i :: 0 <= i < |parts| ==> c !in parts[i]
    ensures Split(Join(parts, [c]), c) == parts
    decreases |parts|
  {
    if |parts| > 1 {
      var rest := Join(parts[1..], [c]);
      IndexOfAfter(parts[0], c, rest);
      var s := parts[0] + [c] + rest;
      assert s[..|parts[0]|] == parts[0];
      assert s[|parts[0]| + 1..] == rest;
      assert Join(parts, [c]) == s;
      assert Split(s, c) == [parts[0]] + Split(rest, c);
      SplitJoin(parts[1..], c);
      assert [parts[0]] + parts[1..] == parts;
    }
  }
}
