/**
 * The small helpers of the utilities module: byte and duration formatting,
 * network-address validation, the session-id layout and file-name
 * sanitising. The random number behind a session id is an input.
 */
module Utils {
  import opened Text

  // ----------------------------------------------------------- format_bytes

  const KiB: nat := 1024

  /** The units of format_bytes, smallest first. */
  const Units: seq<string> := ["B", "KB", "MB", "GB", "TB"]

  /** v × 1024^k. */
  function Times1024(v: real, k: nat): real
  { if k == 0 then v else 1024.0 * Times1024(v, k - 1) }

  /**
   * The division loop of format_bytes: divide by 1024 while the value is at
   * least 1024 and a larger unit remains. Returns the scaled value and the
   * unit index.
   */
  function Scale(size: real, k: nat): (r: (real, nat))
    requires k < |Units|
    ensures k <= r.1 < |Units|
    ensures size == Times1024(r.0, r.1 - k)
    ensures r.0 < 1024.0 || r.1 == |Units| - 1
    ensures size >= 1024.0 && k < |Units| - 1 ==> r.0 >= 1.0
    decreases |Units| - k
  {
    if size >= 1024.0 && k < |Units| - 1 then
      var r := Scale(size / 1024.0, k + 1);
      assert Times1024(r.0, r.1 - k) == 1024.0 * Times1024(r.0, r.1 - (k + 1));
      r
    else (size, k)
  }

  /** What format_bytes prints: a whole number of bytes, or a scaled value with its unit. */
  datatype ByteSize = Whole(bytes: nat) | Scaled(value: real, unit: string)

  /**
   * format_bytes up to its final `{:.1}` rendering: fewer than 1024 bytes are
   * printed whole, anything larger is divided down to the largest fitting unit.
   */
  method FormatBytes(bytes: nat) returns (r: ByteSize)
    ensures bytes < KiB ==> r == Whole(bytes)
    ensures bytes >= KiB ==> r == Scaled(Scale(bytes as real, 0).0, Units[Scale(bytes as real, 0).1])
  {
    if bytes < KiB {
      return Whole(bytes);
    }
    var size := bytes as real;
    var unitIndex := 0;
    while size >= 1024.0 && unitIndex < |Units| - 1
      invariant unitIndex < |Units|
      invariant Scale(size, unitIndex) == Scale(bytes as real, 0)
      decreases |Units| - unitIndex
    {
      size := size / 1024.0;
      unitIndex := unitIndex + 1;
    }
    return Scaled(size, Units[unitIndex]);
  }

  /** The whole-bytes form: "<n> B". */
  function RenderWhole(bytes: nat): (s: string)
    ensures EndsWith(s, " B") && s[..|s| - 2] == NatToString(bytes)
  {
    var s := NatToString(bytes) + " B";
    assert s[|s| - 2..] == " B";
    s
  }

  /** Scaling keeps the quantity: value × 1024^k is the size, with 1 ≤ value < 1024 below the largest unit. */
  lemma ScaleMeaning(size: real)
    requires size >= 1024.0
    ensures var r := Scale(size, 0); Times1024(r.0, r.1) == size && r.0 >= 1.0 && r.1 >= 1
    ensures var r := Scale(size, 0); r.0 < 1024.0 || Units[r.1] == "TB"
  {
    var r := Scale(size, 0);
    assert r == Scale(size / 1024.0, 1);
    assert r.1 - 0 == r.1;
    assert Units[4] == "TB";
  }

  /** A mebibyte is "1.0 MB" and one and a half kibibytes are "1.5 KB". */
  lemma ScaleExamples()
    ensures Scale(1024.0, 0) == (1.0, 1)
    ensures Scale(1536.0, 0) == (1.5, 1)
    ensures Scale(1048576.0, 0) == (1.0, 2)
    ensures RenderWhole(512) == "512 B"
  {
    assert Scale(1.0, 1) == (1.0, 1);
    assert Scale(1.5, 1) == (1.5, 1);
    assert Scale(1.0, 2) == (1.0, 2);
    assert Scale(1024.0, 1) == (1.0, 2);
    assert NatToString(512) == "512" by {
      assert NatToString(51) == "51" by { assert NatToString(5) == "5"; }
    }
  }

  // ----------------------------------------------------------- format_duration

  /** Whole hours, remaining minutes and remaining seconds of a duration in milliseconds. */
  function Clock(ms: nat): (r: (nat, nat, nat))
    ensures r.1 < 60 && r.2 < 60
    ensures r.0 * 3600 + r.1 * 60 + r.2 == ms / 1000
  {
    var seconds := ms / 1000;
    var minutes := seconds / 60;
    var hours := minutes / 60;
    assert minutes == hours * 60 + minutes % 60;
    assert seconds == minutes * 60 + seconds % 60;
    (hours, minutes % 60, seconds % 60)
  }

  /** The space-separated pieces of format_duration from one second on: "Hh Mm Ss", "Mm Ss" or "Ss". */
  function DurationPieces(ms: nat): (ps: seq<string>)
    ensures 1 <= |ps| <= 3
  {
    var c := Clock(ms);
    ClockPieces(c.0, c.1, c.2)
  }

  /** The pieces for h hours, m minutes and s seconds, from the largest nonzero unit down; the last is the seconds. */
  function ClockPieces(h: nat, m: nat, s: nat): (ps: seq<string>)
    ensures 1 <= |ps| <= 3 && ps[|ps| - 1] == NatToString(s) + "s"
  {
    var seconds := NatToString(s) + "s";
    if h > 0 then [NatToString(h) + "h", NatToString(m) + "m", seconds]
    else if m > 0 then [NatToString(m) + "m", seconds]
    else [seconds]
  }

  /** format_duration: "<n>ms" under a second, otherwise hours, minutes and seconds down to the largest nonzero unit. */
  function FormatDuration(ms: nat): (r: string)
    ensures ms < 1000 ==> r == NatToString(ms) + "ms"
    ensures 1000 <= ms < 60_000 ==> r == NatToString(ms / 1000) + "s"
  {
    if ms < 1000 then NatToString(ms) + "ms"
    else Join(DurationPieces(ms), " ")
  }

  /** The milliseconds one piece "<n>h", "<n>m" or "<n>s" stands for. */
  function PieceMs(p: string): Option<nat>
  {
    if |p| >= 2 && AllDigits(p[..|p| - 1]) then
      var v := DigitsValue(p[..|p| - 1]);
      if p[|p| - 1] == 'h' then Some(v * 3_600_000)
      else if p[|p| - 1] == 'm' then Some(v * 60_000)
      else if p[|p| - 1] == 's' then Some(v * 1000)
      else None
    else None
  }

  function PiecesMs(ps: seq<string>): Option<nat>
  {
    if ps == [] then Some(0)
    else match (PieceMs(ps[0]), PiecesMs(ps[1..]))
      case (Some(a), Some(b)) => Some(a + b)
      case _ => None
  }

  /** Reads a format_duration text back as milliseconds. */
  function ParseDuration(s: string): Option<nat>
  {
    if |s| >= 3 && EndsWith(s, "ms") && AllDigits(s[..|s| - 2]) then Some(DigitsValue(s[..|s| - 2]))
    else PiecesMs(Split(s, ' '))
  }

  lemma PieceValue(n: nat, unit: char)
    requires unit in "hms"
    ensures var p := NatToString(n) + [unit];
      p[..|p| - 1] == NatToString(n) && ' ' !in p
      && PieceMs(p) == Some(n * (if unit == 'h' then 3_600_000 else if unit == 'm' then 60_000 else 1000))
  {
    var p := NatToString(n) + [unit];
    assert p[..|p| - 1] == NatToString(n);
    NatToStringValue(n);
    assert forall i :: 0 <= i < |NatToString(n)| ==> NatToString(n)[i] != ' ';
  }

  lemma ClockMs(h: nat, m: nat, sec: nat)
    ensures (h * 3600 + m * 60 + sec) * 1000 == h * 3_600_000 + m * 60_000 + sec * 1000
  {
  }

  /** The pieces of format_duration total the whole seconds of the duration. */
  lemma PiecesTotal(ms: nat)
    requires ms >= 1000
    ensures PiecesMs(DurationPieces(ms)) == Some(ms / 1000 * 1000)
    ensures forall i :: 0 <= i < |DurationPieces(ms)| ==> ' ' !in DurationPieces(ms)[i]
  {
    var c := Clock(ms);
    ClockPiecesTotal(c.0, c.1, c.2);
    ClockMs(c.0, c.1, c.2);
  }

  lemma ClockPiecesTotal(h: nat, m: nat, s: nat)
    ensures PiecesMs(ClockPieces(h, m, s)) == Some(h * 3_600_000 + m * 60_000 + s * 1000)
    ensures forall i :: 0 <= i < |ClockPieces(h, m, s)| ==> ' ' !in ClockPieces(h, m, s)[i]
  {
    var hp, mp, sp := NatToString(h) + "h", NatToString(m) + "m", NatToString(s) + "s";
    PieceValue(h, 'h');
    PieceValue(m, 'm');
    PieceValue(s, 's');
    assert PiecesMs([sp]) == Some(s * 1000) by {
      assert [sp][1..] == [];
    }
    assert PiecesMs([mp, sp]) == Some(m * 60_000 + s * 1000) by {
      assert [mp, sp][1..] == [sp];
    }
    assert PiecesMs([hp, mp, sp]) == Some(h * 3_600_000 + m * 60_000 + s * 1000) by {
      assert [hp, mp, sp][1..] == [mp, sp];
    }
  }

  /** Reading format_duration back gives the milliseconds under a second and the whole seconds from one second on. */
  lemma DurationRoundTrip(ms: nat)
    ensures ParseDuration(FormatDuration(ms)) == Some(if ms < 1000 then ms else ms / 1000 * 1000)
  {
    if ms < 1000 {
      var s := NatToString(ms) + "ms";
      assert s[..|s| - 2] == NatToString(ms);
      assert s[|s| - 2..] == "ms";
      NatToStringValue(ms);
    } else {
      var ps := DurationPieces(ms);
      PiecesTotal(ms);
      SplitJoin(ps, ' ');
      var s := Join(ps, " ");
      var last := ps[|ps| - 1];
      JoinEndsWith(ps, " ");
      assert s[|s| - 2] == last[|last| - 2];
      assert last[|last| - 2] != 'm';
    }
  }

  /** A join ends with its last part. */
  lemma {:induction false} JoinEndsWith(ps: seq<string>, sep: string)
    requires ps != []
    ensures EndsWith(Join(ps, sep), ps[|ps| - 1])
  {
    if |ps| > 1 {
      JoinEndsWith(ps[1..], sep);
      var j := Join(ps[1..], sep);
      var s := ps[0] + sep + j;
      assert s[|s| - |j|..] == j;
    }
  }

  /** The examples the module's tests name: "500ms", "1s", "1m 5s", "1h 1m 5s". */
  lemma DurationExamples()
    ensures FormatDuration(500) == "500ms"
    ensures FormatDuration(1500) == "1s"
    ensures FormatDuration(65_000) == "1m 5s"
    ensures FormatDuration(3_665_000) == "1h 1m 5s"
  {
    assert NatToString(500) == "500" by {
      assert NatToString(50) == "50" by { assert NatToString(5) == "5"; }
    }
    assert Clock(65_000) == (0, 1, 5);
    assert Clock(3_665_000) == (1, 1, 5);
  }

  // ----------------------------------------------------------- validate_network_address

  /**
   * One octet of a dotted IPv4 address as Rust's `Ipv4Addr` parser reads it:
   * one to three ASCII digits, no leading zero, at most 255.
   */
  predicate IsOctet(p: string)
  {
    1 <= |p| <= 3 && AllDigits(p) && (|p| > 1 ==> p[0] != '0') && DigitsValue(p) <= 255
  }

  /** A dotted-quad IPv4 address. */
  predicate IsIpv4(s: string)
  {
    var parts := Split(s, '.');
    |parts| == 4 && forall i :: 0 <= i < 4 ==> IsOctet(parts[i])
  }

  /**
   * The host half of an address: an IP literal or "localhost". The host is
   * the text before the first ':', so it holds no ':'; every IPv6 text form
   * holds one, which leaves IPv4 as the only IP literal that can match.
   */
  predicate HostOk(host: string)
  { IsIpv4(host) || host == "localhost" }

  /** The port half: a `u16` (optional '+', decimal digits, at most 65535) that is not zero. */
  predicate PortOk(port: string)
  {
    var p := ParseUnsigned(port, 65535);
    p.Some? && p.value > 0
  }

  /** validate_network_address: split at the first ':'; the host must be IPv4 or "localhost" and the port a nonzero u16. */
  function ValidateNetworkAddress(address: string): (b: bool)
    ensures b <==>
      exists i :: 0 <= i < |address| && address[i] == ':' && ':' !in address[..i] && HostOk(address[..i]) && PortOk(address[i + 1..])
  {
    match IndexOf(address, ':')
      case None => false
      case Some(i) =>
        assert address[i] == ':' && ':' !in address[..i];
        assert forall j :: 0 <= j < |address| && address[j] == ':' && ':' !in address[..j] ==> j == i by {
          forall j | 0 <= j < |address| && address[j] == ':' && ':' !in address[..j] ensures j == i {
            FirstOccurrenceUnique(address, ':', i, j);
          }
        }
        HostOk(address[..i]) && PortOk(address[i + 1..])
  }

  /** Two positions that both hold the first occurrence of c are the same position. */
  lemma FirstOccurrenceUnique(s: string, c: char, i: nat, j: nat)
    requires i < |s| && j < |s| && s[i] == c && s[j] == c && c !in s[..i] && c !in s[..j]
    ensures i == j
  {
  }

  lemma {:induction false} NatToStringNoChar(n: nat, c: char)
    requires !IsDigit(c)
    ensures c !in NatToString(n)
  {
  }

  lemma NatToStringShort(n: nat)
    requires n < 1000
    ensures |NatToString(n)| <= 3
  {
    if n < 10 {
      NatToStringLength(n, 1);
    } else if n < 100 {
      NatToStringLength(n, 2);
    } else {
      NatToStringLength(n, 3);
    }
  }

  /** The octet rendering of a byte is an octet. */
  lemma OctetOfByte(n: nat)
    requires n <= 255
    ensures IsOctet(NatToString(n))
  {
    NatToStringShort(n);
    NatToStringValue(n);
  }

  function Dotted(a: nat, b: nat, c: nat, d: nat): string
  { Join([NatToString(a), NatToString(b), NatToString(c), NatToString(d)], ".") }

  /** Every four bytes, written dotted, form an IPv4 address. */
  lemma DottedIsIpv4(a: nat, b: nat, c: nat, d: nat)
    requires a <= 255 && b <= 255 && c <= 255 && d <= 255
    ensures IsIpv4(Dotted(a, b, c, d))
    ensures ':' !in Dotted(a, b, c, d)
  {
    var parts := [NatToString(a), NatToString(b), NatToString(c), NatToString(d)];
    NatToStringNoChar(a, '.'); NatToStringNoChar(b, '.'); NatToStringNoChar(c, '.'); NatToStringNoChar(d, '.');
    NatToStringNoChar(a, ':'); NatToStringNoChar(b, ':'); NatToStringNoChar(c, ':'); NatToStringNoChar(d, ':');
    assert forall i :: 0 <= i < |parts| ==> '.' !in parts[i] && ':' !in parts[i];
    SplitJoin(parts, '.');
    assert Split(Dotted(a, b, c, d), '.') == parts;
    OctetOfByte(a); OctetOfByte(b); OctetOfByte(c); OctetOfByte(d);
    assert forall i :: 0 <= i < 4 ==> IsOctet(parts[i]);
    JoinAvoids(parts, ".", ':');
  }

  lemma {:induction false} JoinAvoids(ps: seq<string>, sep: string, c: char)
    requires c !in sep && forall i :: 0 <= i < |ps| ==> c !in ps[i]
    ensures c !in Join(ps, sep)
  {
    if |ps| > 1 {
      JoinAvoids(ps[1..], sep, c);
    }
  }

  /** An IPv4 address or "localhost", a ':' and a port from 1 to 65535 form a valid address. */
  lemma ValidAddresses(host: string, port: nat)
    requires HostOk(host) && ':' !in host && 1 <= port <= 65535
    ensures ValidateNetworkAddress(host + ":" + NatToString(port))
  {
    var s := host + ":" + NatToString(port);
    IndexOfAfter(host, ':', NatToString(port));
    assert s[..|host|] == host;
    assert s[|host| + 1..] == NatToString(port);
    NatToStringValue(port);
  }

  /** Without a ':', or with port 0 or a port past 65535, an address is invalid. */
  lemma InvalidAddresses(host: string, port: nat)
    requires ':' !in host
    ensures !ValidateNetworkAddress(host)
    ensures (port == 0 || port > 65535) ==> !ValidateNetworkAddress(host + ":" + NatToString(port))
  {
    var s := host + ":" + NatToString(port);
    IndexOfAfter(host, ':', NatToString(port));
    assert s[..|host|] == host;
    assert s[|host| + 1..] == NatToString(port);
    NatToStringValue(port);
  }

  // ----------------------------------------------------------- generate_session_id

  /** The session-id layout of a number drawn from 100000000 ..= 999999999: "ddd-ddd-ddd". */
  function SessionId(id: nat): (s: string)
    requires 100_000_000 <= id <= 999_999_999
    ensures |s| == 11 && s[3] == '-' && s[7] == '-'
    ensures AllDigits(s[..3]) && AllDigits(s[4..7]) && AllDigits(s[8..])
  {
    Pad3Length(id / 1_000_000);
    Pad3Length((id / 1000) % 1000);
    Pad3Length(id % 1000);
    var a := PadZeros(id / 1_000_000, 3);
    var b := PadZeros((id / 1000) % 1000, 3);
    var c := PadZeros(id % 1000, 3);
    var s := a + "-" + b + "-" + c;
    assert s[..3] == a && s[4..7] == b && s[8..] == c;
    s
  }

  lemma Pad3Length(n: nat)
    requires n < 1000
    ensures |PadZeros(n, 3)| == 3
  {
    NatToStringShort(n);
  }

  lemma {:induction false} DigitsValueConcat(a: string, b: string)
    requires AllDigits(a) && AllDigits(b)
    ensures AllDigits(a + b) && DigitsValue(a + b) == DigitsValue(a) * Pow10(|b|) + DigitsValue(b)
    decreases |b|
  {
    if b == [] {
      assert a + b == a;
    } else {
      var ab := a + b;
      var b' := b[..|b| - 1];
      var d := DigitValue(b[|b| - 1]);
      assert AllDigits(b');
      DigitsValueConcat(a, b');
      assert AllDigits(ab) && DigitsValue(ab) == DigitsValue(a + b') * 10 + d by {
        assert forall i :: 0 <= i < |ab| ==> ab[i] == if i < |a| then a[i] else b[i - |a|];
        assert ab[..|ab| - 1] == a + b' && ab[|ab| - 1] == b[|b| - 1];
      }
      assert DigitsValue(b) == DigitsValue(b') * 10 + d;
      assert Pow10(|b|) == 10 * Pow10(|b'|);
      ShiftDigit(DigitsValue(a), Pow10(|b'|), DigitsValue(b'), d);
    }
  }

  lemma ShiftDigit(x: nat, p: nat, y: nat, d: nat)
    ensures (x * p + y) * 10 + d == x * (10 * p) + (y * 10 + d)
  {
  }

  lemma MulMonotone(a: nat, b: nat, n: nat)
    requires a <= b
    ensures a * n <= b * n
  {
  }

  lemma MulCancel(a: nat, b: nat, n: nat)
    requires a * n < b * n
    ensures a < b
  {
    if a >= b {
      MulMonotone(b, a, n);
    }
  }

  /** Quotient and remainder are unique. */
  lemma DivUnique(a: nat, b: nat, q: nat, r: nat)
    requires b > 0 && a == q * b + r && r < b
    ensures a / b == q && a % b == r
  {
    var q', r' := a / b, a % b;
    assert a == q' * b + r' && r' < b;
    assert (q + 1) * b == q * b + b && (q' + 1) * b == q' * b + b;
    MulCancel(q', q + 1, b);
    MulCancel(q, q' + 1, b);
  }

  /** The three groups of a nine-digit number, recombined, give back the number. */
  lemma GroupsRecombine(id: nat)
    ensures ((id / 1_000_000) * 1000 + (id / 1000) % 1000) * 1000 + id % 1000 == id
  {
    var q := id / 1000;
    var z := id % 1000;
    var w := q / 1000;
    var y := q % 1000;
    assert id == q * 1000 + z;
    assert q == w * 1000 + y;
    assert id == w * 1_000_000 + (y * 1000 + z);
    DivUnique(id, 1_000_000, w, y * 1000 + z);
  }

  /** The three groups of a session id read together give back the number. */
  lemma SessionIdDigits(id: nat)
    requires 100_000_000 <= id <= 999_999_999
    ensures var s := SessionId(id); DigitsValue(s[..3] + s[4..7] + s[8..]) == id
  {
    SessionIdGroups(id);
    GroupsValue(id / 1_000_000, (id / 1000) % 1000, id % 1000);
    GroupsRecombine(id);
  }

  lemma SessionIdGroups(id: nat)
    requires 100_000_000 <= id <= 999_999_999
    ensures var s := SessionId(id);
      s[..3] == PadZeros(id / 1_000_000, 3) && s[4..7] == PadZeros((id / 1000) % 1000, 3) && s[8..] == PadZeros(id % 1000, 3)
  {
    Pad3Length(id / 1_000_000);
    Pad3Length((id / 1000) % 1000);
    Pad3Length(id % 1000);
  }

  /** Three zero-padded groups below 1000, read as one number. */
  lemma GroupsValue(x: nat, y: nat, z: nat)
    requires x < 1000 && y < 1000 && z < 1000
    ensures DigitsValue(PadZeros(x, 3) + PadZeros(y, 3) + PadZeros(z, 3)) == (x * 1000 + y) * 1000 + z
  {
    var a, b, c := PadZeros(x, 3), PadZeros(y, 3), PadZeros(z, 3);
    Pad3Length(x);
    Pad3Length(y);
    Pad3Length(z);
    assert Pow10(3) == 1000;
    DigitsValueConcat(a, b);
    DigitsValueConcat(a + b, c);
  }
  // ----------------------------------------------------------- sanitize_filename

  /**
   * The characters sanitize_filename keeps: alphanumerics, '-', '_' and '.'.
   * Rust's `is_alphanumeric` is Unicode-wide; the model keeps the ASCII letters and digits.
   */
  predicate Kept(c: char)
  { IsAsciiAlpha(c) || IsDigit(c) || c == '-' || c == '_' || c == '.' }

  function SanitizeChar(c: char): (r: char)
    ensures Kept(r) && (Kept(c) ==> r == c) && (r != c ==> r == '_')
  { if Kept(c) then c else '_' }

  /** sanitize_filename: every character not kept becomes '_'. */
  function SanitizeFilename(name: string): (r: string)
    ensures |r| == |name|
    ensures forall i :: 0 <= i < |r| ==> Kept(r[i]) && (Kept(name[i]) <==> r[i] == name[i])
  { seq(|name|, i requires 0 <= i < |name| => SanitizeChar(name[i])) }

  /** Sanitising twice is sanitising once. */
  lemma SanitizeIdempotent(name: string)
    ensures SanitizeFilename(SanitizeFilename(name)) == SanitizeFilename(name)
  {
  }

  /** A name is left alone exactly when every character is already kept. */
  lemma SanitizeFixedPoints(name: string)
    ensures SanitizeFilename(name) == name <==> forall i :: 0 <= i < |name| ==> Kept(name[i])
  {
    if SanitizeFilename(name) == name {
      forall i | 0 <= i < |name| ensures Kept(name[i]) {
        assert SanitizeFilename(name)[i] == name[i];
      }
    }
  }

  /** The module's examples. */
  lemma SanitizeExamples()
    ensures SanitizeFilename("test file.txt") == "test_file.txt"
    ensures SanitizeFilename("file@name#.log") == "file_name_.log"
  {
  }
}
