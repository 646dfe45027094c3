/**
 * The parsers of the system-information module: the network-interface
 * listings printed by `ifconfig`, `ip addr show` and `ipconfig`, and the
 * `MemTotal`/`MemAvailable` lines of `/proc/meminfo`.
 *
 * Running the commands and reading the file are left to the caller: each
 * parser receives the text. The JSON objects the source builds are
 * `Interface` values.
 */
module SystemParse {
  import opened Text

  const U64Max: nat := 0xFFFF_FFFF_FFFF_FFFF

  datatype Interface = Interface(name: string, addresses: seq<string>)

  /** The three listing formats, and the ifconfig reading as the source writes it. */
  datatype Format = Ifconfig | IfconfigAsWritten | IpAddr | Ipconfig

  /** The parser's state between lines: the interfaces finished so far and the one still open. */
  datatype ParserState = ParserState(done: seq<Interface>, current: Option<Interface>)

  const Start: ParserState := ParserState([], None)

  /** The finished interfaces followed by the open one, if any. */
  function Flushed(st: ParserState): (r: seq<Interface>)
    ensures |r| == |st.done| + (if st.current.Some? then 1 else 0)
  { st.done + (if st.current.Some? then [st.current.value] else []) }

  // ----------------------------------------------------------- line tests

  /**
   * Whether a line opens a new interface.
   * - ifconfig as written: the trimmed line does not start with ' ' and holds ':';
   *   the first test can never fail once the line is trimmed.
   * - ifconfig: the raw line does not start with white space and holds ':'.
   * - ip addr: the trimmed line starts with a digit.
   * - ipconfig: the trimmed line ends with ':' (and does not start with ' ').
   */
  predicate IsHeader(fmt: Format, line: string)
  {
    var t := Trim(line);
    match fmt
      case IfconfigAsWritten => !StartsWith(t, " ") && ':' in t
      case Ifconfig => !(line != [] && IsWhitespace(line[0])) && ':' in t
      case IpAddr => t != [] && IsDigit(t[0])
      case Ipconfig => EndsWith(t, ":") && !StartsWith(t, " ")
  }

  /**
   * The interface a header line opens, if any.
   * - ifconfig: named by the text before the first ':'.
   * - ip addr: the first word of the second ':' field, or "unknown" when
   *   that field is blank; none at all when there is no second field.
   * - ipconfig: the line without its trailing ':'s.
   */
  function Opened(fmt: Format, line: string): (r: Option<Interface>)
    ensures r.Some? ==> r.value.addresses == []
    ensures fmt != IpAddr ==> r.Some?
  {
    var t := Trim(line);
    match fmt
      case IfconfigAsWritten => Some(Interface(Split(t, ':')[0], []))
      case Ifconfig => Some(Interface(Split(t, ':')[0], []))
      case IpAddr =>
        (match Nth(Split(t, ':'), 1)
          case None => None
          case Some(part) =>
            var words := SplitWhitespace(Trim(part));
            Some(Interface(if words == [] then "unknown" else words[0], [])))
      case Ipconfig => Some(Interface(TrimEndMatches(t, ':'), []))
  }

  /**
   * The address a non-header line carries, if any.
   * - ifconfig: an "inet " line's second white-space field.
   * - ip addr: the same field with its "/prefix" cut off.
   * - ipconfig: a line mentioning "IPv4 Address" or "IP Address", the
   *   trimmed second ':' field.
   */
  function AddressOf(fmt: Format, line: string): (r: Option<string>)
    ensures fmt == IpAddr && r.Some? ==> '/' !in r.value
  {
    var t := Trim(line);
    match fmt
      case IfconfigAsWritten => if StartsWith(t, "inet ") then Nth(SplitWhitespace(t), 1) else None
      case Ifconfig => if StartsWith(t, "inet ") then Nth(SplitWhitespace(t), 1) else None
      case IpAddr =>
        if StartsWith(t, "inet ") then
          (match Nth(SplitWhitespace(t), 1)
            case None => None
            case Some(a) => Some(Split(a, '/')[0]))
        else None
      case Ipconfig =>
        if Contains(t, "IPv4 Address") || Contains(t, "IP Address") then
          match Nth(Split(t, ':'), 1)
            case None => None
            case Some(a) => Some(Trim(a))
        else None
  }

  /** What one line means to a parser. */
  datatype LineKind = Header(opens: Option<Interface>) | AddressLine(address: string) | Ignored

  function Classify(fmt: Format, line: string): (k: LineKind)
    ensures k.Header? <==> IsHeader(fmt, line)
    ensures k.Header? ==> k.opens == Opened(fmt, line)
    ensures k.AddressLine? <==> !IsHeader(fmt, line) && AddressOf(fmt, line).Some?
    ensures k.AddressLine? ==> k.address == AddressOf(fmt, line).value
  {
    if IsHeader(fmt, line) then Header(Opened(fmt, line))
    else if AddressOf(fmt, line).Some? then AddressLine(AddressOf(fmt, line).value)
    else Ignored
  }

  /** One line: a header flushes the open interface and opens the next; an address joins the open interface. */
  function Step(st: ParserState, k: LineKind): (r: ParserState)
    ensures k.Header? ==> r == ParserState(Flushed(st), k.opens)
    ensures !k.Header? ==> r.done == st.done
    ensures k.Ignored? || st.current.None? ==> k.Header? || r == st
  {
    match k
      case Header(opens) => ParserState(Flushed(st), opens)
      case AddressLine(a) =>
        if st.current.Some? then
          var c := st.current.value;
          ParserState(st.done, Some(c.(addresses := c.addresses + [a])))
        else st
      case Ignored => st
  }

  /** The state after the given lines, in order. */
  function Fold(fmt: Format, lines: seq<string>): ParserState
  {
    if lines == [] then Start else Step(Fold(fmt, lines[..|lines| - 1]), Classify(fmt, lines[|lines| - 1]))
  }

  /** What a parser returns for the given lines: everything finished, then the last open interface. */
  function Parsed(fmt: Format, lines: seq<string>): seq<Interface>
  { Flushed(Fold(fmt, lines)) }

  /**
   * parse_ifconfig_output, parse_ip_addr_output and parse_ipconfig_output:
   * one pass over the lines carrying the open interface, and a final flush.
   */
  method ParseOutput(fmt: Format, output: string) returns (interfaces: seq<Interface>)
    ensures interfaces == Parsed(fmt, Lines(output))
  {
    interfaces := ParseLines(fmt, Lines(output));
  }

  /** The loop over the lines, then the flush of the interface still open. */
  method ParseLines(fmt: Format, lines: seq<string>) returns (interfaces: seq<Interface>)
    ensures interfaces == Parsed(fmt, lines)
  {
    interfaces := [];
    var current: Option<Interface> := None;
    var i := 0;
    while i < |lines|
      invariant i <= |lines|
      invariant ParserState(interfaces, current) == FoldUpTo(fmt, lines, i)
    {
      interfaces, current := ParseLineAt(fmt, lines, i, interfaces, current);
      i := i + 1;
    }
    FoldUpToAll(fmt, lines);
    ghost var last := ParserState(interfaces, current);
    if current.Some? {
      interfaces := interfaces + [current.value];
    }
    assert interfaces == Flushed(last);
  }

  /** The state after the first n lines. */
  ghost function FoldUpTo(fmt: Format, lines: seq<string>, n: nat): ParserState
    requires n <= |lines|
  { Fold(fmt, lines[..n]) }

  lemma FoldUpToAll(fmt: Format, lines: seq<string>)
    ensures FoldUpTo(fmt, lines, |lines|) == Fold(fmt, lines)
  {
    assert lines[..|lines|] == lines;
  }

  /** One turn of the parsers' loop: classify line i and apply it. */
  method ParseLineAt(fmt: Format, lines: seq<string>, i: nat, interfaces: seq<Interface>, current: Option<Interface>)
    returns (interfaces': seq<Interface>, current': Option<Interface>)
    requires i < |lines| && ParserState(interfaces, current) == FoldUpTo(fmt, lines, i)
    ensures ParserState(interfaces', current') == FoldUpTo(fmt, lines, i + 1)
  {
    FoldNext(fmt, lines, i);
    interfaces', current' := ParseLine(interfaces, current, Classify(fmt, lines[i]));
  }

  /** The body of the parsers' loop for one classified line. */
  method ParseLine(interfaces: seq<Interface>, current: Option<Interface>, k: LineKind)
    returns (interfaces': seq<Interface>, current': Option<Interface>)
    ensures ParserState(interfaces', current') == Step(ParserState(interfaces, current), k)
  {
    interfaces', current' := interfaces, current;
    match k {
      case Header(opens) =>
        if current.Some? {
          interfaces' := interfaces + [current.value];
        }
        current' := opens;
      case AddressLine(a) =>
        if current.Some? {
          current' := Some(current.value.(addresses := current.value.addresses + [a]));
        }
      case Ignored =>
    }
  }

  lemma FoldNext(fmt: Format, lines: seq<string>, i: nat)
    requires i < |lines|
    ensures Fold(fmt, lines[..i + 1]) == Step(Fold(fmt, lines[..i]), Classify(fmt, lines[i]))
  {
    assert lines[..i + 1][..i] == lines[..i];
    assert lines[..i + 1][i] == lines[i];
  }

  // ----------------------------------------------------------- properties

  function Names(ifs: seq<Interface>): (r: seq<string>)
    ensures |r| == |ifs| && forall i :: 0 <= i < |ifs| ==> r[i] == ifs[i].name
  { seq(|ifs|, i requires 0 <= i < |ifs| => ifs[i].name) }

  /** The name a line contributes: that of the interface it opens, if it is a header that opens one. */
  function NameOpened(k: LineKind): seq<string>
  { if k.Header? && k.opens.Some? then [k.opens.value.name] else [] }

  /** The names of the interfaces the header lines open, in line order. */
  function OpenedNames(fmt: Format, lines: seq<string>): seq<string>
  {
    if lines == [] then []
    else OpenedNames(fmt, lines[..|lines| - 1]) + NameOpened(Classify(fmt, lines[|lines| - 1]))
  }

  lemma NamesAppend(a: seq<Interface>, b: seq<Interface>)
    ensures Names(a + b) == Names(a) + Names(b)
  {
  }

  /** Each line adds to the names at most the one of the interface it opens. */
  lemma StepNames(st: ParserState, k: LineKind)
    ensures Names(Flushed(Step(st, k))) == Names(Flushed(st)) + NameOpened(k)
  {
    var st' := Step(st, k);
    if k.Header? {
      var added := if k.opens.Some? then [k.opens.value] else [];
      assert Flushed(st') == Flushed(st) + added;
      NamesAppend(Flushed(st), added);
    } else {
      assert |Flushed(st')| == |Flushed(st)|;
      assert forall i :: 0 <= i < |Flushed(st)| ==> Flushed(st')[i].name == Flushed(st)[i].name;
    }
  }

  /** Interfaces come out in the order their header lines appear, one per header that names one, the last included. */
  lemma {:induction false} InterfacesInOrder(fmt: Format, lines: seq<string>)
    ensures Names(Parsed(fmt, lines)) == OpenedNames(fmt, lines)
  {
    if lines != [] {
      InterfacesInOrder(fmt, lines[..|lines| - 1]);
      StepNames(Fold(fmt, lines[..|lines| - 1]), Classify(fmt, lines[|lines| - 1]));
    }
  }

  /** Seen from the outside, the finished list only grows: every line keeps what was already emitted. */
  lemma {:induction false} DoneOnlyGrows(fmt: Format, lines: seq<string>, more: seq<string>)
    ensures Fold(fmt, lines).done <= Fold(fmt, lines + more).done
    decreases |more|
  {
    if more == [] {
      assert lines + more == lines;
    } else {
      var init := more[..|more| - 1];
      assert (lines + more)[..|lines + more| - 1] == lines + init;
      DoneOnlyGrows(fmt, lines, init);
    }
  }

  /** Address lines before the first header belong to no interface and are dropped. */
  lemma {:induction false} NoHeaderNoInterfaces(fmt: Format, lines: seq<string>)
    requires forall i :: 0 <= i < |lines| ==> !IsHeader(fmt, lines[i])
    ensures Parsed(fmt, lines) == []
  {
    if lines != [] {
      NoHeaderNoInterfaces(fmt, lines[..|lines| - 1]);
    }
  }

  /** An address line appends its address to the open interface and touches nothing else. */
  lemma AddressJoinsOpenInterface(fmt: Format, lines: seq<string>, line: string)
    requires !IsHeader(fmt, line) && AddressOf(fmt, line).Some? && Fold(fmt, lines).current.Some?
    ensures var before := Fold(fmt, lines); var after := Fold(fmt, lines + [line]);
      after.done == before.done && after.current.Some?
      && after.current.value.name == before.current.value.name
      && after.current.value.addresses == before.current.value.addresses + [AddressOf(fmt, line).value]
  {
    assert (lines + [line])[..|lines|] == lines;
  }

  /** In `ip addr` output, a numbered line without a second ':' field leaves no interface open. */
  lemma IpAddrHeaderWithoutName(lines: seq<string>, line: string)
    requires IsHeader(IpAddr, line) && |Split(Trim(line), ':')| < 2
    ensures Fold(IpAddr, lines + [line]).current.None?
  {
    assert (lines + [line])[..|lines|] == lines;
  }

  /** With no interface open, a line that is not a header changes nothing: its address is dropped. */
  lemma AddressDroppedWhenClosed(fmt: Format, lines: seq<string>, line: string)
    requires !IsHeader(fmt, line) && Fold(fmt, lines).current.None?
    ensures Fold(fmt, lines + [line]) == Fold(fmt, lines)
  {
    FoldSnoc(fmt, lines, line);
  }

  /** The ipconfig header test, too, is "the trimmed line ends with ':'": its leading-space test cannot fail. */
  lemma IpconfigGuardVacuous(line: string)
    ensures IsHeader(Ipconfig, line) <==> EndsWith(Trim(line), ":")
  {
    var t := Trim(line);
    if t != [] {
      assert IsWhitespace(' ');
    }
  }

  /** As written, the ifconfig header test ignores indentation: it is "the trimmed line holds ':'". */
  lemma IfconfigGuardVacuous(line: string)
    ensures IsHeader(IfconfigAsWritten, line) <==> ':' in Trim(line)
  {
    var t := Trim(line);
    if t != [] {
      assert IsWhitespace(' ');
    }
  }

  lemma FoldSnoc(fmt: Format, lines: seq<string>, line: string)
    ensures Fold(fmt, lines + [line]) == Step(Fold(fmt, lines), Classify(fmt, line))
  {
    assert (lines + [line])[..|lines|] == lines;
  }

  /** The parse of three lines, one step at a time. */
  lemma FoldThree(fmt: Format, a: string, b: string, c: string)
    ensures Fold(fmt, [a, b, c]) == Step(Step(Step(Start, Classify(fmt, a)), Classify(fmt, b)), Classify(fmt, c))
  {
    var l1: seq<string> := [a];
    var l2: seq<string> := [a, b];
    var l3: seq<string> := [a, b, c];
    assert l1[..0] == [];
    assert l2[..1] == l1;
    assert l3[..2] == l2;
    assert Fold(fmt, l1) == Step(Start, Classify(fmt, a));
    assert Fold(fmt, l2) == Step(Fold(fmt, l1), Classify(fmt, b));
    assert Fold(fmt, l3) == Step(Fold(fmt, l2), Classify(fmt, c));
  }

  /** An interface header such as "en0: flags=8863<UP> mtu 1500" opens its interface in both readings. */
  lemma ClassifyHeader(header: string)
    requires header != [] && !IsWhitespace(header[0]) && ':' in header && !IsWhitespace(header[|header| - 1])
    ensures Classify(IfconfigAsWritten, header) == Header(Some(Interface(Split(header, ':')[0], [])))
    ensures Classify(Ifconfig, header) == Header(Some(Interface(Split(header, ':')[0], [])))
  {
    TrimKeepsColon(header);
    IfconfigGuardVacuous(header);
  }

  /** An indented line holding ':' is a header as written, and not with the corrected test. */
  lemma ClassifyIndented(line: string)
    requires line != [] && IsWhitespace(line[0]) && ':' in Trim(line) && !StartsWith(Trim(line), "inet ")
    ensures Classify(IfconfigAsWritten, line) == Header(Some(Interface(Split(Trim(line), ':')[0], [])))
    ensures Classify(Ifconfig, line) == Ignored
  {
    IfconfigGuardVacuous(line);
  }

  /** An indented "inet " line without ':' is an address line in both readings. */
  lemma ClassifyInet(line: string)
    requires line != [] && IsWhitespace(line[0]) && ':' !in Trim(line) && AddressOf(Ifconfig, line).Some?
    ensures Classify(IfconfigAsWritten, line) == AddressLine(AddressOf(Ifconfig, line).value)
    ensures Classify(Ifconfig, line) == AddressLine(AddressOf(Ifconfig, line).value)
  {
    IfconfigGuardVacuous(line);
    assert AddressOf(IfconfigAsWritten, line) == AddressOf(Ifconfig, line);
  }

  /**
   * As written, an indented line holding ':' (an `ether` line "\tether
   * ac:de:…", or an `inet6` line) opens an interface of its own, and the
   * address listed after it is filed under that false interface. With the
   * indentation checked on the raw line, the address stays with its header.
   */
  lemma IndentedColonLine(header: string, indented: string, inet: string)
    requires header != [] && !IsWhitespace(header[0]) && ':' in header && !IsWhitespace(header[|header| - 1])
    requires indented != [] && IsWhitespace(indented[0]) && ':' in Trim(indented) && !StartsWith(Trim(indented), "inet ")
    requires inet != [] && IsWhitespace(inet[0]) && ':' !in Trim(inet) && AddressOf(Ifconfig, inet).Some?
    ensures |Parsed(IfconfigAsWritten, [header, indented, inet])| == 2
    ensures Parsed(IfconfigAsWritten, [header, indented, inet])[0].addresses == []
    ensures |Parsed(Ifconfig, [header, indented, inet])| == 1
    ensures Parsed(Ifconfig, [header, indented, inet])[0].addresses == [AddressOf(Ifconfig, inet).value]
  {
    ClassifyHeader(header);
    ClassifyIndented(indented);
    ClassifyInet(inet);
    var a := AddressOf(Ifconfig, inet).value;
    var h := Interface(Split(header, ':')[0], []);
    var x := Interface(Split(Trim(indented), ':')[0], []);
    ThreeLines(IfconfigAsWritten, header, indented, inet, Header(Some(h)), Header(Some(x)), AddressLine(a));
    ThreeLines(Ifconfig, header, indented, inet, Header(Some(h)), Ignored, AddressLine(a));
  }

  /** The parse of three lines of known kinds. */
  lemma ThreeLines(fmt: Format, a: string, b: string, c: string, ka: LineKind, kb: LineKind, kc: LineKind)
    requires Classify(fmt, a) == ka && Classify(fmt, b) == kb && Classify(fmt, c) == kc
    ensures Parsed(fmt, [a, b, c]) == Flushed(Step(Step(Step(Start, ka), kb), kc))
  {
    FoldThree(fmt, a, b, c);
  }

  /** Trimming a line whose ends are not white space changes nothing. */
  lemma TrimKeepsColon(s: string)
    requires s != [] && !IsWhitespace(s[0]) && !IsWhitespace(s[|s| - 1])
    ensures Trim(s) == s
  {
  }

  // ----------------------------------------------------------- meminfo

  /** The kB figure of a meminfo line: its second white-space field as a u64, 0 when it does not parse. */
  function KbOf(line: string): (r: Option<nat>)
    ensures r.Some? ==> r.value <= U64Max
    ensures r.Some? <==> |SplitWhitespace(line)| >= 2
  {
    match Nth(SplitWhitespace(line), 1)
      case None => None
      case Some(v) => Some(ParseUnsigned(v, U64Max).UnwrapOr(0))
  }

  /** The (MemTotal, MemAvailable) kB figures after the given lines: the last usable line of each wins. */
  function MemScan(lines: seq<string>): (r: (nat, nat))
  {
    if lines == [] then (0, 0)
    else
      var prev := MemScan(lines[..|lines| - 1]);
      var line := lines[|lines| - 1];
      if StartsWith(line, "MemTotal:") then
        (if KbOf(line).Some? then KbOf(line).value else prev.0, prev.1)
      else if StartsWith(line, "MemAvailable:") then
        (prev.0, if KbOf(line).Some? then KbOf(line).value else prev.1)
      else prev
  }

  /** get_linux_memory_info's scan: total and available memory in bytes (kB × 1024). */
  method ParseMeminfo(meminfo: string) returns (totalBytes: nat, availableBytes: nat)
    ensures totalBytes == MemScan(Lines(meminfo)).0 * 1024
    ensures availableBytes == MemScan(Lines(meminfo)).1 * 1024
  {
    var lines := Lines(meminfo);
    var totalKb := 0;
    var availableKb := 0;
    var i := 0;
    while i < |lines|
      invariant i <= |lines|
      invariant (totalKb, availableKb) == MemScan(lines[..i])
    {
      assert lines[..i + 1][..i] == lines[..i];
      var line := lines[i];
      if StartsWith(line, "MemTotal:") {
        var v := KbOf(line);
        if v.Some? {
          totalKb := v.value;
        }
      } else if StartsWith(line, "MemAvailable:") {
        var v := KbOf(line);
        if v.Some? {
          availableKb := v.value;
        }
      }
      i := i + 1;
    }
    assert lines[..|lines|] == lines;
    totalBytes := totalKb * 1024;
    availableBytes := availableKb * 1024;
  }

  /** Lines that start with neither key leave both figures alone. */
  lemma {:induction false} MemScanIgnores(lines: seq<string>, rest: seq<string>)
    requires forall i :: 0 <= i < |rest| ==> !StartsWith(rest[i], "MemTotal:") && !StartsWith(rest[i], "MemAvailable:")
    ensures MemScan(lines + rest) == MemScan(lines)
    decreases |rest|
  {
    if rest == [] {
      assert lines + rest == lines;
    } else {
      assert (lines + rest)[..|lines + rest| - 1] == lines + rest[..|rest| - 1];
      MemScanIgnores(lines, rest[..|rest| - 1]);
    }
  }

  /** A MemTotal line with a second field sets the total; unparsable text counts as 0. */
  lemma MemTotalLine(lines: seq<string>, line: string)
    requires StartsWith(line, "MemTotal:") && |SplitWhitespace(line)| >= 2
    ensures MemScan(lines + [line]).0 == ParseUnsigned(SplitWhitespace(line)[1], U64Max).UnwrapOr(0)
    ensures MemScan(lines + [line]).1 == MemScan(lines).1
  {
    var all := lines + [line];
    assert all[..|all| - 1] == lines && all[|all| - 1] == line;
    assert KbOf(line) == Some(ParseUnsigned(SplitWhitespace(line)[1], U64Max).UnwrapOr(0));
  }

  /** A key line without a second field keeps the previous figure. */
  lemma MemLineWithoutField(lines: seq<string>, line: string)
    requires |SplitWhitespace(line)| < 2
    ensures MemScan(lines + [line]) == MemScan(lines)
  {
    var all := lines + [line];
    assert all[..|all| - 1] == lines && all[|all| - 1] == line;
    assert KbOf(line).None?;
  }
}
