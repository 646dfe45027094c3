/**
 * Seven-digit connection ids (`IdGenerator`): random draws in
 * [1_000_000, 10_000_000) retried until one is not in use (at most 1000
 * draws), their decimal rendering, the lenient parser and the strict
 * format check, and the id-to-session table. The random generator is the
 * sequence of values it would return.
 */
module IdGenerator {
  import opened Text

  const MaxAttempts: nat := 1000
  const MinId: nat := 1_000_000
  const IdLimit: nat := 10_000_000
  const U32Max: nat := 0xFFFF_FFFF

  datatype ConnectionId = ConnectionId(id: string, numericId: nat, formattedId: string)

  predicate InIdRange(n: nat) { MinId <= n < IdLimit }

  /** The first draw that is not already used, if any. */
  function FirstUnused(used: set<nat>, draws: seq<nat>): (r: Option<nat>)
    ensures r.None? <==> forall i :: 0 <= i < |draws| ==> draws[i] in used
    ensures r.Some? ==> exists i :: 0 <= i < |draws| && draws[i] == r.value && r.value !in used
                                    && forall j :: 0 <= j < i ==> draws[j] in used
  {
    if draws == [] then None
    else if draws[0] !in used then Some(draws[0])
    else
      var rest := FirstUnused(used, draws[1..]);
      if rest.Some? then
        var i :| 0 <= i < |draws[1..]| && draws[1..][i] == rest.value && rest.value !in used
                 && forall j :: 0 <= j < i ==> draws[1..][j] in used;
        assert draws[i + 1] == rest.value;
        rest
      else rest
  }

  /** The retry loop of generate_connection_id over the random draws. */
  method DrawUnused(used: set<nat>, draws: seq<nat>) returns (r: Option<nat>)
    requires |draws| >= MaxAttempts
    ensures r == FirstUnused(used, draws[..MaxAttempts])
  {
    var attempts := 0;
    while attempts < MaxAttempts
      invariant attempts <= MaxAttempts
      invariant forall j :: 0 <= j < attempts ==> draws[j] in used
      invariant FirstUnused(used, draws[..MaxAttempts]) == FirstUnused(used, draws[attempts..MaxAttempts])
    {
      var candidate := draws[attempts];
      assert draws[attempts..MaxAttempts][1..] == draws[attempts + 1..MaxAttempts];
      if candidate !in used {
        return Some(candidate);
      }
      attempts := attempts + 1;
    }
    return None;
  }

  /** The id a number is issued as: its decimal, both as id and as formatted id. */
  function IssuedId(n: nat): (c: ConnectionId)
    ensures c.numericId == n && c.id == c.formattedId
    ensures AllDigits(c.formattedId) && DigitsValue(c.formattedId) == n
  {
    NatToStringValue(n);
    ConnectionId(NatToString(n), n, NatToString(n))
  }

  /** The text the parser and the format check look at: spaces and dashes removed. */
  function Cleaned(s: string): (r: string)
    ensures ' ' !in r && '-' !in r
    ensures forall c :: c in r <==> c in s && c != ' ' && c != '-'
  {
    RemoveCharMembers(s, ' ');
    RemoveCharMembers(RemoveChar(s, ' '), '-');
    RemoveChar(RemoveChar(s, ' '), '-')
  }

  /** parse_connection_id: seven bytes after cleaning, then a u32 parse (which admits a leading '+'). */
  function ParseConnectionId(s: string): (r: Result<nat>)
    ensures r.Ok? ==> Utf8Len(Cleaned(s)) == 7 && r.value <= U32Max
    ensures r.Ok? ==> ParseUnsigned(Cleaned(s), U32Max) == Some(r.value)
    ensures Utf8Len(Cleaned(s)) != 7 ==>
      r == Err("Invalid ID format. Expected 7 digits, got " + NatToString(Utf8Len(Cleaned(s))))
  {
    var cleaned := Cleaned(s);
    if Utf8Len(cleaned) != 7 then Err("Invalid ID format. Expected 7 digits, got " + NatToString(Utf8Len(cleaned)))
    else match ParseUnsigned(cleaned, U32Max)
      case None => Err("Failed to parse ID: invalid digit found in string")
      case Some(v) => Ok(v)
  }

  /** validate_id_format: seven bytes after cleaning, all ASCII digits. */
  predicate ValidateIdFormat(s: string)
  {
    Utf8Len(Cleaned(s)) == 7 && AllDigits(Cleaned(s))
  }

  // ----------------------------------------------------------- properties

  /** Every issued number renders as seven digits that pass the check and parse back. */
  lemma IssuedIdRoundTrip(n: nat)
    requires InIdRange(n)
    ensures |IssuedId(n).formattedId| == 7
    ensures ValidateIdFormat(IssuedId(n).formattedId)
    ensures ParseConnectionId(IssuedId(n).formattedId) == Ok(n)
  {
    var s := NatToString(n);
    Pow10Values();
    NatToStringLength(n, 7);
    RemoveAbsentChar(s, ' ');
    RemoveAbsentChar(s, '-');
    DigitsUtf8Len(s);
    NatToStringValue(n);
  }

  /** An id that passes the format check always parses, to its digits' value. */
  lemma ValidParses(s: string)
    requires ValidateIdFormat(s)
    ensures ParseConnectionId(s) == Ok(DigitsValue(Cleaned(s)))
  {
    var c := Cleaned(s);
    DigitsUtf8Len(c);
    DigitsBound(c);
    Pow10Values();
  }

  lemma {:induction false} DigitsBound(s: string)
    requires AllDigits(s)
    ensures DigitsValue(s) < Pow10(|s|)
    decreases |s|
  {
    if s != [] { DigitsBound(s[..|s| - 1]); }
  }

  /** The parser is laxer than the check: a '+' before six digits parses but is not a valid id. */
  lemma SignedIdParsesButFailsCheck(d: string)
    requires AllDigits(d) && |d| == 6
    ensures ParseConnectionId(['+'] + d) == Ok(DigitsValue(d))
    ensures !ValidateIdFormat(['+'] + d)
  {
    var s := ['+'] + d;
    assert ' ' !in s && '-' !in s;
    RemoveAbsentChar(s, ' ');
    RemoveAbsentChar(s, '-');
    assert s[1..] == d;
    DigitsUtf8Len(d);
    DigitsBound(d);
    assert Pow10(6) == 1_000_000 by { Pow10Values(); }
    assert !IsDigit(s[0]);
  }

  /** Spaces and dashes anywhere are ignored by both the parser and the format check. */
  lemma SeparatorIgnored(a: string, b: string, sep: char)
    requires sep == ' ' || sep == '-'
    ensures Cleaned(a + [sep] + b) == Cleaned(a + b)
  {
    var tail := [sep] + b;
    assert a + [sep] + b == a + tail;
    CleanedSplits(a, tail);
    CleanedSplits([sep], b);
    CleanedSplits(a, b);
    SeparatorCleaned(sep);
    calc {
      Cleaned(a + tail);
      Cleaned(a) + Cleaned(tail);
      Cleaned(a) + ([] + Cleaned(b));
      { assert [] + Cleaned(b) == Cleaned(b); }
      Cleaned(a + b);
    }
  }

  lemma SeparatorCleaned(sep: char)
    requires sep == ' ' || sep == '-'
    ensures Cleaned([sep]) == []
  {
    var s1 := RemoveChar([sep], ' ');
    assert [sep][1..] == [];
    assert RemoveChar([sep][1..], ' ') == [];
    if sep == ' ' {
      assert s1 == [];
    } else {
      assert s1 == ['-'];
      assert RemoveChar(['-'][1..], '-') == [];
    }
  }

  /** Hence inserting a separator changes neither the parse nor the format check. */
  lemma SeparatorIgnoredByParser(a: string, b: string, sep: char)
    requires sep == ' ' || sep == '-'
    ensures ParseConnectionId(a + [sep] + b) == ParseConnectionId(a + b)
    ensures ValidateIdFormat(a + [sep] + b) == ValidateIdFormat(a + b)
  {
    SeparatorIgnored(a, b, sep);
  }

  lemma CleanedSplits(a: string, b: string)
    ensures Cleaned(a + b) == Cleaned(a) + Cleaned(b)
  {
    RemoveCharAppend(a, b, ' ');
    RemoveCharAppend(RemoveChar(a, ' '), RemoveChar(b, ' '), '-');
  }

  lemma Pow10Values()
    ensures Pow10(6) == 1_000_000 && Pow10(7) == 10_000_000
  {
    assert Pow10(1) == 10;
    assert Pow10(2) == 100;
    assert Pow10(3) == 1000;
    assert Pow10(4) == 10_000;
    assert Pow10(5) == 100_000;
  }

  // ------------------------------------------------------------- generator

  class IdGenerator {
    /** Keys of used_ids (its values are always true). */
    var usedIds: set<nat>
    var idToSession: map<string, string>

    constructor ()
      ensures usedIds == {} && idToSession == map[]
    {
      usedIds := {};
      idToSession := map[];
    }

    /**
     * generate_connection_id; `draws` is what the random generator
     * returns, each in [1_000_000, 10_000_000).
     */
    method GenerateConnectionId(draws: seq<nat>) returns (r: Result<ConnectionId>)
      requires |draws| >= MaxAttempts
      requires forall i :: 0 <= i < |draws| ==> InIdRange(draws[i])
      modifies this
      ensures idToSession == old(idToSession)
      ensures r.Err? <==> forall i :: 0 <= i < MaxAttempts ==> draws[i] in old(usedIds)
      ensures r.Err? ==> r.error == "Failed to generate unique ID after 1000 attempts" && usedIds == old(usedIds)
      ensures r.Ok? ==> r.value.numericId !in old(usedIds) && InIdRange(r.value.numericId)
                        && r.value == IssuedId(r.value.numericId)
                        && usedIds == old(usedIds) + {r.value.numericId}
                        && Some(r.value.numericId) == FirstUnused(old(usedIds), draws[..MaxAttempts])
    {
      var found := DrawUnused(usedIds, draws);
      if found.None? {
        return Err("Failed to generate unique ID after 1000 attempts");
      }
      var n := found.value;
      usedIds := usedIds + {n};
      r := Ok(IssuedId(n));
    }

    /** register_session: overwrites any previous session of the id. */
    method RegisterSession(c: ConnectionId, sessionId: string) returns (r: Result<()>)
      modifies this
      ensures r.Ok? && usedIds == old(usedIds)
      ensures idToSession == old(idToSession)[c.formattedId := sessionId]
    {
      idToSession := idToSession[c.formattedId := sessionId];
      r := Ok(());
    }

    method GetSessionById(formattedId: string) returns (r: Option<string>)
      ensures r.Some? <==> formattedId in idToSession
      ensures r.Some? ==> r.value == idToSession[formattedId]
    {
      if formattedId in idToSession {
        r := Some(idToSession[formattedId]);
      } else {
        r := None;
      }
    }

    /** release_id: the number becomes available again and its session is forgotten. */
    method ReleaseId(c: ConnectionId) returns (r: Result<()>)
      modifies this
      ensures r.Ok?
      ensures usedIds == old(usedIds) - {c.numericId}
      ensures idToSession == old(idToSession) - {c.formattedId}
    {
      usedIds := usedIds - {c.numericId};
      idToSession := idToSession - {c.formattedId};
      r := Ok(());
    }

    method GetActiveIds() returns (r: seq<nat>)
      ensures |r| == |usedIds|
      ensures forall n :: n in r <==> n in usedIds
    {
      r := SetElements(usedIds);
    }

    method IsIdInUse(n: nat) returns (b: bool)
      ensures b <==> n in usedIds
    {
      b := n in usedIds;
    }
  }

  /** Two ids generated one after the other differ (the unique-generation test). */
  method TwoIdsDiffer(g: IdGenerator, first: seq<nat>, second: seq<nat>) returns (a: Result<ConnectionId>, b: Result<ConnectionId>)
    requires |first| >= MaxAttempts && |second| >= MaxAttempts
    requires forall i :: 0 <= i < |first| ==> InIdRange(first[i])
    requires forall i :: 0 <= i < |second| ==> InIdRange(second[i])
    modifies g
    ensures a.Ok? && b.Ok? ==> a.value.numericId != b.value.numericId && a.value.formattedId != b.value.formattedId
  {
    a := g.GenerateConnectionId(first);
    b := g.GenerateConnectionId(second);
    if a.Ok? && b.Ok? {
      NatToStringValue(a.value.numericId);
      NatToStringValue(b.value.numericId);
    }
  }
}
