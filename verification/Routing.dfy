// Routing a request to the node of its sandbox: the local DNS table (packages/api/internal/dns/server.go) and the
// host names it is asked for (packages/client-proxy/main.go).
module Routing {
  import opened Prelude

  type SandboxID = string

  // ---- IPv4 addresses as text ---------------------------------------------------------------

  type Octet = n: nat | n < 256

  datatype Address = Address(a: Octet, b: Octet, c: Octet, d: Octet)

  const LOOPBACK := Address(127, 0, 0, 1)

  function Digit(n: nat): char
    requires n < 10
  {
    "0123456789"[n]
  }

  function DigitValue(c: char): Option<nat> {
    if '0' <= c <= '9' then Some(c as nat - '0' as nat) else None
  }

  function FormatOctet(n: Octet): string {
    if n < 10 then [Digit(n)]
    else if n < 100 then [Digit(n / 10), Digit(n % 10)]
    else [Digit(n / 100), Digit(n / 10 % 10), Digit(n % 10)]
  }

  /** A decimal number below 256, without leading zeros. */
  function ParseOctet(s: string): Option<Octet> {
    var value := ParseDigits(s);
    if 1 <= |s| <= 3 && (|s| > 1 ==> s[0] != '0') && value.Some? && value.value < 256 then Some(value.value)
    else None
  }

  function ParseDigits(s: string): Option<nat> {
    if s == "" then Some(0)
    else
      match (ParseDigits(s[..|s| - 1]), DigitValue(s[|s| - 1]))
      case (Some(high), Some(low)) => Some(10 * high + low)
      case _ => None
  }

  function Parse(s: string): Option<Address> {
    var parts := SplitOn(s, '.');
    if |parts| != 4 then None
    else
      match (ParseOctet(parts[0]), ParseOctet(parts[1]), ParseOctet(parts[2]), ParseOctet(parts[3]))
      case (Some(a), Some(b), Some(c), Some(d)) => Some(Address(a, b, c, d))
      case _ => None
  }

  function Format(x: Address): string {
    FormatOctet(x.a) + ['.'] + (FormatOctet(x.b) + ['.'] + (FormatOctet(x.c) + ['.'] + FormatOctet(x.d)))
  }

  lemma DigitRoundTrip(n: nat)
    requires n < 10
    ensures DigitValue(Digit(n)) == Some(n) && Digit(n) != '.' && (n > 0 ==> Digit(n) != '0')
  {
  }

  lemma DigitsPush(s: string, n: nat)
    requires n < 10 && ParseDigits(s).Some?
    ensures ParseDigits(s + [Digit(n)]) == Some(10 * ParseDigits(s).value + n)
  {
    DigitRoundTrip(n);
    assert (s + [Digit(n)])[..|s|] == s;
  }

  lemma OneDigit(n: nat)
    requires n < 10
    ensures ParseDigits([Digit(n)]) == Some(n) && '.' !in [Digit(n)]
  {
    DigitRoundTrip(n);
    DigitsPush("", n);
    assert "" + [Digit(n)] == [Digit(n)];
  }

  lemma TwoDigits(m: nat, n: nat)
    requires m < 10 && n < 10
    ensures ParseDigits([Digit(m), Digit(n)]) == Some(10 * m + n) && '.' !in [Digit(m), Digit(n)]
  {
    OneDigit(m);
    DigitRoundTrip(n);
    DigitsPush([Digit(m)], n);
    assert [Digit(m)] + [Digit(n)] == [Digit(m), Digit(n)];
  }

  lemma ThreeDigits(l: nat, m: nat, n: nat)
    requires l < 10 && m < 10 && n < 10
    ensures ParseDigits([Digit(l), Digit(m), Digit(n)]) == Some(100 * l + 10 * m + n)
    ensures '.' !in [Digit(l), Digit(m), Digit(n)]
  {
    TwoDigits(l, m);
    DigitRoundTrip(n);
    DigitsPush([Digit(l), Digit(m)], n);
    assert [Digit(l), Digit(m)] + [Digit(n)] == [Digit(l), Digit(m), Digit(n)];
  }

  lemma ShortOctet(n: Octet)
    requires n < 10
    ensures ParseOctet([Digit(n)]) == Some(n)
  {
    OneDigit(n);
  }

  lemma MiddleOctet(n: Octet)
    requires 10 <= n < 100
    ensures ParseOctet([Digit(n / 10), Digit(n % 10)]) == Some(n)
  {
    TwoDigits(n / 10, n % 10);
    DigitRoundTrip(n / 10);
  }

  lemma LongOctet(n: Octet)
    requires n >= 100
    ensures ParseOctet([Digit(n / 100), Digit(n / 10 % 10), Digit(n % 10)]) == Some(n)
  {
    ThreeDigits(n / 100, n / 10 % 10, n % 10);
    DigitRoundTrip(n / 100);
    DigitsSum(n);
  }

  lemma DigitsSum(n: nat)
    ensures 100 * (n / 100) + 10 * (n / 10 % 10) + n % 10 == n
  {
    assert n / 100 == n / 10 / 10;
  }

  lemma OctetPlain(n: Octet)
    ensures '.' !in FormatOctet(n)
  {
    DigitRoundTrip(n % 10);
    DigitRoundTrip(n / 10 % 10);
    DigitRoundTrip(if n < 100 then n / 10 % 10 else n / 100);
  }

  lemma OctetRoundTrip(n: Octet)
    ensures ParseOctet(FormatOctet(n)) == Some(n) && '.' !in FormatOctet(n)
  {
    OctetPlain(n);
    if n < 10 {
      ShortOctet(n);
    } else if n < 100 {
      MiddleOctet(n);
    } else {
      LongOctet(n);
    }
  }

  /** Four pieces joined by dots are split again. */
  lemma SplitFour(a: string, b: string, c: string, d: string)
    requires '.' !in a && '.' !in b && '.' !in c && '.' !in d
    ensures SplitOn(a + ['.'] + (b + ['.'] + (c + ['.'] + d)), '.') == [a, b, c, d]
  {
    SplitPlain(c, '.');
    SplitPlain(d, '.');
    SplitConcat(c, d, '.');
    SplitTwo(b, c + ['.'] + d, '.');
    SplitTwo(a, b + ['.'] + (c + ['.'] + d), '.');
  }

  lemma SplitTwo(a: string, rest: string, sep: char)
    requires sep !in a
    ensures SplitOn(a + [sep] + rest, sep) == [a] + SplitOn(rest, sep)
  {
    SplitPlain(a, sep);
    SplitConcat(a, rest, sep);
  }

  /** Every address reads back from its text. */
  lemma AddressRoundTrip(x: Address)
    ensures Parse(Format(x)) == Some(x)
  {
    OctetRoundTrip(x.a);
    OctetRoundTrip(x.b);
    OctetRoundTrip(x.c);
    OctetRoundTrip(x.d);
    SplitFour(FormatOctet(x.a), FormatOctet(x.b), FormatOctet(x.c), FormatOctet(x.d));
  }

  lemma DigitOnly(c: char)
    ensures DigitValue(c).Some? ==> DigitValue(c).value < 10 && c == Digit(DigitValue(c).value)
    ensures DigitValue(c) == Some(0) <==> c == '0'
  {
    if DigitValue(c).Some? {
      DigitRoundTrip(DigitValue(c).value);
    }
  }

  lemma DigitsEnd(s: string)
    requires s != "" && ParseDigits(s).Some?
    ensures var front, last := s[..|s| - 1], s[|s| - 1];
            && ParseDigits(front).Some? && DigitValue(last).Some?
            && ParseDigits(s).value == 10 * ParseDigits(front).value + DigitValue(last).value
  {
  }

  lemma DigitsOf(a: nat, b: nat, c: nat)
    requires a < 10 && b < 10 && c < 10
    ensures var n := 100 * a + 10 * b + c; n / 100 == a && n / 10 % 10 == b && n % 10 == c && (a == 0 ==> n / 10 == b)
  {
    var n := 100 * a + 10 * b + c;
    assert n / 10 == 10 * a + b;
  }

  /** A number's digits, without zeros in front, are its text. */
  lemma FormatDigits(a: nat, b: nat, c: nat)
    requires a < 10 && b < 10 && c < 10 && 100 * a + 10 * b + c < 256
    ensures FormatOctet(100 * a + 10 * b + c) ==
            if a > 0 then [Digit(a), Digit(b), Digit(c)] else if b > 0 then [Digit(b), Digit(c)] else [Digit(c)]
  {
    DigitsOf(a, b, c);
  }

  lemma FirstDigit(s: string)
    requires |s| == 1 && ParseDigits(s).Some?
    ensures DigitValue(s[0]) == Some(ParseDigits(s).value)
    ensures ParseDigits(s).value < 10 && s == [Digit(ParseDigits(s).value)]
  {
    DigitsEnd(s);
    DigitOnly(s[0]);
  }

  lemma MoreDigits(s: string) returns (high: nat, low: nat)
    requires |s| > 1 && ParseDigits(s).Some?
    ensures low < 10 && ParseDigits(s[..|s| - 1]) == Some(high) && ParseDigits(s).value == 10 * high + low
    ensures s == s[..|s| - 1] + [Digit(low)] && (s[0] != '0' <==> s[..|s| - 1][0] != '0')
  {
    DigitsEnd(s);
    DigitOnly(s[|s| - 1]);
    high, low := ParseDigits(s[..|s| - 1]).value, DigitValue(s[|s| - 1]).value;
  }

  lemma ReadsTwo(s: string, n: Octet)
    requires |s| == 2 && ParseDigits(s) == Some(n) && s[0] != '0'
    ensures s == FormatOctet(n)
  {
    var b, c := MoreDigits(s);
    FirstDigit(s[..1]);
    assert s[..1] == [Digit(b)] && s == [Digit(b)] + [Digit(c)];
    DigitRoundTrip(b);
    assert b > 0;
    FormatDigits(0, b, c);
  }

  lemma ReadsThree(s: string, n: Octet)
    requires |s| == 3 && ParseDigits(s) == Some(n) && s[0] != '0'
    ensures s == FormatOctet(n)
  {
    var high, c := MoreDigits(s);
    var a, b := MoreDigits(s[..2]);
    FirstDigit(s[..2][..1]);
    assert s[..2][..1] == [Digit(a)] && s == [Digit(a)] + [Digit(b)] + [Digit(c)];
    assert a > 0;
    FormatDigits(a, b, c);
  }

  /** Only the text it is written as is read as a number below 256. */
  lemma OctetExact(s: string, n: Octet)
    ensures ParseOctet(s) == Some(n) <==> s == FormatOctet(n)
  {
    OctetRoundTrip(n);
    if ParseOctet(s) == Some(n) {
      if |s| == 1 {
        FirstDigit(s);
        FormatDigits(0, 0, n);
      } else if |s| == 2 {
        ReadsTwo(s, n);
      } else {
        ReadsThree(s, n);
      }
    }
  }

  /** Reading an address accepts exactly the texts addresses are written as. */
  lemma ParseExact(s: string, x: Address)
    ensures Parse(s) == Some(x) <==> s == Format(x)
  {
    AddressRoundTrip(x);
    var parts := SplitOn(s, '.');
    if |parts| == 4 {
      OctetExact(parts[0], x.a);
      OctetExact(parts[1], x.b);
      OctetExact(parts[2], x.c);
      OctetExact(parts[3], x.d);
      SplitJoins(s, '.');
      JoinedFour(parts);
    }
  }

  lemma JoinedFour(parts: seq<string>)
    requires |parts| == 4
    ensures Joined(parts, '.') == parts[0] + ['.'] + (parts[1] + ['.'] + (parts[2] + ['.'] + parts[3]))
  {
    assert parts[..3][..2] == parts[..2] && parts[..2][..1] == parts[..1];
    assert Joined(parts[..2], '.') == parts[0] + ['.'] + parts[1];
    assert Joined(parts[..3], '.') == parts[0] + ['.'] + parts[1] + ['.'] + parts[2];
  }

  // ---- The table over every history ---------------------------------------------------------

  /** Adding and removing records; a record is the text of an address. */
  datatype Event = Add(sandbox: SandboxID, ip: string) | Remove(sandbox: SandboxID, ip: string)

  function Apply(records: map<SandboxID, string>, e: Event): map<SandboxID, string> {
    match e
    case Add(sandbox, ip) => records[sandbox := ip]
    case Remove(sandbox, ip) =>
      if sandbox in records && records[sandbox] == ip then records - {sandbox} else records
  }

  function Table(history: seq<Event>): map<SandboxID, string> {
    if history == [] then map[] else Apply(Table(history[..|history| - 1]), history[|history| - 1])
  }

  /** The k-th event adds this record, and no later one adds another for the sandbox or removes this one. */
  ghost predicate StandsSince(history: seq<Event>, k: nat, sandbox: SandboxID, ip: string) {
    && k < |history|
    && history[k] == Add(sandbox, ip)
    && forall j :: k < j < |history| ==> !(history[j].Add? && history[j].sandbox == sandbox) &&
                                         history[j] != Remove(sandbox, ip)
  }

  /** The table holds exactly the last record added for a sandbox, unless it was removed by its own address since:
      a stale removal, naming an older address, erases nothing. */
  lemma {:induction false} TableHoldsLast(history: seq<Event>, sandbox: SandboxID, ip: string)
    ensures (sandbox in Table(history) && Table(history)[sandbox] == ip) <==>
            exists k: nat :: StandsSince(history, k, sandbox, ip)
  {
    if history != [] {
      var n := |history| - 1;
      var front, e := history[..n], history[n];
      TableHoldsLast(front, sandbox, ip);
      forall k: nat | k < n
        ensures StandsSince(history, k, sandbox, ip) <==>
                (StandsSince(front, k, sandbox, ip) && e != Remove(sandbox, ip) && !(e.Add? && e.sandbox == sandbox))
      {
        StandsPush(front, e, k, sandbox, ip);
        assert history == front + [e];
      }
      if e == Add(sandbox, ip) {
        assert StandsSince(history, n, sandbox, ip);
      }
    }
  }

  lemma StandsPush(front: seq<Event>, e: Event, k: nat, sandbox: SandboxID, ip: string)
    requires k < |front|
    ensures StandsSince(front + [e], k, sandbox, ip) <==>
            (StandsSince(front, k, sandbox, ip) && e != Remove(sandbox, ip) && !(e.Add? && e.sandbox == sandbox))
  {
    var history := front + [e];
    assert history[|front|] == e;
    assert forall j :: 0 <= j < |front| ==> history[j] == front[j];
  }

  /** The address given out: the record's, or the loopback when there is none or it is malformed. */
  function Resolve(records: map<SandboxID, string>, sandbox: SandboxID): Address {
    if sandbox !in records then LOOPBACK
    else
      match Parse(records[sandbox])
      case Some(x) => x
      case None => LOOPBACK
  }

  /** A sandbox without a record, or with one that is no address, resolves to 127.0.0.1. */
  lemma UnknownIsLoopback(records: map<SandboxID, string>, sandbox: SandboxID)
    requires sandbox in records ==> forall x :: records[sandbox] != Format(x)
    ensures Resolve(records, sandbox) == Address(127, 0, 0, 1)
  {
    if sandbox in records && Parse(records[sandbox]).Some? {
      ParseExact(records[sandbox], Parse(records[sandbox]).value);
    }
  }

  /** Over any history, a sandbox resolves to an address other than the loopback exactly if that address was the last
      one added for it and has not been removed by itself since. */
  lemma ResolveIsLastAdded(history: seq<Event>, sandbox: SandboxID, x: Address)
    requires x != Address(127, 0, 0, 1)
    ensures Resolve(Table(history), sandbox) == x <==> exists k: nat :: StandsSince(history, k, sandbox, Format(x))
  {
    TableHoldsLast(history, sandbox, Format(x));
    if sandbox in Table(history) {
      ParseExact(Table(history)[sandbox], x);
    }
  }

  // ---- Host names ---------------------------------------------------------------------------

  /** What the proxy asks for, given the host of a request: the second piece between dashes, as a full name. */
  function Question(host: string): Option<string> {
    var pieces := SplitOn(host, '-');
    if |pieces| < 2 then None else Some(pieces[1] + ".")
  }

  function TrimDot(s: string): string {
    if s != "" && s[|s| - 1] == '.' then s[..|s| - 1] else s
  }

  /** The sandbox the server looks up for a name: the first piece between dashes, without a final dot. */
  function Asked(name: string): SandboxID {
    TrimDot(SplitOn(name, '-')[0])
  }

  /** Whatever the host, the server looks up the piece after the first dash. */
  lemma AskedIsSecondPiece(host: string)
    ensures Question(host).Some? <==> |SplitOn(host, '-')| >= 2
    ensures Question(host).Some? ==> Asked(Question(host).value) == SplitOn(host, '-')[1]
  {
    var pieces := SplitOn(host, '-');
    if |pieces| >= 2 {
      SplitNoSeparator(host, '-');
      assert '-' !in pieces[1];
      SplitPlain(pieces[1] + ".", '-');
      assert (pieces[1] + ".")[..|pieces[1]|] == pieces[1];
    }
  }

  lemma SplitFirst(s: string, sep: char)
    ensures SplitOn(s, sep)[0] == s <==> sep !in s
  {
    SplitNoSeparator(s, sep);
    if sep !in s {
      SplitPlain(s, sep);
    }
  }

  /** A host of a port, a sandbox and a client reaches that sandbox exactly if its ID has no dash. */
  lemma HostRoundTrip(port: string, sandbox: SandboxID, client: string)
    requires '-' !in port
    ensures var host := port + ['-'] + (sandbox + ['-'] + client);
            && Question(host).Some? && (Asked(Question(host).value) == sandbox <==> '-' !in sandbox)
            && ('-' !in sandbox ==> Question(host) == Some(sandbox + "."))
  {
    var host := port + ['-'] + (sandbox + ['-'] + client);
    SplitConcat(port, sandbox + ['-'] + client, '-');
    SplitConcat(sandbox, client, '-');
    SplitPlain(port, '-');
    AskedIsSecondPiece(host);
    assert SplitOn(host, '-')[1] == SplitOn(sandbox, '-')[0];
    SplitFirst(sandbox, '-');
    if '-' !in sandbox {
      SplitPlain(sandbox, '-');
    }
  }

  const ALPHABET := "abcdefghijklmnopqrstuvwxyz1234567890"

  /** Every string over the alphabet of generated IDs makes the round trip. */
  lemma GeneratedRoundTrip(port: string, sandbox: SandboxID, client: string)
    requires '-' !in port && forall c :: c in sandbox ==> c in ALPHABET
    ensures var host := port + ['-'] + (sandbox + ['-'] + client);
            Question(host).Some? && Asked(Question(host).value) == sandbox
  {
    HostRoundTrip(port, sandbox, client);
    assert '-' !in ALPHABET;
  }

  // ---- The server ---------------------------------------------------------------------------

  const TYPE_A: nat := 1

  datatype Query = Query(name: string, qtype: nat)

  const CLASS_INET: nat := 1

  datatype Record = Record(name: string, rtype: nat, rclass: nat, ttl: nat, address: Address)

  /** The questions for an address, in order. */
  function AddressQuestions(questions: seq<Query>): seq<Query> {
    if questions == [] then []
    else
      AddressQuestions(questions[..|questions| - 1]) +
      if questions[|questions| - 1].qtype == TYPE_A then [questions[|questions| - 1]] else []
  }

  /** They are the questions of type 1, in the order asked. */
  lemma {:induction false} AddressQuestionsRead(questions: seq<Query>) returns (at: seq<nat>)
    ensures ReadsOff(AddressQuestions(questions), questions, at)
    ensures forall i: nat :: i in at <==> i < |questions| && questions[i].qtype == 1
  {
    if questions == [] {
      at := [];
    } else {
      var front, last := questions[..|questions| - 1], questions[|questions| - 1];
      at := AddressQuestionsRead(front);
      ReadsOffPush(AddressQuestions(front), front, at, last);
      assert questions == front + [last];
      if last.qtype == 1 {
        at := at + [|front|];
      } else {
        assert AddressQuestions(questions) == AddressQuestions(front);
      }
    }
  }

  /** An address record of the internet class, not to be kept by anyone. */
  ghost predicate Answers(answer: Record, question: Query, records: map<SandboxID, string>) {
    && answer.name == question.name
    && answer.rtype == 1 && answer.rclass == 1 && answer.ttl == 0
    && answer.address == Resolve(records, Asked(question.name))
  }

  /** The table without a remote cache. */
  class DNS {
    var records: map<SandboxID, string>
    ghost var history: seq<Event>

    ghost predicate Valid()
      reads this
    {
      records == Table(history)
    }

    constructor ()
      ensures Valid() && history == []
    {
      records, history := map[], [];
    }

    method Add(sandbox: SandboxID, ip: string)
      requires Valid()
      modifies this
      ensures Valid() && history == old(history) + [Event.Add(sandbox, ip)]
    {
      records := records[sandbox := ip];
      history := history + [Event.Add(sandbox, ip)];
    }

    /** The record goes only if it still holds the address named. */
    method Remove(sandbox: SandboxID, ip: string)
      requires Valid()
      modifies this
      ensures Valid() && history == old(history) + [Event.Remove(sandbox, ip)]
    {
      if sandbox in records && records[sandbox] == ip {
        records := records - {sandbox};
      }
      history := history + [Event.Remove(sandbox, ip)];
    }

    method Get(sandbox: SandboxID) returns (x: Address)
      requires Valid()
      ensures x == Resolve(Table(history), sandbox)
    {
      var text := "";
      if sandbox in records {
        text := records[sandbox];
      }
      var parsed := Parse(text);
      if parsed.None? {
        assert |SplitOn("", '.')| == 1;
        return LOOPBACK;
      }
      return parsed.value;
    }

    /** One answer for each address question of the reply, in the order of the questions. */
    method HandleRequest(questions: seq<Query>) returns (answers: seq<Record>)
      requires Valid()
      ensures |answers| == |AddressQuestions(questions)|
      ensures forall k :: 0 <= k < |answers| ==> Answers(answers[k], AddressQuestions(questions)[k], Table(history))
    {
      answers := [];
      for i := 0 to |questions|
        invariant |answers| == |AddressQuestions(questions[..i])|
        invariant forall k :: 0 <= k < |answers| ==>
          Answers(answers[k], AddressQuestions(questions[..i])[k], Table(history))
      {
        assert questions[..i + 1][..i] == questions[..i];
        if questions[i].qtype == TYPE_A {
          var first := SplitOn(questions[i].name, '-')[0];
          var x := Get(TrimDot(first));
          answers := answers + [Record(questions[i].name, TYPE_A, CLASS_INET, 0, x)];
        }
      }
      assert questions[..|questions|] == questions;
    }
  }

  /** End to end: the answer for a generated sandbox's host is the address last added for it and not removed since,
      whatever was added or removed for others. */
  lemma ReachesNode(history: seq<Event>, port: string, sandbox: SandboxID, client: string, x: Address, k: nat)
    requires '-' !in port && forall c :: c in sandbox ==> c in ALPHABET
    requires StandsSince(history, k, sandbox, Format(x))
    ensures var host := port + ['-'] + (sandbox + ['-'] + client);
            Question(host).Some? && Resolve(Table(history), Asked(Question(host).value)) == x
  {
    GeneratedRoundTrip(port, sandbox, client);
    TableHoldsLast(history, sandbox, Format(x));
    AddressRoundTrip(x);
  }
}
