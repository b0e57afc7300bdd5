/** The engagement ledger's chain format: what a written record is, and the offline verifier.
  *
  * A field is held as a text that stands for the JSON value it is written back as, or for its absence.
  * Texts of lines and files are UTF-8, one character here for each byte.  The encoding and the hash are
  * parameters: `Faithful` says what is assumed of the encoding, `CollisionFree` of the hash where needed.
  */
module EngagementChain {
  import opened Options

  function Zeros(n: nat): string {
    if n == 0 then "" else Zeros(n - 1) + "0"
  }

  const GENESIS := Zeros(64)
  const OPENED := "engagement.opened"
  const CLOSED := "engagement.closed"

  datatype Body = Body(seqNo: int, at: string, kind: string, data: string)

  datatype Record = Record(body: Body, prev: string, hash: string)

  /** What a line is: no JSON, the value `null`, a value without an integer `seq`, or one with it. */
  datatype Json = Invalid | Null | Other | Whole(record: Record)

  datatype Format = Format(
    hash: (string, Body) -> string,
    encode: Record -> string,
    parse: string -> Json)

  /** Encoded records parse back to themselves and hold no line break. */
  ghost predicate Faithful(f: Format) {
    forall r: Record :: f.parse(f.encode(r)) == Whole(r) && '\n' !in f.encode(r)
  }

  ghost predicate CollisionFree(f: Format) {
    forall p, q: string, a, b: Body :: f.hash(p, a) == f.hash(q, b) ==> p == q && a == b
  }

  // --- A chain, stated record by record ----------------------------------------------------

  function PrevOf(records: seq<Record>, i: nat): string
    requires i <= |records|
  {
    if i == 0 then GENESIS else records[i - 1].hash
  }

  /** Record `i` has sequence number `i`, links to its predecessor, and carries its own hash. */
  predicate Links(f: Format, records: seq<Record>, i: nat)
    requires i < |records|
  {
    && records[i].body.seqNo == i
    && records[i].prev == PrevOf(records, i)
    && records[i].hash == f.hash(records[i].prev, records[i].body)
  }

  predicate Chained(f: Format, records: seq<Record>) {
    forall i :: 0 <= i < |records| ==> Links(f, records, i)
  }

  /** A ledger: a chain that opens with the opening record and holds no record after a closing one. */
  predicate WellFormedLedger(f: Format, records: seq<Record>) {
    && Chained(f, records)
    && |records| > 0
    && records[0].body.kind == OPENED
    && forall i :: 0 <= i < |records| - 1 ==> records[i].body.kind != CLOSED
  }

  lemma ChainedPrefix(f: Format, records: seq<Record>, n: nat)
    requires Chained(f, records) && n <= |records|
    ensures Chained(f, records[..n])
  {
    assert forall i :: 0 <= i < n ==> Links(f, records, i) ==> Links(f, records[..n], i);
  }

  lemma ChainedExtends(f: Format, records: seq<Record>, r: Record)
    requires Chained(f, records)
    requires r.body.seqNo == |records| && r.prev == PrevOf(records, |records|) && r.hash == f.hash(r.prev, r.body)
    ensures Chained(f, records + [r])
  {
    var longer := records + [r];
    forall i | 0 <= i < |longer|
      ensures Links(f, longer, i)
    {
      if i < |records| { assert Links(f, records, i); }
    }
  }

  /** With a collision-free hash, the last hash fixes the whole chain, its length included. */
  lemma {:induction false} LastHashFixesChain(f: Format, a: seq<Record>, b: seq<Record>)
    requires CollisionFree(f)
    requires Chained(f, a) && Chained(f, b)
    requires |a| > 0 && |b| > 0 && a[|a| - 1].hash == b[|b| - 1].hash
    ensures a == b
    decreases |a|
  {
    var m, n := |a| - 1, |b| - 1;
    assert Links(f, a, m) && Links(f, b, n);
    assert a[m].prev == b[n].prev && a[m].body == b[n].body;
    assert m == n;
    if m == 0 {
      assert a == [a[0]] && b == [b[0]];
    } else {
      ChainedPrefix(f, a, m);
      ChainedPrefix(f, b, m);
      LastHashFixesChain(f, a[..m], b[..m]);
      assert a == a[..m] + [a[m]] && b == b[..m] + [b[m]];
    }
  }

  // --- Lines of a text ------------------------------------------------------------------------

  /** The text of the records, one line each. */
  function Text(f: Format, records: seq<Record>): string {
    if records == [] then ""
    else f.encode(records[0]) + "\n" + Text(f, records[1..])
  }

  lemma {:induction false} TextOfConcat(f: Format, a: seq<Record>, b: seq<Record>)
    ensures Text(f, a + b) == Text(f, a) + Text(f, b)
  {
    if a == [] {
      assert a + b == b;
    } else {
      assert (a + b)[1..] == a[1..] + b;
      TextOfConcat(f, a[1..], b);
    }
  }

  lemma TextOfPrefix(f: Format, records: seq<Record>, n: nat)
    requires n <= |records|
    ensures Text(f, records[..n]) <= Text(f, records)
  {
    TextOfConcat(f, records[..n], records[n..]);
    assert records[..n] + records[n..] == records;
  }

  lemma TextOfNext(f: Format, records: seq<Record>, n: nat)
    requires n < |records|
    ensures Text(f, records[..n + 1]) == Text(f, records[..n]) + (f.encode(records[n]) + "\n")
  {
    TextOfConcat(f, records[..n], [records[n]]);
    assert records[..n] + [records[n]] == records[..n + 1];
    assert [records[n]][1..] == [];
    assert Text(f, [records[n]]) == f.encode(records[n]) + "\n" + Text(f, []);
  }

  /** Everything up to the first line break, or the whole text. */
  function FirstBreak(text: string): (n: nat)
    ensures n <= |text|
  {
    if text == "" || text[0] == '\n' then 0 else 1 + FirstBreak(text[1..])
  }

  /** Splitting at line breaks; the empty piece after a final line break is dropped. */
  function Lines(text: string): seq<string>
    decreases |text|
  {
    var n := FirstBreak(text);
    if n == |text| then (if text == "" then [] else [text])
    else [text[..n]] + Lines(text[n + 1..])
  }

  function Encoded(f: Format, records: seq<Record>): seq<string> {
    if records == [] then [] else [f.encode(records[0])] + Encoded(f, records[1..])
  }

  lemma {:induction false} FirstBreakAfter(line: string, rest: string)
    requires '\n' !in line
    ensures FirstBreak(line + "\n" + rest) == |line|
  {
    var text := line + "\n" + rest;
    if line == "" {
      assert text[0] == '\n';
    } else {
      assert text[0] == line[0];
      assert text[1..] == line[1..] + "\n" + rest;
      FirstBreakAfter(line[1..], rest);
    }
  }

  lemma {:induction false} LinesOfText(f: Format, records: seq<Record>)
    requires Faithful(f)
    ensures Lines(Text(f, records)) == Encoded(f, records)
  {
    if records != [] {
      var line, rest := f.encode(records[0]), Text(f, records[1..]);
      assert f.parse(line) == Whole(records[0]);
      FirstBreakAfter(line, rest);
      var text := line + "\n" + rest;
      assert text[..|line|] == line && text[|line| + 1..] == rest;
      LinesOfText(f, records[1..]);
    }
  }

  lemma {:induction false} EncodedAt(f: Format, records: seq<Record>, i: nat)
    requires i < |records|
    ensures |Encoded(f, records)| == |records| && Encoded(f, records)[i] == f.encode(records[i])
  {
    if i > 0 {
      EncodedAt(f, records[1..], i - 1);
    } else if |records| > 1 {
      EncodedAt(f, records[1..], 0);
    }
  }

  // --- The verifier ----------------------------------------------------------------------------

  datatype Fault =
    | NotJson | AfterClosed | SequenceBreak | ChainBreak | MissingOpened | HashMismatch | NotCanonical | Empty

  /** `Threw`: reading a field of `null` throws a TypeError out of the verifier, and no line is named. */
  datatype Verdict = Good(records: nat, closed: bool) | Bad(seqNo: nat, fault: Fault) | Threw(at: nat)

  /** How line `i` is taken, given what the lines before it established. */
  datatype Taking = Continues | Faulty(fault: Fault) | Throws

  function Take(f: Format, line: string, i: nat, prev: string, closed: bool): Taking {
    match f.parse(line)
    case Invalid => Faulty(NotJson)
    case json =>
      if closed then Faulty(AfterClosed)
      else
        match json
        case Null => Throws
        case Whole(r) =>
          if r.body.seqNo != i then Faulty(SequenceBreak)
          else if r.prev != prev then Faulty(ChainBreak)
          else if i == 0 && r.body.kind != OPENED then Faulty(MissingOpened)
          else if r.hash != f.hash(prev, r.body) then Faulty(HashMismatch)
          else if line != f.encode(r) then Faulty(NotCanonical)
          else Continues
        case _ => Faulty(SequenceBreak)
  }

  /** The lines so far are the canonical lines of a well-formed ledger. */
  ghost predicate Verified(f: Format, lines: seq<string>, records: seq<Record>) {
    && |lines| == |records|
    && (forall i :: 0 <= i < |lines| ==> lines[i] == f.encode(records[i]))
    && (records != [] ==> WellFormedLedger(f, records))
  }

  predicate EndsClosed(records: seq<Record>) {
    records != [] && records[|records| - 1].body.kind == CLOSED
  }

  /** The first line that does not continue a well-formed ledger, after `records`, and how it is taken. */
  ghost predicate StopsAt(f: Format, lines: seq<string>, records: seq<Record>, at: nat, how: Taking) {
    && at < |lines|
    && Verified(f, lines[..at], records)
    && !how.Continues?
    && Take(f, lines[at], at, PrevOf(records, at), EndsClosed(records)) == how
  }

  /** The first line that does not continue the ledger is `null`, and no closing record precedes it. */
  ghost predicate NullStops(f: Format, lines: seq<string>) {
    exists at: nat, records: seq<Record> ::
      && at < |lines| && Verified(f, lines[..at], records)
      && !EndsClosed(records) && f.parse(lines[at]).Null?
  }

  /** Accepts exactly the canonical lines of a well-formed ledger; otherwise names the first line that does
    * not continue one, except that it throws exactly when that line is `null` in a ledger not closed. */
  method Verify(f: Format, text: string) returns (verdict: Verdict, ghost records: seq<Record>)
    requires Faithful(f)
    ensures verdict.Good? ==>
              && Verified(f, Lines(text), records)
              && verdict.records == |records| > 0
              && (verdict.closed <==> EndsClosed(records))
    ensures text == "" ==> verdict == Bad(0, Empty)
    ensures verdict.Bad? && text != "" ==>
              StopsAt(f, Lines(text), records, verdict.seqNo, Faulty(verdict.fault))
    ensures verdict.Threw? ==> StopsAt(f, Lines(text), records, verdict.at, Throws)
    ensures verdict.Threw? <==> NullStops(f, Lines(text))
    ensures !verdict.Good? && text != "" ==> forall longer: seq<Record> :: !Verified(f, Lines(text), longer)
  {
    var lines := Lines(text);
    var prev, closed := GENESIS, false;
    records := [];
    var i := 0;
    while i < |lines|
      invariant i <= |lines|
      invariant Verified(f, lines[..i], records)
      invariant prev == PrevOf(records, i)
      invariant closed <==> EndsClosed(records)
    {
      var how := Take(f, lines[i], i, prev, closed);
      if !how.Continues? {
        NoLedgerContinues(f, lines, records, i);
        ThrowsOrNot(f, lines, records, i, how);
        verdict := if how.Throws? then Threw(i) else Bad(i, how.fault);
        return;
      }
      VerifiedExtends(f, lines, records, i);
      var r := f.parse(lines[i]).record;
      records := records + [r];
      prev := r.hash;
      closed := r.body.kind == CLOSED;
      i := i + 1;
    }
    assert lines[..i] == lines;
    NoNullAmongGood(f, lines, records);
    if |lines| == 0 { return Bad(0, Empty), records; }
    return Good(|lines|, closed), records;
  }

  /** A line without a fault continues the ledger. */
  lemma VerifiedExtends(f: Format, lines: seq<string>, records: seq<Record>, i: nat)
    requires Faithful(f) && i < |lines| && Verified(f, lines[..i], records)
    requires Take(f, lines[i], i, PrevOf(records, i), EndsClosed(records)).Continues?
    ensures f.parse(lines[i]).Whole? && Verified(f, lines[..i + 1], records + [f.parse(lines[i]).record])
    ensures PrevOf(records + [f.parse(lines[i]).record], i + 1) == f.parse(lines[i]).record.hash
  {
    ChainedExtends(f, records, f.parse(lines[i]).record);
    assert lines[..i + 1] == lines[..i] + [lines[i]];
  }

  /** If line `i` does not continue after `i` good lines, no well-formed ledger has these lines. */
  lemma NoLedgerContinues(f: Format, lines: seq<string>, records: seq<Record>, i: nat)
    requires Faithful(f) && i < |lines|
    requires Verified(f, lines[..i], records)
    requires !Take(f, lines[i], i, PrevOf(records, i), EndsClosed(records)).Continues?
    ensures forall longer: seq<Record> :: !Verified(f, lines, longer)
  {
    forall longer: seq<Record>
      ensures !Verified(f, lines, longer)
    {
      if Verified(f, lines, longer) {
        GoodLineContinues(f, lines, records, longer, i);
      }
    }
  }

  /** Good lines are those of one ledger only. */
  lemma SameRecords(f: Format, lines: seq<string>, records: seq<Record>, longer: seq<Record>, i: nat)
    requires Faithful(f) && i <= |lines|
    requires Verified(f, lines[..i], records) && Verified(f, lines, longer)
    ensures longer[..i] == records
  {
    forall j | 0 <= j < i
      ensures longer[j] == records[j]
    {
      assert lines[j] == lines[..i][j];
      assert f.parse(f.encode(longer[j])) == Whole(longer[j]);
      assert f.parse(f.encode(records[j])) == Whole(records[j]);
    }
  }

  lemma GoodLineContinues(f: Format, lines: seq<string>, records: seq<Record>, longer: seq<Record>, i: nat)
    requires Faithful(f) && i < |lines|
    requires Verified(f, lines[..i], records) && Verified(f, lines, longer)
    ensures Take(f, lines[i], i, PrevOf(records, i), EndsClosed(records)).Continues?
    ensures f.parse(lines[i]).Whole?
  {
    SameRecords(f, lines, records, longer, i);
    assert forall j :: 0 <= j < i ==> longer[j] == longer[..i][j];
    assert f.parse(f.encode(longer[i])) == Whole(longer[i]);
    assert Links(f, longer, i);
  }

  lemma NoNullAmongGood(f: Format, lines: seq<string>, records: seq<Record>)
    requires Faithful(f) && Verified(f, lines, records)
    ensures !NullStops(f, lines)
  {
    forall at: nat, rs: seq<Record> | at < |lines| && Verified(f, lines[..at], rs)
      ensures !f.parse(lines[at]).Null?
    {
      GoodLineContinues(f, lines, rs, records, at);
    }
  }

  /** The line the verifier stops at decides whether it throws. */
  lemma ThrowsOrNot(f: Format, lines: seq<string>, records: seq<Record>, i: nat, how: Taking)
    requires Faithful(f) && StopsAt(f, lines, records, i, how)
    ensures how.Throws? <==> NullStops(f, lines)
  {
    forall at: nat, rs: seq<Record> | at < |lines| && Verified(f, lines[..at], rs)
      ensures at < i ==> !f.parse(lines[at]).Null?
      ensures at == i ==> rs == records
      ensures at <= i
    {
      if at < i {
        assert lines[..i][..at] == lines[..at];
        GoodLineContinues(f, lines[..i], rs, records, at);
      } else if at > i {
        assert lines[..at][..i] == lines[..i];
        GoodLineContinues(f, lines[..at], records, rs, i);
        assert false;
      } else {
        SameRecords(f, lines[..i], rs, records, i);
      }
    }
  }

  /** A line that is `null` after a ledger makes the verifier throw exactly when the ledger is not closed; the
    * text `null` alone does, too. */
  lemma NullLineThrows(f: Format, records: seq<Record>)
    requires Faithful(f) && f.parse("null") == Null && (records == [] || WellFormedLedger(f, records))
    ensures NullStops(f, Lines(Text(f, records) + "null")) <==> !EndsClosed(records)
    ensures records == [] ==> Text(f, records) + "null" == "null"
  {
    LinesBeforeTail(f, records, "null");
    var lines := Lines(Text(f, records) + "null");
    forall i | 0 <= i < |records| ensures Encoded(f, records)[i] == f.encode(records[i]) { EncodedAt(f, records, i); }
    if records != [] { EncodedAt(f, records, 0); }
    assert Verified(f, lines[..|records|], records);
    var how := Take(f, lines[|records|], |records|, PrevOf(records, |records|), EndsClosed(records));
    ThrowsOrNot(f, lines, records, |records|, how);
  }

  lemma {:induction false} LinesBeforeTail(f: Format, records: seq<Record>, tail: string)
    requires Faithful(f) && '\n' !in tail && tail != ""
    ensures var lines := Lines(Text(f, records) + tail);
      |lines| == |records| + 1 && lines[..|records|] == Encoded(f, records) && lines[|records|] == tail
  {
    if records == [] {
      NoBreakIn(tail);
      assert Text(f, records) + tail == tail;
    } else {
      var line, rest := f.encode(records[0]), Text(f, records[1..]) + tail;
      assert f.parse(line) == Whole(records[0]);
      FirstBreakAfter(line, rest);
      var text := line + "\n" + rest;
      assert Text(f, records) + tail == text;
      assert text[..|line|] == line && text[|line| + 1..] == rest;
      LinesBeforeTail(f, records[1..], tail);
      EncodedAt(f, records, 0);
    }
  }

  lemma {:induction false} NoBreakIn(line: string)
    requires '\n' !in line
    ensures FirstBreak(line) == |line|
  {
    if line != "" { NoBreakIn(line[1..]); }
  }

  // --- Round trip and tamper evidence --------------------------------------------------------------

  /** The text of a well-formed ledger verifies, with the right count and closing. */
  lemma LedgerTextVerifies(f: Format, records: seq<Record>)
    requires Faithful(f) && WellFormedLedger(f, records)
    ensures Verified(f, Lines(Text(f, records)), records)
  {
    LinesOfText(f, records);
    assert |Encoded(f, records)| == |records| by { EncodedAt(f, records, 0); }
    forall i | 0 <= i < |records|
      ensures Encoded(f, records)[i] == f.encode(records[i])
    {
      EncodedAt(f, records, i);
    }
  }

  /** Two verified texts that end in the same hash have the same lines: any other edit of a ledger
    * that still verifies must change its last hash. */
  lemma VerifiedTextsWithSameEndAgree(f: Format, a: string, b: string, ra: seq<Record>, rb: seq<Record>)
    requires CollisionFree(f)
    requires Verified(f, Lines(a), ra) && Verified(f, Lines(b), rb)
    requires ra != [] && rb != [] && ra[|ra| - 1].hash == rb[|rb| - 1].hash
    ensures ra == rb && Lines(a) == Lines(b)
  {
    LastHashFixesChain(f, ra, rb);
  }
}
