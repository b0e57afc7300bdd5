/** One bounded search over the current and the history namespaces, and the answers built on it
  * (journal-config.ts, with the lookup route of server.ts and the recovery targets of service.ts).
  */
module JournalSearch {

  const PAGE := 16

  datatype Health = Healthy | Unhealthy(why: string)

  /** How a namespace takes one read. */
  datatype Reading = Reads | Refuses(reason: string) | AnswersElse | Throws

  /** A searched journal; `matching` is every record of the query that its namespace holds. */
  datatype Journal<R> = Journal(id: string, health: Health, reading: Reading, matching: seq<R>)

  datatype Entry<R> = Entry(record: R, owner: nat)

  datatype Search<R> = Search(entries: seq<Entry<R>>, truncated: bool, unread: seq<string>, lastReason: string)

  // --- The store's answer -----------------------------------------------------------------------------

  predicate Answered<R>(j: Journal<R>) { j.health.Healthy? && j.reading.Reads? }

  /** A store reads one row more than the page and reports whether it was there. */
  function Page<R>(j: Journal<R>): seq<R> {
    if |j.matching| <= PAGE then j.matching else j.matching[..PAGE]
  }

  function Reason<R>(j: Journal<R>): string
    requires !Answered(j)
  {
    match j.health
    case Unhealthy(why) => why
    case Healthy =>
      match j.reading
      case Refuses(reason) => reason
      case Throws => "error"
      case _ => "unavailable"
  }

  // --- What a search is --------------------------------------------------------------------------------

  function Tagged<R>(records: seq<R>, owner: nat): (r: seq<Entry<R>>)
    ensures |r| == |records|
    ensures forall k :: 0 <= k < |r| ==> r[k] == Entry(records[k], owner)
  {
    seq(|records|, k requires 0 <= k < |records| => Entry(records[k], owner))
  }

  /** Everything the first `n` journals returned, in order. */
  function Returned<R>(journals: seq<Journal<R>>, n: nat): seq<Entry<R>>
    requires n <= |journals|
  {
    if n == 0 then []
    else
      var last := if Answered(journals[n - 1]) then Tagged(Page(journals[n - 1]), n - 1) else [];
      Returned(journals, n - 1) + last
  }

  function Unread<R>(journals: seq<Journal<R>>, n: nat): seq<string>
    requires n <= |journals|
  {
    if n == 0 then []
    else Unread(journals, n - 1) + (if Answered(journals[n - 1]) then [] else [journals[n - 1].id])
  }

  function LastReason<R>(journals: seq<Journal<R>>, n: nat): string
    requires n <= |journals|
  {
    if n == 0 then "unavailable"
    else if Answered(journals[n - 1]) then LastReason(journals, n - 1)
    else Reason(journals[n - 1])
  }

  predicate Overflows<R>(j: Journal<R>) { Answered(j) && |j.matching| > PAGE }

  /** The whole search, said at once. */
  function SearchAll<R>(journals: seq<Journal<R>>): Search<R> {
    var all := Returned(journals, |journals|);
    Search(
      if |all| > PAGE then all[..PAGE] else all,
      |all| > PAGE || exists k :: 0 <= k < |journals| && Overflows(journals[k]),
      Unread(journals, |journals|),
      LastReason(journals, |journals|))
  }

  /** The loop over the journals, with its flags. */
  method SearchJournalNamespaces<R>(journals: seq<Journal<R>>) returns (r: Search<R>)
    ensures r == SearchAll(journals)
  {
    var entries: seq<Entry<R>> := [];
    var unread: seq<string> := [];
    var truncated := false;
    var lastReason := "unavailable";
    var k := 0;
    while k < |journals|
      invariant 0 <= k <= |journals|
      invariant entries == Returned(journals, k)
      invariant unread == Unread(journals, k)
      invariant lastReason == LastReason(journals, k)
      invariant truncated <==> exists i :: 0 <= i < k && Overflows(journals[i])
    {
      var journal := journals[k];
      if journal.health.Unhealthy? {
        unread := unread + [journal.id];
        lastReason := journal.health.why;
      } else if journal.reading.Throws? {
        unread := unread + [journal.id];
        lastReason := "error";
      } else if !journal.reading.Reads? {
        lastReason := if journal.reading.Refuses? then journal.reading.reason else "unavailable";
        unread := unread + [journal.id];
      } else {
        var page := Page(journal);
        var i := 0;
        while i < |page|
          invariant 0 <= i <= |page|
          invariant entries == Returned(journals, k) + Tagged(page[..i], k)
        {
          assert page[..i + 1] == page[..i] + [page[i]];
          entries := entries + [Entry(page[i], k)];
          i := i + 1;
        }
        assert page[..|page|] == page;
        truncated := truncated || |journal.matching| > PAGE;
      }
      k := k + 1;
    }
    if |entries| > PAGE {
      entries := entries[..PAGE];
      truncated := true;
    }
    r := Search(entries, truncated, unread, lastReason);
  }

  // --- What a search promises ----------------------------------------------------------------------------

  /** Everything the first `n` namespaces hold, in order, with its owner. */
  function Held<R>(journals: seq<Journal<R>>, n: nat): seq<Entry<R>>
    requires n <= |journals|
  {
    if n == 0 then [] else Held(journals, n - 1) + Tagged(journals[n - 1].matching, n - 1)
  }

  lemma {:induction false} ReturnedIsOwned<R>(journals: seq<Journal<R>>, n: nat)
    requires n <= |journals|
    ensures forall e | e in Returned(journals, n) ::
      e.owner < n && Answered(journals[e.owner]) && e.record in journals[e.owner].matching
  {
    if n > 0 { ReturnedIsOwned(journals, n - 1); }
  }

  /** At most a page, and every record tagged with a journal that answered and holds it. */
  lemma SearchIsBoundedAndTagged<R>(journals: seq<Journal<R>>)
    ensures var s := SearchAll(journals);
      && |s.entries| <= PAGE
      && forall e | e in s.entries ::
        e.owner < |journals| && Answered(journals[e.owner]) && e.record in journals[e.owner].matching
  {
    ReturnedIsOwned(journals, |journals|);
  }

  lemma {:induction false} UnreadIsWhatDidNotAnswer<R>(journals: seq<Journal<R>>, n: nat)
    requires n <= |journals|
    ensures |Unread(journals, n)| <= n
    ensures Unread(journals, n) == [] <==> forall k :: 0 <= k < n ==> Answered(journals[k])
    ensures |Unread(journals, n)| == n <==> forall k :: 0 <= k < n ==> !Answered(journals[k])
    ensures forall k :: 0 <= k < n && !Answered(journals[k]) ==> journals[k].id in Unread(journals, n)
    ensures forall id | id in Unread(journals, n) ::
      exists k :: 0 <= k < n && !Answered(journals[k]) && journals[k].id == id
  {
    if n > 0 {
      UnreadIsWhatDidNotAnswer(journals, n - 1);
      if !Answered(journals[n - 1]) {
        assert journals[n - 1].id in Unread(journals, n);
        forall id | id in Unread(journals, n)
          ensures exists k :: 0 <= k < n && !Answered(journals[k]) && journals[k].id == id
        {
          if id == journals[n - 1].id { assert !Answered(journals[n - 1]); }
        }
      }
    }
  }

  /** Whoever answered without overflowing returned all it holds. */
  lemma {:induction false} NoOverflowReturnsAll<R>(journals: seq<Journal<R>>, n: nat)
    requires n <= |journals|
    requires forall k :: 0 <= k < n ==> Answered(journals[k]) && !Overflows(journals[k])
    ensures Returned(journals, n) == Held(journals, n)
  {
    if n > 0 { NoOverflowReturnsAll(journals, n - 1); }
  }

  /** Not truncated and nothing unread: the answer is every matching record of every namespace. */
  lemma CompleteSearchIsExact<R>(journals: seq<Journal<R>>)
    ensures var s := SearchAll(journals);
      !s.truncated && s.unread == [] ==> s.entries == Held(journals, |journals|)
  {
    UnreadIsWhatDidNotAnswer(journals, |journals|);
    if !SearchAll(journals).truncated && SearchAll(journals).unread == [] {
      NoOverflowReturnsAll(journals, |journals|);
    }
  }

  /** A namespace that answered, alone or among failures, loses records only under `truncated`. */
  lemma {:induction false} AnsweredRecordsAreReturned<R>(journals: seq<Journal<R>>, n: nat, k: nat, record: R)
    requires k < n <= |journals| && Answered(journals[k]) && !Overflows(journals[k])
    requires record in journals[k].matching
    ensures Entry(record, k) in Returned(journals, n)
  {
    if k < n - 1 {
      AnsweredRecordsAreReturned(journals, n - 1, k, record);
    } else {
      var i :| 0 <= i < |journals[k].matching| && journals[k].matching[i] == record;
      assert Tagged(Page(journals[k]), k)[i] == Entry(record, k);
    }
  }

  lemma PartialSearchKeepsAnswers<R>(journals: seq<Journal<R>>, k: nat, record: R)
    requires k < |journals| && Answered(journals[k]) && record in journals[k].matching
    requires !SearchAll(journals).truncated
    ensures Entry(record, k) in SearchAll(journals).entries
  {
    assert !Overflows(journals[k]);
    AnsweredRecordsAreReturned(journals, |journals|, k, record);
  }

  // --- The lookup route -----------------------------------------------------------------------------------

  datatype Lookup<R> =
    | NotConfigured
    | Unavailable
    | Forbidden
    | Answer(absent: bool, truncated: bool, unreadNamespaces: seq<string>, records: seq<R>)

  function Records<R>(entries: seq<Entry<R>>): (r: seq<R>)
    ensures |r| == |entries|
    ensures forall k :: 0 <= k < |r| ==> r[k] == entries[k].record
  {
    seq(|entries|, k requires 0 <= k < |entries| => entries[k].record)
  }

  /** `refused` names the configured history that never opened. */
  function LookupOperation<R>(
    configured: bool, searched: seq<Journal<R>>, refused: seq<string>, hasTenant: bool): Lookup<R>
  {
    if searched == [] then (if configured then Unavailable else NotConfigured)
    else if !hasTenant then Forbidden
    else
      var search := SearchAll(searched);
      if |search.unread| == |searched| then Unavailable
      else
        var unread := search.unread + refused;
        Answer(search.entries == [] && !search.truncated && unread == [], search.truncated, unread,
          Records(search.entries))
  }

  /** Every namespace answers, and none holds a record of the query. */
  predicate NoneHolds<R>(journals: seq<Journal<R>>) {
    forall k :: 0 <= k < |journals| ==> Answered(journals[k]) && |journals[k].matching| == 0
  }

  /** `absent` is said exactly when every configured namespace was read and none holds a match. */
  lemma AbsentIsTrue<R>(configured: bool, searched: seq<Journal<R>>, refused: seq<string>, hasTenant: bool)
    ensures var a := LookupOperation(configured, searched, refused, hasTenant);
      a.Answer? && a.absent <==> searched != [] && hasTenant && refused == [] && NoneHolds(searched)
  {
    UnreadIsWhatDidNotAnswer(searched, |searched|);
    CompleteSearchIsExact(searched);
    var a := LookupOperation(configured, searched, refused, hasTenant);
    if a.Answer? && a.absent {
      HeldNothing(searched, |searched|);
    }
    if NoneHolds(searched) {
      NothingHeld(searched, |searched|);
      NoOverflowReturnsAll(searched, |searched|);
      assert Records<R>([]) == [];
    }
  }

  lemma {:induction false} HeldNothing<R>(journals: seq<Journal<R>>, n: nat)
    requires n <= |journals| && Held(journals, n) == []
    ensures forall k :: 0 <= k < n ==> journals[k].matching == []
  {
    if n > 0 {
      assert |Held(journals, n)| == |Held(journals, n - 1)| + |journals[n - 1].matching|;
      HeldNothing(journals, n - 1);
    }
  }

  lemma {:induction false} NothingHeld<R>(journals: seq<Journal<R>>, n: nat)
    requires n <= |journals| && forall k :: 0 <= k < n ==> journals[k].matching == []
    ensures Held(journals, n) == []
  {
    if n > 0 { NothingHeld(journals, n - 1); }
  }

  // --- Recovery targets -------------------------------------------------------------------------------------

  datatype Targets<R> = NoOpenJournal | HistoryUnread | NotFound | Found(entries: seq<Entry<R>>, unread: seq<string>)

  /** Recovery looks for actionable records; here `matching` is what that query matches. */
  function RecoveryTargets<R>(journals: seq<Journal<R>>, refused: seq<string>): Targets<R> {
    if !(exists k :: 0 <= k < |journals| && journals[k].health.Healthy?) then NoOpenJournal
    else
      var s := SearchAll(journals);
      if s.entries == [] && |s.unread| + |refused| > 0 then HistoryUnread
      else if s.entries == [] then NotFound
      else Found(s.entries, s.unread + refused)
  }

  /** Recovery says `not found` only when every namespace was read and none holds an actionable record. */
  lemma NotFoundIsTrue<R>(journals: seq<Journal<R>>, refused: seq<string>)
    ensures RecoveryTargets(journals, refused).NotFound?
      <==> (journals != [] && refused == [] && NoneHolds(journals))
  {
    UnreadIsWhatDidNotAnswer(journals, |journals|);
    if RecoveryTargets(journals, refused).NotFound? {
      EmptyReturnIsEmpty(journals, |journals|);
    } else if journals != [] && NoneHolds(journals) {
      NoneFound(journals);
    }
  }

  lemma NoneFound<R>(journals: seq<Journal<R>>)
    requires journals != [] && NoneHolds(journals)
    ensures SearchAll(journals).entries == [] && SearchAll(journals).unread == []
    ensures exists k :: 0 <= k < |journals| && journals[k].health.Healthy?
  {
    UnreadIsWhatDidNotAnswer(journals, |journals|);
    NothingHeld(journals, |journals|);
    NoOverflowReturnsAll(journals, |journals|);
    assert journals[0].health.Healthy?;
  }

  /** A page is empty only when there is nothing to put on it. */
  lemma {:induction false} EmptyReturnIsEmpty<R>(journals: seq<Journal<R>>, n: nat)
    requires n <= |journals| && Returned(journals, n) == []
    ensures forall k :: 0 <= k < n && Answered(journals[k]) ==> journals[k].matching == []
  {
    if n > 0 {
      var last := if Answered(journals[n - 1]) then Tagged(Page(journals[n - 1]), n - 1) else [];
      NothingJoined(Returned(journals, n - 1), last);
      EmptyReturnIsEmpty(journals, n - 1);
      assert Answered(journals[n - 1]) ==> |Page(journals[n - 1])| == 0;
    }
  }

  lemma NothingJoined<T>(a: seq<T>, b: seq<T>)
    requires a + b == []
    ensures a == [] && b == []
  {
    assert |a + b| == |a| + |b|;
  }
}
