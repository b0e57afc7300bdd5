/** The run from request to report: preflight, values, fields, one final look at every verified field,
  * and the artifact (the frame of runAutofill in autofill.ts).
  */
module AutofillReport {
  import opened Options
  import opened AutofillPage
  import opened AutofillPorts
  import AW = AutofillWidgets
  import opened AutofillRun

  // --- The final look ------------------------------------------------------------------------------------

  datatype Final = Final(blocks: Blocks, receipt: Receipt)

  /** A verified receipt stays verified only if its own node, in its own block, still holds the value. */
  function FinalReceipt(elements: seq<Element>, f: Field, r: Receipt, note: Option<Written>, blocks: Blocks): Final {
    var found := Resolve(elements, f.selector, blocks);
    if found.element.Err? then Final(found.blocks, r.(status := Uncertain, verified := false, error := Some(StaleTarget)))
    else
      var same := found.element.value;
      if !OnItsNode(same, note)
      then Final(found.blocks, r.(status := Uncertain, verified := false, error := Some(StaleTarget)))
      else if note.Some? && IsCommitted(note.value.strategy, same, note.value.expected, f.content)
      then Final(found.blocks, r)
      else if same.redacted then Final(found.blocks, r.(status := Unverified, verified := false, withheld := true))
      else Final(found.blocks, r.(status := Failed, verified := false, error := Some(ValueMismatch)))
  }

  predicate OnItsNode(e: Element, note: Option<Written>) {
    && e.evidence.node == (if note.Some? then Some(note.value.node) else None)
    && e.evidence.block == (if note.Some? then note.value.block else None)
  }

  datatype Finals = Finals(blocks: Blocks, receipts: seq<Receipt>)

  /** Receipt after receipt, on one and the same view. */
  function FinalReceipts(
    elements: seq<Element>, req: Request, receipts: seq<Receipt>,
    notes: seq<Option<Written>>, n: nat, blocks: Blocks): (r: Finals)
    requires n <= |receipts| == |notes| == |req.fields|
    ensures |r.receipts| == n
  {
    if n == 0 then Finals(blocks, [])
    else
      var before := FinalReceipts(elements, req, receipts, notes, n - 1, blocks);
      if !receipts[n - 1].verified then before.(receipts := before.receipts + [receipts[n - 1]])
      else
        var final := FinalReceipt(elements, req.fields[n - 1], receipts[n - 1], notes[n - 1], before.blocks);
        Finals(final.blocks, before.receipts + [final.receipt])
  }

  predicate AnyVerified(receipts: seq<Receipt>) {
    exists k :: 0 <= k < |receipts| && receipts[k].verified
  }

  function Unconfirmed(r: Receipt): Receipt {
    if r.verified then r.(status := Uncertain, verified := false, error := Some(VerificationUnavailable)) else r
  }

  function AllUnconfirmed(receipts: seq<Receipt>): (r: seq<Receipt>)
    ensures |r| == |receipts| && forall k :: 0 <= k < |r| ==> r[k] == Unconfirmed(receipts[k])
  {
    if receipts == [] then [] else [Unconfirmed(receipts[0])] + AllUnconfirmed(receipts[1..])
  }

  datatype Phase = Phase(run: Run, receipts: seq<Receipt>, escaped: bool)

  function FinalPhase(page: Page, req: Request, s: Run, receipts: seq<Receipt>, notes: seq<Option<Written>>): Phase
    requires |receipts| == |notes| == |req.fields|
  {
    if !AnyVerified(receipts) then Phase(s, receipts, false)
    else
      var o := Observe(page, req, s);
      if o.out.Ok? then
        var finals := FinalReceipts(o.out.value, req, receipts, notes, |receipts|, o.run.blocks);
        Phase(o.run.(blocks := finals.blocks), finals.receipts, false)
      else
        Phase(o.run.(tick := o.run.tick + 1), AllUnconfirmed(receipts), page.lost(o.run.tick).Some?)
  }

  // --- The frame of the run -----------------------------------------------------------------------------------

  /** `snapped` says whether a snapshot was taken, `attached` whether it is reported; `notes` is history, and
    * so is `before`, the receipts as they were before the final look. */
  datatype Report = Report(
    ok: bool, receipts: seq<Receipt>, snapped: bool, attached: bool, run: Run,
    notes: seq<Option<Written>>, before: seq<Receipt>)

  datatype Ending = Rejected(run: Run) | Reported(report: Report)

  predicate Succeeded(r: Receipt) { !r.navigation && (r.status.Verified? || r.status.Unverified?) }

  datatype Captured = Captured(run: Run, snapped: bool, attached: bool)

  /** The artifact, under guard, and only while the scope is valid. */
  function Capture(page: Page, req: Request, s: Run): Captured {
    var g := Guard(page, req, s);
    if g.out.Err? || !g.run.scopeValid then Captured(g.run, false, false)
    else
      var snapped := g.run.(tick := g.run.tick + 1);
      if !page.snapshot(g.run.tick) then Captured(snapped, true, false)
      else
        var h := Guard(page, req, snapped);
        Captured(h.run, true, h.out.Ok?)
  }

  /** Assert that authority still holds. */
  function Assert(page: Page, s: Run): Step<bool> {
    var lost := page.lost(s.tick);
    Step(s.(tick := s.tick + 1), if lost.Some? then Err(Failure(false, lost.value)) else Ok(true))
  }

  /** Assert authority, judge, capture the artifact, and report. */
  function Close(
    page: Page, req: Request, s: Run, receipts: seq<Receipt>, notes: seq<Option<Written>>, before: seq<Receipt>): Ending
  {
    var first := Assert(page, s);
    if first.out.Err? then Rejected(first.run)
    else
      var ok := forall r | r in receipts :: Succeeded(r);
      var c := Capture(page, req, first.run);
      var caught := if c.attached then Step(c.run, Ok(true)) else Assert(page, c.run);
      if caught.out.Err? then Rejected(caught.run)
      else
        var last := Assert(page, caught.run);
        if last.out.Err? then Rejected(last.run)
        else Reported(Report(ok, receipts, c.snapped, c.attached, last.run, notes, before))
  }

  /** The values to look for, resolved before the first write. */
  function ResolveValues(page: Page, req: Request, k: nat, s: Run): (r: Step<seq<string>>)
    requires k <= |req.fields|
    ensures r.out.Ok? ==> |r.out.value| == |req.fields| - k
    decreases |req.fields| - k
  {
    if k == |req.fields| then Step(s, Ok([]))
    else
      var g := Guard(page, req, s);
      if g.out.Err? then Step(g.run, Err(g.out.failure))
      else
        var value := ValueOf(page, req.fields[k].content);
        if value.None? then Step(g.run, Err(Failure(false, OtherCode("value"))))
        else
          var rest := ResolveValues(page, req, k + 1, g.run);
          if rest.out.Err? then rest else Step(rest.run, Ok([value.value] + rest.out.value))
  }

  /** The values found so far, and then the rest. */
  function Onto(values: seq<string>, rest: Step<seq<string>>): Step<seq<string>> {
    Step(rest.run, if rest.out.Err? then rest.out else Ok(values + rest.out.value))
  }

  lemma OntoNothing(rest: Step<seq<string>>)
    ensures Onto([], rest) == rest
  {
    if rest.out.Ok? { assert [] + rest.out.value == rest.out.value; }
  }

  lemma ResolveValuesUnrolls(page: Page, req: Request, k: nat, s: Run, values: seq<string>)
    requires k < |req.fields|
    ensures var g := Guard(page, req, s);
      var value := ValueOf(page, req.fields[k].content);
      Onto(values, ResolveValues(page, req, k, s)) ==
        if g.out.Err? then Step(g.run, Err(g.out.failure))
        else if value.None? then Step(g.run, Err(Failure(false, OtherCode("value"))))
        else Onto(values + [value.value], ResolveValues(page, req, k + 1, g.run))
  {
    var g := Guard(page, req, s);
    var value := ValueOf(page, req.fields[k].content);
    if g.out.Ok? && value.Some? {
      var rest := ResolveValues(page, req, k + 1, g.run);
      if rest.out.Ok? { assert values + ([value.value] + rest.out.value) == values + [value.value] + rest.out.value; }
    }
  }

  /** An exact set is judged by its own values, so only the length of its encoding matters. */
  function ValueOf(page: Page, content: Content): Option<string> {
    var value := match content
      case Text(text) => page.secret(text)
      case Choice(value) => Some(value)
      case ExactSet(chips) => if page.jsonLength(chips) > MAX_VALUE_CHARS then None else Some("");
    if value.Some? && |value.value| > MAX_VALUE_CHARS then None else value
  }

  /** A failed preflight is reported on the field it stopped at; nothing is written. */
  function PreflightReceipts(n: nat, at: nat, code: Code): (r: seq<Receipt>)
    ensures |r| == n
    ensures forall k :: 0 <= k < n ==>
      r[k] == if k == at then UNTOUCHED.(status := Failed, error := Some(code)) else UNTOUCHED
  {
    if n == 0 then []
    else
      var last := if n - 1 == at then UNTOUCHED.(status := Failed, error := Some(code)) else UNTOUCHED;
      PreflightReceipts(n - 1, at, code) + [last]
  }

  function RunMapped(page: Page, req: Request, s: Run): Ending {
    var values := ResolveValues(page, req, 0, s);
    if values.out.Err? then Rejected(values.run)
    else
      var p := RunFields(page, req, values.out.value, 0, values.run);
      if p.escaped then Rejected(p.run)
      else
        var final := FinalPhase(page, req, p.run, p.receipts, p.notes);
        if final.escaped then Rejected(final.run) else Close(page, req, final.run, final.receipts, p.notes, p.receipts)
  }

  /** How a failed preflight ends: rejected when authority is lost, and otherwise reported at once. */
  function PreflightEnding(page: Page, req: Request, o: Step<seq<Element>>): Ending
    requires o.out.Err?
  {
    var caught := Assert(page, o.run);
    if caught.out.Err? then Rejected(caught.run)
    else
      var receipts := PreflightReceipts(|req.fields|, o.run.stage, o.out.failure.code);
      Close(page, req, caught.run, receipts, Rest(|req.fields|, None), receipts)
  }

  function RunAutofill(page: Page, req: Request): Ending {
    if req.scope.None? then RunMapped(page, req, Start(req))
    else
      var o := Observe(page, req, Start(req));
      if o.out.Ok? then RunMapped(page, req, o.run) else PreflightEnding(page, req, o)
  }

  // --- What the final look establishes ------------------------------------------------------------------------------

  /** On this view one position answers the field's selector, and the control there is the node it wrote, in
    * its block, holding the value. */
  ghost predicate Holds(elements: seq<Element>, f: Field, note: Written) {
    exists k: nat ::
      OnlyAt(elements, f.selector, k) && OnItsNode(elements[k], Some(note))
        && IsCommitted(note.strategy, elements[k], note.expected, f.content)
  }

  /** Every verified field was confirmed on the view of the run's last look, complete and after every act. */
  ghost predicate ConfirmedTogether(
    page: Page, req: Request, s: Run, receipts: seq<Receipt>, notes: seq<Option<Written>>)
    requires |receipts| == |notes| == |req.fields|
  {
    AnyVerified(receipts) ==>
      s.proof.Some? && LastLook(s, s.proof.value) && exists view | Shown(page, s.acts, s.proof.value, view) ::
        forall k :: 0 <= k < |receipts| && receipts[k].verified ==>
          notes[k].Some? && Holds(view.elements, req.fields[k], notes[k].value)
  }

  lemma FinalReceiptHolds(elements: seq<Element>, f: Field, r: Receipt, note: Option<Written>, blocks: Blocks)
    requires r.verified && r.status.Verified? && note.Some?
    ensures var d := FinalReceipt(elements, f, r, note, blocks);
      && BlocksKept(blocks, d.blocks)
      && (d.receipt.verified <==> d.receipt.status.Verified?)
      && (d.receipt.verified ==> d.receipt == r && Holds(elements, f, note.value))
      && (!d.receipt.verified ==> Downgraded(d.receipt))
      && SameRecord(r, d.receipt)
  {
    ResolveKeepsBlocks(elements, f.selector, blocks);
    if Resolve(elements, f.selector, blocks).element.Ok? {
      var k := ResolvedAt(elements, f.selector, blocks);
      assert OnlyAt(elements, f.selector, k);
    }
  }

  /** The final look changes no navigation and no recorded effect. */
  predicate SameRecord(was: Receipt, now: Receipt) {
    now.navigation == was.navigation && now.removed == was.removed && now.added == was.added
  }

  /** What a verified receipt can become at the end. */
  predicate Downgraded(r: Receipt) {
    || (r.status.Uncertain? && r.error.Some?)
    || (r.status.Unverified? && r.withheld)
    || (r.status.Failed? && r.error == Some(ValueMismatch))
  }

  /** A final receipt: as it was, or a verified one downgraded, or one confirmed by this view. */
  predicate FinalFrom(was: Receipt, now: Receipt) {
    && (now.verified <==> now.status.Verified?)
    && (now.verified ==> now == was)
    && (!was.verified ==> now == was)
    && (was.verified && !now.verified ==> Downgraded(now))
    && SameRecord(was, now)
  }

  /** A final receipt against the view it was judged on. */
  ghost predicate FinalOn(elements: seq<Element>, f: Field, was: Receipt, now: Receipt, note: Option<Written>) {
    FinalFrom(was, now) && (now.verified ==> note.Some? && Holds(elements, f, note.value))
  }

  ghost predicate AllFinal(
    elements: seq<Element>, req: Request, receipts: seq<Receipt>, notes: seq<Option<Written>>, now: seq<Receipt>)
    requires |now| <= |receipts| == |notes| == |req.fields|
  {
    forall k :: 0 <= k < |now| ==> FinalOn(elements, req.fields[k], receipts[k], now[k], notes[k])
  }

  lemma OneMoreFinal(
    elements: seq<Element>, req: Request, receipts: seq<Receipt>, notes: seq<Option<Written>>, n: nat, before: Finals)
    requires 0 < n <= |receipts| == |notes| == |req.fields| && |before.receipts| == n - 1
    requires AllFinal(elements, req, receipts, notes, before.receipts) && Sane(receipts[n - 1], notes[n - 1])
    ensures var final := FinalReceipt(elements, req.fields[n - 1], receipts[n - 1], notes[n - 1], before.blocks);
      receipts[n - 1].verified ==>
        BlocksKept(before.blocks, final.blocks)
        && AllFinal(elements, req, receipts, notes, before.receipts + [final.receipt])
    ensures !receipts[n - 1].verified ==>
      AllFinal(elements, req, receipts, notes, before.receipts + [receipts[n - 1]])
  {
    if receipts[n - 1].verified {
      FinalReceiptHolds(elements, req.fields[n - 1], receipts[n - 1], notes[n - 1], before.blocks);
    }
  }

  lemma {:induction false} FinalReceiptsHold(
    elements: seq<Element>, req: Request, receipts: seq<Receipt>, notes: seq<Option<Written>>, n: nat, blocks: Blocks)
    requires n <= |receipts| == |notes| == |req.fields|
    requires forall k :: 0 <= k < |receipts| ==> Sane(receipts[k], notes[k])
    ensures var d := FinalReceipts(elements, req, receipts, notes, n, blocks);
      BlocksKept(blocks, d.blocks) && AllFinal(elements, req, receipts, notes, d.receipts)
  {
    if n > 0 {
      FinalReceiptsHold(elements, req, receipts, notes, n - 1, blocks);
      assert Sane(receipts[n - 1], notes[n - 1]);
      OneMoreFinal(elements, req, receipts, notes, n, FinalReceipts(elements, req, receipts, notes, n - 1, blocks));
    }
  }

  predicate Sane(r: Receipt, note: Option<Written>) {
    (r.verified <==> r.status.Verified?) && (r.verified ==> note.Some?)
  }

  lemma UnconfirmedIsFinal(r: Receipt)
    requires r.verified <==> r.status.Verified?
    ensures FinalFrom(r, Unconfirmed(r)) && !Unconfirmed(r).verified
  {
  }

  /** The final phase sends nothing, and leaves verified only what its own one look, after the last act, confirms. */
  lemma FinalPhaseHolds(page: Page, req: Request, s: Run, receipts: seq<Receipt>, notes: seq<Option<Written>>)
    requires |receipts| == |notes| == |req.fields| && PinsHold(req, s.pins) && Timed(s)
    requires forall k :: 0 <= k < |receipts| ==> Sane(receipts[k], notes[k])
    ensures var p := FinalPhase(page, req, s, receipts, notes);
      && |p.receipts| == |receipts| && p.run.acts == s.acts
      && StateKept(page, req, s, p.run) && PinsHold(req, p.run.pins)
      && (forall k :: 0 <= k < |receipts| ==> FinalFrom(receipts[k], p.receipts[k]))
      && ConfirmedTogether(page, req, p.run, p.receipts, notes)
  {
    if AnyVerified(receipts) {
      ObserveReads(page, req, 0, s);
      var o := Observe(page, req, s);
      if o.out.Ok? {
        var t, view := ObservedIsShown(page, req, s);
        FinalReceiptsHold(o.out.value, req, receipts, notes, |receipts|, o.run.blocks);
        var p := FinalPhase(page, req, s, receipts, notes);
        assert LastLook(p.run, t) && Shown(page, p.run.acts, t, view);
        forall k | 0 <= k < |receipts|
          ensures FinalOn(view.elements, req.fields[k], receipts[k], p.receipts[k], notes[k])
        {
        }
      } else {
        forall k | 0 <= k < |receipts| ensures FinalFrom(receipts[k], Unconfirmed(receipts[k])) {
          assert Sane(receipts[k], notes[k]);
          UnconfirmedIsFinal(receipts[k]);
        }
        assert !AnyVerified(AllUnconfirmed(receipts)) by {
          forall k | 0 <= k < |receipts| ensures !Unconfirmed(receipts[k]).verified { UnconfirmedIsFinal(receipts[k]); }
        }
      }
    } else {
      assert s.acts[..|s.acts|] == s.acts;
    }
  }

  // --- The report -----------------------------------------------------------------------------------------------------

  /** The end of any run keeps acts in order, in time, one after another, and unreplayed. */
  ghost predicate RunHolds(req: Request, s: Run) {
    Orderly(s.acts, req.policy.timeoutMs) && Timed(s) && NoneReplayed(req, 0, s.acts) && PinsHold(req, s.pins)
  }

  ghost predicate AccountedFor(req: Request, receipts: seq<Receipt>, notes: seq<Option<Written>>, acts: seq<Act>) {
    && |receipts| == |notes| == |req.fields|
    && forall i :: 0 <= i < |receipts| ==> Accounted(req.fields[i], i, receipts[i], notes[i], acts)
  }

  /** After a receipt that stops the run nothing is attempted. */
  predicate StoppedRight(req: Request, receipts: seq<Receipt>) {
    forall i, j :: 0 <= i < j < |receipts| && Stopping(req, receipts[i]) ==> receipts[j].status.NotAttempted?
  }

  /** How receipts came about: the fields left theirs, nothing was attempted after a stop, the final look kept
    * or downgraded each; and every effect on record was asked for and seen right after an act of its field. */
  ghost predicate Recorded(
    page: Page, req: Request, s: Run, before: seq<Receipt>, receipts: seq<Receipt>, notes: seq<Option<Written>>)
  {
    && |before| == |receipts| == |notes| == |req.fields|
    && StoppedRight(req, before)
    && (forall i :: 0 <= i < |receipts| ==> FinalFrom(before[i], receipts[i]))
    && (forall i :: 0 <= i < |receipts| ==> ReceiptConfirmed(page, i, req.fields[i], receipts[i], notes[i], s))
  }

  ghost predicate ReportHolds(page: Page, req: Request, r: Report) {
    && RunHolds(req, r.run)
    && AccountedFor(req, r.receipts, r.notes, r.run.acts)
    && Recorded(page, req, r.run, r.before, r.receipts, r.notes)
    && ConfirmedTogether(page, req, r.run, r.receipts, r.notes)
    && (r.ok <==> forall x | x in r.receipts :: Succeeded(x))
    && (r.attached ==> r.snapped)
    && (r.snapped && req.scope.Some? ==> StageRevalidated(page, req, r.run))
  }

  ghost predicate EndingHolds(page: Page, req: Request, e: Ending) {
    match e
    case Rejected(s) => RunHolds(req, s)
    case Reported(r) => ReportHolds(page, req, r)
  }

  lemma CaptureOnlyLooks(page: Page, req: Request, s: Run)
    ensures var c := Capture(page, req, s);
      c.run == s.(tick := c.run.tick) && s.tick <= c.run.tick && (c.attached ==> c.snapped) && (c.snapped ==> s.scopeValid)
  {
  }

  /** Closing sends nothing and reports the receipts it was given. */
  lemma CloseReports(
    page: Page, req: Request, s: Run, receipts: seq<Receipt>, notes: seq<Option<Written>>, before: seq<Receipt>)
    ensures var e := Close(page, req, s, receipts, notes, before);
      var r := if e.Rejected? then e.run else e.report.run;
      && r == s.(tick := r.tick) && s.tick <= r.tick
      && (e.Reported? ==>
        && e.report.receipts == receipts && e.report.notes == notes && e.report.before == before
        && (e.report.ok <==> forall x | x in receipts :: Succeeded(x))
        && (e.report.attached ==> e.report.snapped)
        && (e.report.snapped ==> s.scopeValid))
  {
    CaptureOnlyLooks(page, req, Assert(page, s).run);
  }

  /** Time passing changes nothing of the record. */
  lemma RecordStays(
    page: Page, req: Request, s: Run, tick: nat, receipts: seq<Receipt>, notes: seq<Option<Written>>, before: seq<Receipt>)
    requires s.tick <= tick
    requires Recorded(page, req, s, before, receipts, notes) && ConfirmedTogether(page, req, s, receipts, notes)
    ensures var r := s.(tick := tick);
      Recorded(page, req, r, before, receipts, notes) && ConfirmedTogether(page, req, r, receipts, notes)
  {
    var r := s.(tick := tick);
    assert r.acts[..|r.acts|] == r.acts;
    forall i | 0 <= i < |receipts| ensures ReceiptConfirmed(page, i, req.fields[i], receipts[i], notes[i], r) {
      EffectsStay(page, i, req.fields[i], notes[i], s, r, receipts[i].removed, receipts[i].added);
    }
    if AnyVerified(receipts) {
      var t := s.proof.value;
      assert LastLook(r, t);
    }
  }

  lemma RevalidationStays(page: Page, req: Request, s: Run, tick: nat)
    requires ScopeHolds(page, req, s) && s.tick <= tick && req.scope.Some? && s.scopeValid
    ensures StageRevalidated(page, req, s.(tick := tick))
  {
    assert LastLook(s.(tick := tick), s.proof.value);
  }

  lemma CloseHolds(
    page: Page, req: Request, s: Run, receipts: seq<Receipt>, notes: seq<Option<Written>>, before: seq<Receipt>)
    requires RunHolds(req, s) && ScopeHolds(page, req, s)
    requires AccountedFor(req, receipts, notes, s.acts) && Recorded(page, req, s, before, receipts, notes)
    requires ConfirmedTogether(page, req, s, receipts, notes)
    ensures EndingHolds(page, req, Close(page, req, s, receipts, notes, before))
  {
    var e := Close(page, req, s, receipts, notes, before);
    CloseReports(page, req, s, receipts, notes, before);
    if e.Reported? {
      RecordStays(page, req, s, e.report.run.tick, receipts, notes, before);
      if s.scopeValid && req.scope.Some? { RevalidationStays(page, req, s, e.report.run.tick); }
    }
  }

  lemma {:induction false} ResolveValuesWrites(page: Page, req: Request, k: nat, s: Run)
    requires k <= |req.fields| && PinsHold(req, s.pins)
    ensures var r := ResolveValues(page, req, k, s).run;
      r.acts == s.acts && StateKept(page, req, s, r) && PinsHold(req, r.pins)
    decreases |req.fields| - k
  {
    if k < |req.fields| {
      var g := Guard(page, req, s);
      GuardKeeps(page, req, k, s);
      if g.out.Ok? && ValueOf(page, req.fields[k].content).Some? {
        ResolveValuesWrites(page, req, k + 1, g.run);
        StateKeptTrans(page, req, s, g.run, ResolveValues(page, req, k + 1, g.run).run);
      }
    }
  }

  lemma AccountedFinally(f: Field, i: nat, was: Receipt, now: Receipt, note: Option<Written>, acts: seq<Act>)
    requires Accounted(f, i, was, note, acts) && FinalFrom(was, now)
    ensures Accounted(f, i, now, note, acts)
  {
  }

  /** What the fields' phase hands on. */
  ghost predicate PassRecorded(page: Page, req: Request, p: Pass) {
    && AccountedFor(req, p.receipts, p.notes, p.run.acts)
    && StoppedRight(req, p.receipts)
    && forall i :: 0 <= i < |p.receipts| ==> ReceiptConfirmed(page, i, req.fields[i], p.receipts[i], p.notes[i], p.run)
  }

  /** The final look against what the fields' phase recorded. */
  lemma FinalPhaseRecords(page: Page, req: Request, p: Pass, final: Phase)
    requires PassRecorded(page, req, p) && |final.receipts| == |p.receipts| && final.run.acts == p.run.acts
    requires p.run.tick <= final.run.tick
    requires forall k :: 0 <= k < |p.receipts| ==> FinalFrom(p.receipts[k], final.receipts[k])
    ensures AccountedFor(req, final.receipts, p.notes, final.run.acts)
    ensures Recorded(page, req, final.run, p.receipts, final.receipts, p.notes)
  {
    assert final.run.acts[..|final.run.acts|] == final.run.acts;
    forall k | 0 <= k < |final.receipts|
      ensures Accounted(req.fields[k], k, final.receipts[k], p.notes[k], final.run.acts)
      ensures ReceiptConfirmed(page, k, req.fields[k], final.receipts[k], p.notes[k], final.run)
    {
      AccountedFinally(req.fields[k], k, p.receipts[k], final.receipts[k], p.notes[k], p.run.acts);
      assert ReceiptConfirmed(page, k, req.fields[k], p.receipts[k], p.notes[k], p.run);
      EffectsStay(page, k, req.fields[k], p.notes[k], p.run, final.run, p.receipts[k].removed, p.receipts[k].added);
    }
  }

  /** From a passed fields' phase to the report. */
  lemma PassEnds(page: Page, req: Request, p: Pass)
    requires !p.escaped && RunHolds(req, p.run) && ScopeHolds(page, req, p.run)
    requires PassRecorded(page, req, p)
    ensures var final := FinalPhase(page, req, p.run, p.receipts, p.notes);
      && RunHolds(req, final.run)
      && EndingHolds(page, req, Close(page, req, final.run, final.receipts, p.notes, p.receipts))
  {
    forall k | 0 <= k < |p.receipts| ensures Sane(p.receipts[k], p.notes[k]) {
      assert Accounted(req.fields[k], k, p.receipts[k], p.notes[k], p.run.acts);
    }
    FinalPhaseHolds(page, req, p.run, p.receipts, p.notes);
    var final := FinalPhase(page, req, p.run, p.receipts, p.notes);
    FinalPhaseRecords(page, req, p, final);
    CloseHolds(page, req, final.run, final.receipts, p.notes, p.receipts);
  }

  lemma PassIsRecorded(page: Page, req: Request, s: Run, p: Pass)
    requires PassHolds(page, req, 0, s, p) && PassConfirms(page, req, 0, s, p) && !p.escaped
    ensures PassRecorded(page, req, p)
  {
    forall i | 0 <= i < |p.receipts|
      ensures Accounted(req.fields[i], i, p.receipts[i], p.notes[i], p.run.acts)
      ensures ReceiptConfirmed(page, i, req.fields[i], p.receipts[i], p.notes[i], p.run)
    {
      assert Accounted(req.fields[0 + i], 0 + i, p.receipts[i], p.notes[i], p.run.acts);
      assert ReceiptConfirmed(page, 0 + i, req.fields[0 + i], p.receipts[i], p.notes[i], p.run);
    }
  }

  /** The fields' phase from a run that has sent nothing. */
  lemma FieldsAreRecorded(page: Page, req: Request, values: seq<string>, s: Run)
    requires |values| == |req.fields| && s.acts == [] && PinsHold(req, s.pins) && ScopeHolds(page, req, s)
    ensures var p := RunFields(page, req, values, 0, s);
      RunHolds(req, p.run) && ScopeHolds(page, req, p.run) && (!p.escaped ==> PassRecorded(page, req, p))
  {
    var p := RunFields(page, req, values, 0, s);
    RunFieldsHolds(page, req, values, 0, s);
    RunFieldsConfirms(page, req, values, 0, s);
    if !p.escaped { PassIsRecorded(page, req, s, p); }
  }

  lemma RunMappedHolds(page: Page, req: Request, s: Run)
    requires s.acts == [] && PinsHold(req, s.pins) && ScopeHolds(page, req, s)
    ensures EndingHolds(page, req, RunMapped(page, req, s))
  {
    ResolveValuesWrites(page, req, 0, s);
    var values := ResolveValues(page, req, 0, s);
    if values.out.Ok? {
      var p := RunFields(page, req, values.out.value, 0, values.run);
      FieldsAreRecorded(page, req, values.out.value, values.run);
      if !p.escaped { PassEnds(page, req, p); }
    } else {
      NothingSentHolds(req, values.run);
    }
  }

  lemma NothingSentHolds(req: Request, s: Run)
    requires s.acts == [] && PinsHold(req, s.pins)
    ensures RunHolds(req, s)
  {
    NoneReplayedYet(req, 0, []);
  }

  lemma PreflightReceiptsHold(page: Page, req: Request, at: nat, code: Code, s: Run)
    requires s.acts == []
    ensures var receipts := PreflightReceipts(|req.fields|, at, code);
      var notes: seq<Option<Written>> := Rest(|req.fields|, None);
      && AccountedFor(req, receipts, notes, []) && !AnyVerified(receipts)
      && Recorded(page, req, s, receipts, receipts, notes)
  {
    var receipts := PreflightReceipts(|req.fields|, at, code);
    var notes: seq<Option<Written>> := Rest(|req.fields|, None);
    forall i | 0 <= i < |receipts|
      ensures Accounted(req.fields[i], i, receipts[i], notes[i], [])
      ensures FinalFrom(receipts[i], receipts[i]) && ReceiptConfirmed(page, i, req.fields[i], receipts[i], notes[i], s)
    {
      CountNone([], i);
      NoEffects(page, i, req.fields[i], None, s);
    }
  }

  lemma PreflightEndingHolds(page: Page, req: Request, o: Step<seq<Element>>)
    requires o.out.Err? && o.run.acts == [] && PinsHold(req, o.run.pins) && !o.run.scopeValid
    ensures var e := PreflightEnding(page, req, o);
      EndingHolds(page, req, e) && (if e.Rejected? then e.run.acts else e.report.run.acts) == []
  {
    var caught := Assert(page, o.run).run;
    var receipts := PreflightReceipts(|req.fields|, o.run.stage, o.out.failure.code);
    NothingSentHolds(req, caught);
    PreflightReceiptsHold(page, req, o.run.stage, o.out.failure.code, caught);
    CloseHolds(page, req, caught, receipts, Rest(|req.fields|, None), receipts);
    CloseReports(page, req, caught, receipts, Rest(|req.fields|, None), receipts);
  }

  /** A preflight that fails is reported, and nothing was sent. */
  lemma FailedPreflightWritesNothing(page: Page, req: Request)
    requires req.scope.Some? && Observe(page, req, Start(req)).out.Err?
    ensures var e := RunAutofill(page, req);
      EndingHolds(page, req, e) && (if e.Rejected? then e.run.acts else e.report.run.acts) == []
  {
    ObserveEffect(page, req, Start(req));
    PreflightEndingHolds(page, req, Observe(page, req, Start(req)));
  }

  /** The main result, for every page and every request: whatever happens, acts are bounded per field, in
    * field order, in time and never replayed; and a report says of every field exactly what was shown. */
  lemma EveryRunHolds(page: Page, req: Request)
    ensures EndingHolds(page, req, RunAutofill(page, req))
  {
    if req.scope.None? {
      RunMappedHolds(page, req, Start(req));
    } else if Observe(page, req, Start(req)).out.Ok? {
      ObserveEffect(page, req, Start(req));
      RunMappedHolds(page, req, Observe(page, req, Start(req)).run);
    } else {
      FailedPreflightWritesNothing(page, req);
    }
  }

  /** `ok` means every field was attempted, and verified or knowingly left unverified, with no navigation. */
  lemma OkMeansDone(page: Page, req: Request, i: nat)
    requires RunAutofill(page, req).Reported? && RunAutofill(page, req).report.ok && i < |req.fields|
    ensures var r := RunAutofill(page, req).report;
      && |r.receipts| == |req.fields| && !r.receipts[i].navigation
      && (r.receipts[i].verified <==> r.receipts[i].status.Verified?)
      && (r.receipts[i].status.Verified? || r.receipts[i].status.Unverified?)
      && (req.fields[i].verified && !r.receipts[i].verified ==> r.receipts[i].withheld)
  {
    EveryRunHolds(page, req);
    var r := RunAutofill(page, req).report;
    assert r.receipts[i] in r.receipts;
    assert Accounted(req.fields[i], i, r.receipts[i], r.notes[i], r.run.acts);
  }

  /** A field reported `failed` for any reason but a mismatch, or `skipped`, sent no signalled act. */
  lemma FailedMeansNothingSent(page: Page, req: Request, i: nat)
    requires RunAutofill(page, req).Reported? && i < |req.fields|
    ensures var r := RunAutofill(page, req).report;
      && |r.receipts| == |req.fields|
      && (r.receipts[i].status.Skipped? || (r.receipts[i].status.Failed? && r.receipts[i].error != Some(ValueMismatch))
        ==> NothingSignalled(r.run.acts, i))
      && (r.receipts[i].status.NotAttempted? ==> CountOf(r.run.acts, i) == 0)
  {
    EveryRunHolds(page, req);
    var r := RunAutofill(page, req).report;
    assert Accounted(req.fields[i], i, r.receipts[i], r.notes[i], r.run.acts);
  }

  /** In a scoped run `ok` means every field was verified, together, on the run's last look, but for those
    * whose value the page withheld. */
  lemma ScopedOkIsVerified(page: Page, req: Request)
    requires ValidRequest(req) && req.scope.Some?
    requires RunAutofill(page, req).Reported? && RunAutofill(page, req).report.ok
    ensures var r := RunAutofill(page, req).report;
      && |r.receipts| == |r.notes| == |req.fields| && ConfirmedTogether(page, req, r.run, r.receipts, r.notes)
      && forall i :: 0 <= i < |req.fields| ==> r.receipts[i].verified || r.receipts[i].withheld
  {
    var r := RunAutofill(page, req).report;
    EveryRunHolds(page, req);
    forall i | 0 <= i < |req.fields| ensures r.receipts[i].verified || r.receipts[i].withheld {
      assert req.fields[i] in req.fields;
      OkMeansDone(page, req, i);
    }
  }
}
