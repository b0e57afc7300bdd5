/** The whole autofill run: field after field, then one final look, then the report (runAutofill in
  * autofill.ts).  Retrying repeats reads and never a write that was sent.
  */
module AutofillRun {
  import opened Options
  import opened AutofillPage
  import opened AutofillPorts
  import opened AutofillWidgets

  const MAX_VALUE_CHARS := 8192

  // --- One field ---------------------------------------------------------------------------------------

  datatype Status = Verified | Unverified | Skipped | Failed | Uncertain | NotAttempted

  datatype Receipt = Receipt(
    status: Status, verified: bool, error: Option<Code>, navigation: bool, withheld: bool,
    removed: seq<string>, added: seq<string>)

  const UNTOUCHED := Receipt(NotAttempted, false, None, false, false, [], [])

  /** What the run has committed to for a field: the node it writes, how, and the value to look for. */
  datatype Written = Written(node: string, block: Option<string>, strategy: Strategy, expected: string)

  /** One observation, and the field's control in it if it is there. */
  function FindOnce(page: Page, req: Request, f: Field, s: Run): Step<Result<Element>> {
    var o := Observe(page, req, s);
    if o.out.Err? then Step(o.run, Err(o.out.failure))
    else
      var found := Resolve(o.out.value, f.selector, o.run.blocks);
      Step(o.run.(blocks := found.blocks), Ok(found.element))
  }

  predicate MayAppear(found: Step<Result<Element>>) {
    found.out.Ok? && found.out.value == Own(TargetNotFound)
  }

  /** A field may appear late: absence is read again, a bounded number of times. */
  function FindField(page: Page, req: Request, f: Field, s: Run, attempt: nat): Step<Element>
    decreases req.policy.maxReobserve - attempt
  {
    var found := FindOnce(page, req, f, s);
    if found.out.Err? then Step(found.run, Err(found.out.failure))
    else if MayAppear(found) && attempt < req.policy.maxReobserve
    then FindField(page, req, f, found.run, attempt + 1)
    else Step(found.run, found.out.value)
  }

  function NativeAction(f: Field, strategy: Strategy, ref: string): Action {
    match f.content
    case Text(text) => Fill(ref, text)
    case Choice(value) => Select(ref, value)
    case ExactSet(_) => Select(ref, "")
  }

  function TargetOf(f: Field, note: Written): Target { Target(f.selector, note.node, note.block) }

  function WriteWidget(page: Page, req: Request, i: nat, f: Field, target: Target, ref: string, e: Exec): Did<string> {
    match f.content
    case ExactSet(chips) => WriteExactSet(page, req, i, target, chips, e)
    case Choice(value) => Typeahead(page, req, i, target, value, ref, e)
    case Text(_) => Typeahead(page, req, i, target, "", ref, e)
  }

  /** Write a field by its strategy; the value to look for comes back. */
  function WriteField(page: Page, req: Request, i: nat, f: Field, note: Written, ref: string, e: Exec): Did<string> {
    if IsWidget(note.strategy) then
      var d := WriteWidget(page, req, i, f, TargetOf(f, note), ref, e);
      if d.out.Err? then d else Did(d.exec.(progress := Completed), d.out)
    else
      var d := Dispatch(page, req, i, false, e, NativeAction(f, note.strategy, ref));
      if d.out.Err? then Did(d.exec, Err(d.out.failure))
      else if d.exec.progress.NotStarted? then Did(d.exec, Own(EngineUnsupported))
      else Did(d.exec.(progress := Completed), Ok(note.expected))
  }

  datatype Verdict = Matches | Withheld | Differs

  /** The written node must still be the field's own, in its block, and hold the value. */
  function Judge(elements: seq<Element>, f: Field, note: Written, blocks: Blocks): Reached<Verdict> {
    var same := ByNode(elements, note.node);
    if same.None? || same.value.evidence.block != note.block then Reached(blocks, Own(StaleTarget))
    else
      var again := Resolve(elements, f.selector, blocks);
      if again.element.Err? then Reached(again.blocks, Err(again.element.failure))
      else if again.element.value.evidence.node != Some(note.node) then Reached(again.blocks, Own(StaleTarget))
      else if same.value.redacted then Reached(again.blocks, Ok(Withheld))
      else if IsCommitted(note.strategy, same.value, note.expected, f.content) then Reached(again.blocks, Ok(Matches))
      else Reached(again.blocks, Ok(Differs))
  }

  function VerifyOnce(page: Page, req: Request, f: Field, note: Written, s: Run): Step<Verdict> {
    var o := Observe(page, req, s);
    if o.out.Err? then Step(o.run, Err(o.out.failure))
    else
      var judged := Judge(o.out.value, f, note, o.run.blocks);
      Step(o.run.(blocks := judged.blocks), judged.out)
  }

  predicate Rereads(req: Request, once: Step<Verdict>, attempt: nat) {
    once.out == Ok(Differs) && req.policy.onVerifyFail.RetryReads? && attempt < req.policy.maxReobserve
  }

  function Verify(page: Page, req: Request, f: Field, note: Written, s: Run, attempt: nat): Step<Verdict>
    decreases req.policy.maxReobserve - attempt
  {
    var once := VerifyOnce(page, req, f, note, s);
    if Rereads(req, once, attempt) then Verify(page, req, f, note, once.run, attempt + 1) else once
  }

  datatype Ending = Hidden | Unchecked | Judged(verdict: Verdict) | Fails(failure: Failure)

  datatype Attempted = Attempted(exec: Exec, note: Option<Written>, ending: Ending)

  /** After the write: twice guarded, then verified unless the field asks for none. */
  function CheckField(page: Page, req: Request, f: Field, note: Written, e: Exec): Attempted {
    var g := Guard(page, req, e.run);
    if g.out.Err? then Attempted(WithRun(e, g.run), Some(note), Fails(g.out.failure))
    else
      var h := Guard(page, req, g.run);
      if h.out.Err? then Attempted(WithRun(e, h.run), Some(note), Fails(h.out.failure))
      else if !f.verified then Attempted(WithRun(e, h.run), Some(note), Unchecked)
      else
        var v := Verify(page, req, f, note, h.run, 0);
        Attempted(WithRun(e, v.run), Some(note), if v.out.Err? then Fails(v.out.failure) else Judged(v.out.value))
  }

  /** Guard, write, check. */
  function Perform(page: Page, req: Request, i: nat, f: Field, note: Written, ref: string, e: Exec): Attempted {
    var g := Guard(page, req, e.run);
    if g.out.Err? then Attempted(WithRun(e, g.run), Some(note), Fails(g.out.failure))
    else
      var w := WriteField(page, req, i, f, note, ref, WithRun(e, g.run));
      if w.out.Err? then Attempted(w.exec, Some(note), Fails(w.out.failure))
      else CheckField(page, req, f, note.(expected := w.out.value), w.exec)
  }

  function Untouched(s: Run): Exec { Exec(s, NotStarted, false, [], []) }

  function Attempt(page: Page, req: Request, i: nat, f: Field, expected: string, s: Run): Attempted {
    var found := FindField(page, req, f, s, 0);
    var e := Untouched(found.run);
    if found.out.Err? then Attempted(e, None, Fails(found.out.failure))
    else
      var control := found.out.value;
      var strategy := StrategyFor(control, f);
      if !control.visible || !control.enabled then Attempted(e, None, Hidden)
      else if !Truthy(control.evidence.node) || strategy.None?
      then Attempted(e, None, Fails(Failure(true, EngineUnsupported)))
      else
        var note := Written(control.evidence.node.value, control.evidence.block, strategy.value, expected);
        Perform(page, req, i, f, note, control.ref, e)
  }

  datatype FieldOutcome = Escaped(run: Run) | Finished(run: Run, receipt: Receipt, note: Option<Written>, stop: bool)

  function ReceiptOf(e: Exec, status: Status, error: Option<Code>): Receipt {
    Receipt(status, status.Verified?, error, e.navigation, false, e.removed, e.added)
  }

  /** What a failure leaves: `failed` only when nothing was sent, and `uncertain` otherwise. */
  function FailureReceipt(f: Field, e: Exec, failure: Failure): Receipt {
    var status :=
      if e.progress.NotStarted? then Failed
      else if failure == Failure(true, NavigationBlocked) && e.progress.Completed? && !f.verified then Unverified
      else Uncertain;
    ReceiptOf(e, status, Some(failure.code))
  }

  predicate SkipsAmbiguous(req: Request, e: Exec, failure: Failure) {
    !e.navigation && e.progress.NotStarted? && failure.code == TargetAmbiguous && req.policy.skipAmbiguous
  }

  /** A failure is recorded only while authority lasts; otherwise it escapes the run. */
  function Conclude(page: Page, req: Request, f: Field, a: Attempted): FieldOutcome {
    var e := a.exec;
    match a.ending
    case Hidden => Finished(e.run, ReceiptOf(e, Skipped, Some(TargetNotVisible)), a.note, false)
    case Unchecked => Finished(e.run, ReceiptOf(e, Unverified, None), a.note, false)
    case Judged(Matches) => Finished(e.run, ReceiptOf(e, Verified, None), a.note, false)
    case Judged(Withheld) => Finished(e.run, ReceiptOf(e, Unverified, None).(withheld := true), a.note, false)
    case Judged(Differs) =>
      Finished(e.run, ReceiptOf(e, Failed, Some(ValueMismatch)), a.note, !req.policy.onVerifyFail.SkipField?)
    case Fails(failure) =>
      var r := e.run.(tick := e.run.tick + 1);
      if page.lost(e.run.tick).Some? then Escaped(r)
      else if SkipsAmbiguous(req, e, failure) then Finished(r, ReceiptOf(e, Skipped, Some(failure.code)), a.note, false)
      else Finished(r, FailureReceipt(f, e, failure), a.note, true)
  }

  function RunField(page: Page, req: Request, i: nat, f: Field, expected: string, s: Run): FieldOutcome {
    Conclude(page, req, f, Attempt(page, req, i, f, expected, s))
  }

  // --- What one field keeps ----------------------------------------------------------------------------------

  /** The most acts one field can send, on any page. */
  function ActBound(f: Field): nat {
    match f.content
    case Text(_) => 1
    case Choice(_) => 3
    case ExactSet(chips) => MAX_MEMBERS + 3 * |chips|
  }

  function StrategyBound(f: Field, strategy: Strategy): nat {
    if IsWidget(strategy) then ActBound(f) else 1
  }

  lemma FindOnceWorks(page: Page, req: Request, i: nat, f: Field, s: Run)
    requires PinsHold(req, s.pins)
    ensures var r := FindOnce(page, req, f, s).run;
      Kept(page, req, i, 0, s, r) && PinsHold(req, r.pins) && r.acts == s.acts
  {
    ObserveEffect(page, req, s);
    ObserveKeeps(page, req, i, s);
    var o := Observe(page, req, s);
    if o.out.Ok? { ResolveKeepsBlocks(o.out.value, f.selector, o.run.blocks); }
  }

  /** A stretch of reads: nothing sent, everything kept. */
  ghost predicate OnlyRead(page: Page, req: Request, i: nat, s: Run, r: Run) {
    Kept(page, req, i, 0, s, r) && PinsHold(req, r.pins) && r.acts == s.acts
  }

  lemma OnlyReadTrans(page: Page, req: Request, i: nat, s: Run, q: Run, r: Run)
    requires OnlyRead(page, req, i, s, q) && OnlyRead(page, req, i, q, r)
    ensures OnlyRead(page, req, i, s, r)
  {
    KeptTrans(page, req, i, 0, 0, s, q, r);
  }

  lemma {:induction false} FindFieldReads(page: Page, req: Request, i: nat, f: Field, s: Run, attempt: nat)
    requires PinsHold(req, s.pins)
    ensures OnlyRead(page, req, i, s, FindField(page, req, f, s, attempt).run)
    decreases req.policy.maxReobserve - attempt
  {
    FindOnceWorks(page, req, i, f, s);
    var found := FindOnce(page, req, f, s);
    if MayAppear(found) && attempt < req.policy.maxReobserve {
      FindFieldReads(page, req, i, f, found.run, attempt + 1);
      OnlyReadTrans(page, req, i, s, found.run, FindField(page, req, f, s, attempt).run);
    }
  }

  lemma JudgeKeepsBlocks(elements: seq<Element>, f: Field, note: Written, blocks: Blocks)
    ensures BlocksKept(blocks, Judge(elements, f, note, blocks).blocks)
  {
    ResolveKeepsBlocks(elements, f.selector, blocks);
  }

  lemma PinningReads(page: Page, req: Request, i: nat, s: Run, r: Run, blocks: Blocks)
    requires OnlyRead(page, req, i, s, r) && BlocksKept(r.blocks, blocks)
    ensures OnlyRead(page, req, i, s, r.(blocks := blocks))
  {
  }

  lemma ObserveReads(page: Page, req: Request, i: nat, s: Run)
    requires PinsHold(req, s.pins)
    ensures OnlyRead(page, req, i, s, Observe(page, req, s).run)
  {
    ObserveEffect(page, req, s);
    ObserveKeeps(page, req, i, s);
  }

  lemma VerifyOnceReads(page: Page, req: Request, i: nat, f: Field, note: Written, s: Run)
    requires PinsHold(req, s.pins)
    ensures OnlyRead(page, req, i, s, VerifyOnce(page, req, f, note, s).run)
  {
    ObserveReads(page, req, i, s);
    var o := Observe(page, req, s);
    if o.out.Ok? {
      JudgeKeepsBlocks(o.out.value, f, note, o.run.blocks);
      PinningReads(page, req, i, s, o.run, Judge(o.out.value, f, note, o.run.blocks).blocks);
    }
  }

  lemma {:induction false} VerifyReads(page: Page, req: Request, i: nat, f: Field, note: Written, s: Run, attempt: nat)
    requires PinsHold(req, s.pins)
    ensures OnlyRead(page, req, i, s, Verify(page, req, f, note, s, attempt).run)
    decreases req.policy.maxReobserve - attempt
  {
    VerifyOnceReads(page, req, i, f, note, s);
    var once := VerifyOnce(page, req, f, note, s);
    if Rereads(req, once, attempt) {
      VerifyReads(page, req, i, f, note, once.run, attempt + 1);
      OnlyReadTrans(page, req, i, s, once.run, Verify(page, req, f, note, s, attempt).run);
    }
  }

  /** A stretch of reads is work of no act. */
  lemma ReadingWorks(page: Page, req: Request, i: nat, base: nat, e: Exec, r: Run)
    requires OnlyRead(page, req, i, e.run, r)
    ensures Worked(page, req, i, 0, base, e, WithRun(e, r))
  {
  }

  lemma GuardReads(page: Page, req: Request, i: nat, s: Run)
    requires PinsHold(req, s.pins)
    ensures OnlyRead(page, req, i, s, Guard(page, req, s).run)
  {
    GuardKeeps(page, req, i, s);
  }

  lemma CompletedWorks(page: Page, req: Request, i: nat, n: nat, base: nat, e: Exec, d: Exec)
    requires Worked(page, req, i, n, base, e, d)
    ensures Worked(page, req, i, n, base, e, d.(progress := Completed))
  {
  }

  /** A write that succeeded is complete; any write sends at most its strategy's acts. */
  lemma WriteFieldWorks(page: Page, req: Request, i: nat, base: nat, f: Field, note: Written, ref: string, e: Exec)
    requires PinsHold(req, e.run.pins) && e.removed == [] && e.added == []
    requires f.content.Text? ==> !IsWidget(note.strategy)
    ensures var d := WriteField(page, req, i, f, note, ref, e);
      Worked(page, req, i, StrategyBound(f, note.strategy), base, e, d.exec) && (d.out.Ok? ==> d.exec.progress.Completed?)
  {
    if IsWidget(note.strategy) {
      WidgetWorks(page, req, i, base, f, note, ref, e);
    } else {
      DispatchKeeps(page, req, i, false, e, NativeAction(f, note.strategy, ref));
      DispatchKeepsProgress(page, req, i, false, e, NativeAction(f, note.strategy, ref), base);
    }
  }

  lemma WidgetWorks(page: Page, req: Request, i: nat, base: nat, f: Field, note: Written, ref: string, e: Exec)
    requires PinsHold(req, e.run.pins) && e.removed == [] && e.added == []
    requires !f.content.Text? && IsWidget(note.strategy)
    ensures var d := WriteField(page, req, i, f, note, ref, e);
      Worked(page, req, i, ActBound(f), base, e, d.exec) && (d.out.Ok? ==> d.exec.progress.Completed?)
  {
    var target := TargetOf(f, note);
    match f.content {
      case ExactSet(chips) =>
        var initial, k := WriteExactSetWorks(page, req, i, base, target, chips, e);
        var d := WriteExactSet(page, req, i, target, chips, e);
        WorkedMore(page, req, i, |Without(initial, chips)| + 3 * |chips|, ActBound(f), base, e, d.exec);
        CompletedWorks(page, req, i, ActBound(f), base, e, d.exec);
      case Choice(value) =>
        TypeaheadWorks(page, req, i, base, target, value, ref, e);
        CompletedWorks(page, req, i, 3, base, e, Typeahead(page, req, i, target, value, ref, e).exec);
      case Text(_) =>
    }
  }

  lemma CheckFieldReads(page: Page, req: Request, i: nat, base: nat, f: Field, note: Written, e: Exec)
    requires PinsHold(req, e.run.pins)
    ensures var a := CheckField(page, req, f, note, e);
      && Worked(page, req, i, 0, base, e, a.exec) && a.exec.progress == e.progress
      && a.exec.run.acts == e.run.acts && a.note == Some(note) && SameEffects(e, a.exec) && !a.ending.Hidden?
      && (a.ending.Unchecked? ==> !f.verified)
  {
    GuardReads(page, req, i, e.run);
    var g := Guard(page, req, e.run).run;
    GuardReads(page, req, i, g);
    var h := Guard(page, req, g).run;
    OnlyReadTrans(page, req, i, e.run, g, h);
    VerifyReads(page, req, i, f, note, h, 0);
    OnlyReadTrans(page, req, i, e.run, h, Verify(page, req, f, note, h, 0).run);
    ReadingWorks(page, req, i, base, e, CheckField(page, req, f, note, e).exec.run);
  }

  /** What an attempt on a field amounts to: bounded work, and a judgement only of a complete write. */
  ghost predicate AttemptHolds(page: Page, req: Request, i: nat, f: Field, s: Run, a: Attempted) {
    && Worked(page, req, i, ActBound(f), |s.acts|, Untouched(s), a.exec)
    && ProgressHolds(a.exec, |s.acts|)
    && (a.note.None? || a.ending.Hidden? ==> a.exec.run.acts == s.acts && a.exec.progress.NotStarted?)
    && (a.note.Some? ==> |a.exec.run.acts| <= |s.acts| + StrategyBound(f, a.note.value.strategy))
    && (a.ending.Judged? ==> a.note.Some?)
    && (a.ending.Unchecked? ==> !f.verified)
  }

  lemma PerformWorks(page: Page, req: Request, i: nat, base: nat, f: Field, note: Written, ref: string, e: Exec)
    requires PinsHold(req, e.run.pins) && e.removed == [] && e.added == []
    requires f.content.Text? ==> !IsWidget(note.strategy)
    ensures var a := Perform(page, req, i, f, note, ref, e);
      && Worked(page, req, i, StrategyBound(f, note.strategy), base, e, a.exec)
      && a.note.Some? && a.note.value.strategy == note.strategy && !a.ending.Hidden?
      && (a.ending.Unchecked? ==> !f.verified)
  {
    var n := StrategyBound(f, note.strategy);
    var g := Guard(page, req, e.run).run;
    GuardReads(page, req, i, e.run);
    ReadingWorks(page, req, i, base, e, g);
    WorkedMore(page, req, i, 0, n, base, e, WithRun(e, g));
    if Guard(page, req, e.run).out.Ok? {
      var w := WriteField(page, req, i, f, note, ref, WithRun(e, g));
      WriteFieldWorks(page, req, i, base, f, note, ref, WithRun(e, g));
      WorkedTrans(page, req, i, 0, n, base, e, WithRun(e, g), w.exec);
      if w.out.Ok? {
        var final := note.(expected := w.out.value);
        WorkedPins(page, req, i, n, base, e, w.exec);
        CheckFieldReads(page, req, i, base, f, final, w.exec);
        WorkedTrans(page, req, i, n, 0, base, e, w.exec, CheckField(page, req, f, final, w.exec).exec);
      }
    }
  }

  lemma TextIsNative(e: Element, f: Field)
    requires f.content.Text? && StrategyFor(e, f).Some?
    ensures !IsWidget(StrategyFor(e, f).value)
  {
  }

  lemma AttemptWorks(page: Page, req: Request, i: nat, f: Field, expected: string, s: Run)
    requires PinsHold(req, s.pins)
    ensures AttemptHolds(page, req, i, f, s, Attempt(page, req, i, f, expected, s))
  {
    var base := |s.acts|;
    var found := FindField(page, req, f, s, 0);
    var e := Untouched(found.run);
    FindFieldReads(page, req, i, f, s, 0);
    ReadingWorks(page, req, i, base, Untouched(s), found.run);
    WorkedMore(page, req, i, 0, ActBound(f), base, Untouched(s), e);
    if found.out.Ok? {
      var c := found.out.value;
      if c.visible && c.enabled && Truthy(c.evidence.node) && StrategyFor(c, f).Some? {
        var note := Written(c.evidence.node.value, c.evidence.block, StrategyFor(c, f).value, expected);
        if f.content.Text? { TextIsNative(c, f); }
        PerformWorks(page, req, i, base, f, note, c.ref, e);
        var a := Perform(page, req, i, f, note, c.ref, e);
        WorkedTrans(page, req, i, 0, StrategyBound(f, note.strategy), base, Untouched(s), e, a.exec);
        WorkedMore(page, req, i, StrategyBound(f, note.strategy), ActBound(f), base, Untouched(s), a.exec);
      }
    }
  }

  // --- What a receipt means ----------------------------------------------------------------------------------

  /** A receipt against the acts sent for its field, from act `n` on. */
  predicate ReceiptHolds(f: Field, r: Receipt, note: Option<Written>, acts: seq<Act>, n: nat) {
    && n <= |acts| && |acts| - n <= ActBound(f)
    && (note.Some? ==> |acts| - n <= StrategyBound(f, note.value.strategy))
    && (note.None? ==> |acts| == n)
    && (r.verified <==> r.status.Verified?)
    && (r.verified ==> note.Some?)
    && (r.status.Failed? && r.error != Some(ValueMismatch) ==> Unsignalled(acts, n))
    && (r.status.Skipped? ==> Unsignalled(acts, n))
    && (r.status.Unverified? && f.verified ==> r.withheld)
    && (r.status.Failed? || r.status.Uncertain? || r.status.Skipped? ==> r.error.Some?)
    && !r.status.NotAttempted?
  }

  /** When a field stops the run: it failed, or cannot tell, unless the policy skips mismatches; or its
    * write was cut short by a blocked navigation. */
  predicate Stopping(req: Request, r: Receipt) {
    || r.status.Uncertain?
    || (r.status.Failed? && !(r.error == Some(ValueMismatch) && req.policy.onVerifyFail.SkipField?))
    || (r.status.Unverified? && r.error.Some?)
  }

  ghost predicate FieldHolds(page: Page, req: Request, i: nat, f: Field, s: Run, o: FieldOutcome) {
    && Kept(page, req, i, ActBound(f), s, o.run) && PinsHold(req, o.run.pins)
    && (o.Finished? ==>
      && ReceiptHolds(f, o.receipt, o.note, o.run.acts, |s.acts|)
      && (Stopping(req, o.receipt) ==> o.stop))
  }

  lemma ConcludeHolds(page: Page, req: Request, i: nat, f: Field, s: Run, a: Attempted)
    requires AttemptHolds(page, req, i, f, s, a)
    requires a.ending.Hidden? ==> a.note.None?
    ensures FieldHolds(page, req, i, f, s, Conclude(page, req, f, a))
  {
    var o := Conclude(page, req, f, a);
    ConcludeOnlyWaits(page, req, f, a);
    WaitingKeeps(page, req, i, a.exec.run, o.run.tick);
    KeptTrans(page, req, i, ActBound(f), 0, s, a.exec.run, o.run);
    if o.Finished? { ConcludedReceiptHolds(page, req, i, f, s, a); }
  }

  lemma ConcludeOnlyWaits(page: Page, req: Request, f: Field, a: Attempted)
    ensures var o := Conclude(page, req, f, a);
      a.exec.run.tick <= o.run.tick && o.run == a.exec.run.(tick := o.run.tick)
  {
  }

  lemma ConcludedReceiptHolds(page: Page, req: Request, i: nat, f: Field, s: Run, a: Attempted)
    requires |s.acts| <= |a.exec.run.acts| <= |s.acts| + ActBound(f) && ProgressHolds(a.exec, |s.acts|)
    requires a.note.None? || a.ending.Hidden? ==> a.exec.run.acts == s.acts && a.exec.progress.NotStarted?
    requires a.note.Some? ==> |a.exec.run.acts| <= |s.acts| + StrategyBound(f, a.note.value.strategy)
    requires (a.ending.Judged? ==> a.note.Some?) && (a.ending.Hidden? ==> a.note.None?)
    requires a.ending.Unchecked? ==> !f.verified
    ensures var o := Conclude(page, req, f, a);
      o.Finished? ==> ReceiptHolds(f, o.receipt, o.note, a.exec.run.acts, |s.acts|) && (Stopping(req, o.receipt) ==> o.stop)
  {
  }

  /** On any page: what running one field does. */
  lemma RunFieldHolds(page: Page, req: Request, i: nat, f: Field, expected: string, s: Run)
    requires PinsHold(req, s.pins)
    ensures FieldHolds(page, req, i, f, s, RunField(page, req, i, f, expected, s))
  {
    AttemptWorks(page, req, i, f, expected, s);
    HiddenHasNoNote(page, req, i, f, expected, s);
    ConcludeHolds(page, req, i, f, s, Attempt(page, req, i, f, expected, s));
  }

  lemma HiddenHasNoNote(page: Page, req: Request, i: nat, f: Field, expected: string, s: Run)
    ensures var a := Attempt(page, req, i, f, expected, s); a.ending.Hidden? ==> a.note.None?
  {
  }

  // --- What is recorded was seen -------------------------------------------------------------------------------

  /** None of these acts was for field `i`. */
  predicate NoneOf(acts: seq<Act>, i: nat) {
    forall a :: 0 <= a < |acts| ==> acts[a].field != i
  }

  /** Field `i` has sent nothing yet. */
  predicate Unsent(s: Run, i: nat) { Timed(s) && NoneOf(s.acts, i) }

  /** Before the field's first act a complete view showed this membership; the acts are no more than removing
    * what is too much of it and adding each value takes, and the removals begin what is too much, in order. */
  ghost predicate WrittenFrom(
    page: Page, i: nat, target: Target, labels: seq<string>, s: Run, removed: seq<string>,
    n: nat, t: nat, initial: seq<string>)
  {
    && InGap(s, n, t) && NoneOf(s.acts[..n], i) && MembersSeen(page, target, s.acts[..n], t, initial)
    && CountOf(s.acts, i) <= |Without(initial, labels)| + 3 * |labels|
    && removed <= Without(initial, labels)
  }

  ghost predicate SetBounded(
    page: Page, i: nat, target: Target, labels: seq<string>, s: Run, removed: seq<string>)
  {
    || (NoneOf(s.acts, i) && removed == [])
    || exists n: nat, t: nat, initial: seq<string> :: WrittenFrom(page, i, target, labels, s, removed, n, t, initial)
  }

  /** Later acts are for later fields, and later. */
  ghost predicate GrewLater(s: Run, r: Run, i: nat) {
    && |s.acts| <= |r.acts| && r.acts[..|s.acts|] == s.acts && s.tick <= r.tick && Placed(s, r)
    && forall a :: |s.acts| <= a < |r.acts| ==> r.acts[a].field != i
  }

  lemma SetBoundStays(
    page: Page, i: nat, target: Target, labels: seq<string>, s: Run, r: Run, removed: seq<string>)
    requires SetBounded(page, i, target, labels, s, removed) && GrewLater(s, r, i)
    ensures SetBounded(page, i, target, labels, r, removed)
  {
    if NoneOf(s.acts, i) && removed == [] {
      assert forall a :: 0 <= a < |s.acts| ==> r.acts[a] == r.acts[..|s.acts|][a];
    } else {
      var n: nat, t: nat, initial: seq<string> :| WrittenFrom(page, i, target, labels, s, removed, n, t, initial);
      GapStays(s, r, n, t);
      CountInPrefix(s.acts, r.acts, i);
      assert WrittenFrom(page, i, target, labels, r, removed, n, t, initial);
    }
  }

  /** The bound as the write establishes it. */
  lemma WriteIsBounded(
    page: Page, req: Request, i: nat, target: Target, labels: seq<string>, s: Run, first: Run, d: Run,
    initial: seq<string>, removed: seq<string>)
    requires Unsent(s, i) && first.acts == s.acts && SeenBetween(page, target, s, first, initial)
    requires Kept(page, req, i, |Without(initial, labels)| + 3 * |labels|, first, d)
    requires removed <= Without(initial, labels)
    ensures SetBounded(page, i, target, labels, d, removed)
  {
    var t: nat :| s.tick <= t < first.tick && MembersSeen(page, target, s.acts, t, initial);
    var n := |s.acts|;
    assert s.acts[..n] == s.acts;
    assert InGap(first, n, t);
    GapStays(first, d, n, t);
    CountNone(s.acts, i);
    CountInPrefix(s.acts, d.acts, i);
    assert WrittenFrom(page, i, target, labels, d, removed, n, t, initial);
  }

  lemma ExactSetIsBounded(
    page: Page, req: Request, i: nat, target: Target, labels: seq<string>, e: Exec)
    requires PinsHold(req, e.run.pins) && e.removed == [] && e.added == [] && Unsent(e.run, i)
    ensures var d := WriteExactSet(page, req, i, target, labels, e).exec;
      SetBounded(page, i, target, labels, d.run, d.removed)
  {
    var first := InitialMembers(page, req, target, e);
    var d := WriteExactSet(page, req, i, target, labels, e).exec;
    WriteExactSetFrom(page, req, i, target, labels, e);
    if first.out.Ok? {
      InitialIsSeen(page, req, target, e);
      WriteIsBounded(page, req, i, target, labels, e.run, first.exec.run, d.run, first.out.value, d.removed);
    }
  }

  /** Every effect recorded for a field was asked for, and seen on the page right after an act of the field;
    * and its acts are bounded by what the page showed before the first of them. */
  ghost predicate EffectsHold(
    page: Page, i: nat, f: Field, note: Option<Written>, s: Run, removed: seq<string>, added: seq<string>)
  {
    if f.content.ExactSet? && note.Some? then
      var target := TargetOf(f, note.value);
      && AllConfirmed(page, i, target, s, removed, false) && (forall c | c in removed :: c !in f.content.labels)
      && AllConfirmed(page, i, target, s, added, true) && (forall c | c in added :: c in f.content.labels)
      && SetBounded(page, i, target, f.content.labels, s, removed)
    else removed == [] && added == []
  }

  lemma AllConfirmedStays(page: Page, i: nat, target: Target, s: Run, r: Run, chips: seq<string>, present: bool)
    requires AllConfirmed(page, i, target, s, chips, present)
    requires |s.acts| <= |r.acts| && r.acts[..|s.acts|] == s.acts && s.tick <= r.tick && Placed(s, r)
    ensures AllConfirmed(page, i, target, r, chips, present)
  {
    forall c | c in chips ensures Confirmed(page, i, target, r, c, present) {
      ConfirmedStays(page, i, target, s, r, c, present);
    }
  }

  /** Later acts are later; what was seen was seen. */
  lemma EffectsStay(
    page: Page, i: nat, f: Field, note: Option<Written>, s: Run, r: Run, removed: seq<string>, added: seq<string>)
    requires EffectsHold(page, i, f, note, s, removed, added) && GrewLater(s, r, i)
    ensures EffectsHold(page, i, f, note, r, removed, added)
  {
    if f.content.ExactSet? && note.Some? {
      AllConfirmedStays(page, i, TargetOf(f, note.value), s, r, removed, false);
      AllConfirmedStays(page, i, TargetOf(f, note.value), s, r, added, true);
      SetBoundStays(page, i, TargetOf(f, note.value), f.content.labels, s, r, removed);
    }
  }

  lemma NoEffects(page: Page, i: nat, f: Field, note: Option<Written>, s: Run)
    requires f.content.ExactSet? && note.Some? ==> NoneOf(s.acts, i)
    ensures EffectsHold(page, i, f, note, s, [], [])
  {
  }

  lemma WriteFieldConfirms(page: Page, req: Request, i: nat, base: nat, f: Field, note: Written, ref: string, e: Exec)
    requires PinsHold(req, e.run.pins) && e.removed == [] && e.added == [] && Unsent(e.run, i)
    requires f.content.Text? ==> !IsWidget(note.strategy)
    requires f.content.ExactSet? ==> IsWidget(note.strategy)
    ensures var d := WriteField(page, req, i, f, note, ref, e).exec;
      EffectsHold(page, i, f, Some(note), d.run, d.removed, d.added)
  {
    var d := WriteField(page, req, i, f, note, ref, e).exec;
    if !IsWidget(note.strategy) {
      DispatchKeepsProgress(page, req, i, false, e, NativeAction(f, note.strategy, ref), base);
      NoEffects(page, i, f, Some(note), d.run);
    } else if f.content.ExactSet? {
      var initial, k := WriteExactSetWorks(page, req, i, base, TargetOf(f, note), f.content.labels, e);
      ExactSetIsBounded(page, req, i, TargetOf(f, note), f.content.labels, e);
    } else {
      TypeaheadWorks(page, req, i, base, TargetOf(f, note), f.content.value, ref, e);
      NoEffects(page, i, f, Some(note), d.run);
    }
  }

  lemma OnlyReadIsLater(page: Page, req: Request, i: nat, s: Run, r: Run)
    requires OnlyRead(page, req, i, s, r)
    ensures GrewLater(s, r, i) && (Unsent(s, i) ==> Unsent(r, i))
  {
  }

  /** A look keeps what was seen. */
  lemma CheckFieldConfirms(page: Page, req: Request, i: nat, base: nat, f: Field, note: Written, e: Exec)
    requires PinsHold(req, e.run.pins) && EffectsHold(page, i, f, Some(note), e.run, e.removed, e.added)
    ensures var a := CheckField(page, req, f, note, e);
      a.note == Some(note) && EffectsHold(page, i, f, a.note, a.exec.run, a.exec.removed, a.exec.added)
  {
    CheckFieldReads(page, req, i, base, f, note, e);
    EffectsStay(page, i, f, Some(note), e.run, CheckField(page, req, f, note, e).exec.run, e.removed, e.added);
  }

  lemma PerformConfirms(page: Page, req: Request, i: nat, base: nat, f: Field, note: Written, ref: string, e: Exec)
    requires PinsHold(req, e.run.pins) && e.removed == [] && e.added == [] && Unsent(e.run, i)
    requires f.content.Text? ==> !IsWidget(note.strategy)
    requires f.content.ExactSet? ==> IsWidget(note.strategy)
    ensures var a := Perform(page, req, i, f, note, ref, e);
      EffectsHold(page, i, f, a.note, a.exec.run, a.exec.removed, a.exec.added)
  {
    var g := Guard(page, req, e.run).run;
    GuardReads(page, req, i, e.run);
    OnlyReadIsLater(page, req, i, e.run, g);
    if Guard(page, req, e.run).out.Err? {
      NoEffects(page, i, f, Some(note), g);
    } else {
      var w := WriteField(page, req, i, f, note, ref, WithRun(e, g));
      WriteFieldConfirms(page, req, i, base, f, note, ref, WithRun(e, g));
      if w.out.Ok? {
        WriteFieldWorks(page, req, i, base, f, note, ref, WithRun(e, g));
        WorkedPins(page, req, i, StrategyBound(f, note.strategy), base, WithRun(e, g), w.exec);
        ExpectedDoesNotMatter(page, i, f, note, w.out.value, w.exec);
        CheckFieldConfirms(page, req, i, base, f, note.(expected := w.out.value), w.exec);
      }
    }
  }

  lemma ExpectedDoesNotMatter(page: Page, i: nat, f: Field, note: Written, expected: string, e: Exec)
    requires EffectsHold(page, i, f, Some(note), e.run, e.removed, e.added)
    ensures EffectsHold(page, i, f, Some(note.(expected := expected)), e.run, e.removed, e.added)
  {
    assert TargetOf(f, note.(expected := expected)) == TargetOf(f, note);
  }

  lemma ExactSetIsWidget(e: Element, f: Field)
    requires f.content.ExactSet? && StrategyFor(e, f).Some?
    ensures IsWidget(StrategyFor(e, f).value)
  {
  }

  lemma AttemptConfirms(page: Page, req: Request, i: nat, f: Field, expected: string, s: Run)
    requires PinsHold(req, s.pins) && Unsent(s, i)
    ensures var a := Attempt(page, req, i, f, expected, s);
      EffectsHold(page, i, f, a.note, a.exec.run, a.exec.removed, a.exec.added)
  {
    var found := FindField(page, req, f, s, 0);
    FindFieldReads(page, req, i, f, s, 0);
    OnlyReadIsLater(page, req, i, s, found.run);
    NoEffects(page, i, f, None, found.run);
    if found.out.Ok? {
      var c := found.out.value;
      if c.visible && c.enabled && Truthy(c.evidence.node) && StrategyFor(c, f).Some? {
        var note := Written(c.evidence.node.value, c.evidence.block, StrategyFor(c, f).value, expected);
        if f.content.Text? { TextIsNative(c, f); }
        if f.content.ExactSet? { ExactSetIsWidget(c, f); }
        PerformConfirms(page, req, i, |s.acts|, f, note, c.ref, Untouched(found.run));
      }
    }
  }

  /** The effects on a receipt. */
  ghost predicate ReceiptConfirmed(page: Page, i: nat, f: Field, r: Receipt, note: Option<Written>, s: Run) {
    EffectsHold(page, i, f, note, s, r.removed, r.added)
  }

  /** Concluding records exactly the effects of the attempt. */
  lemma ConcludeRecords(page: Page, req: Request, f: Field, a: Attempted)
    ensures var o := Conclude(page, req, f, a);
      && o.run.acts == a.exec.run.acts && a.exec.run.tick <= o.run.tick
      && (o.Finished? ==> o.note == a.note && o.receipt.removed == a.exec.removed && o.receipt.added == a.exec.added)
  {
  }

  lemma RunFieldConfirms(page: Page, req: Request, i: nat, f: Field, expected: string, s: Run)
    requires PinsHold(req, s.pins) && Unsent(s, i)
    ensures var o := RunField(page, req, i, f, expected, s);
      o.Finished? ==> ReceiptConfirmed(page, i, f, o.receipt, o.note, o.run)
  {
    var a := Attempt(page, req, i, f, expected, s);
    AttemptConfirms(page, req, i, f, expected, s);
    ConcludeRecords(page, req, f, a);
    var o := Conclude(page, req, f, a);
    assert o.run.acts[..|o.run.acts|] == o.run.acts;
    EffectsStay(page, i, f, a.note, a.exec.run, o.run, a.exec.removed, a.exec.added);
  }

  // --- Every field in turn ---------------------------------------------------------------------------------------

  /** The fields' phase; `notes` is history: what the run committed to for each field. */
  datatype Pass = Pass(run: Run, receipts: seq<Receipt>, notes: seq<Option<Written>>, escaped: bool)

  function Rest<T>(n: nat, x: T): (r: seq<T>)
    ensures |r| == n && forall k :: 0 <= k < n ==> r[k] == x
  {
    if n == 0 then [] else [x] + Rest(n - 1, x)
  }

  /** The fields from `k` on, left alone. */
  function LeftAlone(req: Request, k: nat, s: Run): Pass
    requires k <= |req.fields|
  {
    Pass(s, Rest(|req.fields| - k, UNTOUCHED), Rest(|req.fields| - k, None), false)
  }

  function Join(o: FieldOutcome, rest: Pass): Pass
    requires o.Finished?
  {
    Pass(rest.run, [o.receipt] + rest.receipts, [o.note] + rest.notes, rest.escaped)
  }

  function RunFields(page: Page, req: Request, values: seq<string>, k: nat, s: Run): (p: Pass)
    requires k <= |req.fields| == |values|
    ensures !p.escaped ==> |p.receipts| == |p.notes| == |req.fields| - k
    decreases |req.fields| - k
  {
    if k == |req.fields| then Pass(s, [], [], false)
    else
      var o := RunField(page, req, k, req.fields[k], values[k], s);
      if o.Escaped? then Pass(o.run, [], [], true)
      else Join(o, if o.stop then LeftAlone(req, k + 1, o.run) else RunFields(page, req, values, k + 1, o.run))
  }

  /** The number of acts sent for field `i`. */
  function CountOf(acts: seq<Act>, i: nat): nat {
    if acts == [] then 0
    else CountOf(acts[..|acts| - 1], i) + (if acts[|acts| - 1].field == i then 1 else 0)
  }

  /** Acts in the order of their fields, each sent while time was left. */
  predicate Orderly(acts: seq<Act>, timeoutMs: int) {
    && (forall a, b :: 0 <= a <= b < |acts| ==> acts[a].field <= acts[b].field)
    && (forall a :: 0 <= a < |acts| ==> acts[a].at < timeoutMs)
  }

  /** All acts so far were for fields before `k`. */
  predicate Before(acts: seq<Act>, k: nat) {
    forall a :: 0 <= a < |acts| ==> acts[a].field < k
  }

  /** New acts are for field `k` or later ones. */
  predicate GrewFrom(was: seq<Act>, now: seq<Act>, k: nat) {
    |was| <= |now| && now[..|was|] == was && forall a :: |was| <= a < |now| ==> now[a].field >= k
  }

  predicate NothingSignalled(acts: seq<Act>, i: nat) {
    forall a :: 0 <= a < |acts| && acts[a].field == i ==> !acts[a].signalled
  }

  /** A receipt against all the acts of the run: how many its field sent, and when none was signalled. */
  predicate Accounted(f: Field, i: nat, r: Receipt, note: Option<Written>, acts: seq<Act>) {
    && CountOf(acts, i) <= ActBound(f)
    && (note.Some? ==> CountOf(acts, i) <= StrategyBound(f, note.value.strategy))
    && (note.None? || r.status.NotAttempted? ==> CountOf(acts, i) == 0)
    && (r.verified <==> r.status.Verified?)
    && (r.verified ==> note.Some?)
    && (r.status.Failed? && r.error != Some(ValueMismatch) ==> NothingSignalled(acts, i))
    && (r.status.Skipped? ==> NothingSignalled(acts, i))
    && (r.status.Unverified? && f.verified ==> r.withheld)
  }

  lemma {:induction false} CountInPrefix(was: seq<Act>, now: seq<Act>, i: nat)
    requires |was| <= |now| && now[..|was|] == was
    ensures CountOf(was, i) <= CountOf(now, i) <= CountOf(was, i) + (|now| - |was|)
    ensures (forall a :: |was| <= a < |now| ==> now[a].field != i) ==> CountOf(now, i) == CountOf(was, i)
    decreases |now|
  {
    if |was| < |now| {
      var n := |now| - 1;
      assert now[..n][..|was|] == was;
      CountInPrefix(was, now[..n], i);
    } else {
      assert now[..|was|] == now;
    }
  }

  lemma {:induction false} CountNone(acts: seq<Act>, i: nat)
    requires forall a :: 0 <= a < |acts| ==> acts[a].field != i
    ensures CountOf(acts, i) == 0
  {
    if acts != [] { CountNone(acts[..|acts| - 1], i); }
  }

  lemma FieldIsAccounted(req: Request, f: Field, i: nat, was: seq<Act>, now: seq<Act>, r: Receipt, note: Option<Written>)
    requires Before(was, i) && Grew(was, now, i, ActBound(f), req.policy.timeoutMs)
    requires ReceiptHolds(f, r, note, now, |was|)
    ensures Accounted(f, i, r, note, now)
  {
    CountNone(was, i);
    CountInPrefix(was, now, i);
    assert forall a :: 0 <= a < |was| ==> now[a] == now[..|was|][a];
  }

  lemma AccountedStays(f: Field, i: nat, r: Receipt, note: Option<Written>, was: seq<Act>, now: seq<Act>)
    requires Accounted(f, i, r, note, was) && GrewFrom(was, now, i + 1)
    ensures Accounted(f, i, r, note, now)
  {
    CountInPrefix(was, now, i);
    assert forall a :: 0 <= a < |was| ==> now[a] == now[..|was|][a];
  }

  lemma OrderlyGrows(was: seq<Act>, now: seq<Act>, i: nat, n: nat, timeoutMs: int)
    requires Orderly(was, timeoutMs) && Before(was, i) && Grew(was, now, i, n, timeoutMs)
    ensures Orderly(now, timeoutMs) && Before(now, i + 1) && GrewFrom(was, now, i)
  {
    assert forall a :: 0 <= a < |was| ==> now[a] == now[..|was|][a];
  }

  lemma GrewFromTrans(a: seq<Act>, b: seq<Act>, c: seq<Act>, k: nat)
    requires GrewFrom(a, b, k) && GrewFrom(b, c, k + 1)
    ensures GrewFrom(a, c, k)
  {
    assert c[..|a|] == b[..|a|];
    assert forall i :: |a| <= i < |b| ==> c[i] == c[..|b|][i];
  }

  lemma StateKeptTrans(page: Page, req: Request, s: Run, q: Run, r: Run)
    requires StateKept(page, req, s, q) && StateKept(page, req, q, r)
    ensures StateKept(page, req, s, r)
  {
  }

  /** No field from `k` on was written more often than its bound allows. */
  predicate NoneReplayed(req: Request, k: nat, acts: seq<Act>) {
    forall i :: k <= i < |req.fields| ==> CountOf(acts, i) <= ActBound(req.fields[i])
  }

  lemma NoneReplayedYet(req: Request, k: nat, acts: seq<Act>)
    requires Before(acts, k)
    ensures NoneReplayed(req, k, acts)
  {
    forall i | k <= i < |req.fields| ensures CountOf(acts, i) <= ActBound(req.fields[i]) {
      CountNone(acts, i);
    }
  }

  /** A field's own acts are within its bound, and the later fields' acts do not add to it. */
  lemma NoneReplayedJoins(req: Request, k: nat, was: seq<Act>, mid: seq<Act>, now: seq<Act>)
    requires k < |req.fields| && Before(was, k) && Grew(was, mid, k, ActBound(req.fields[k]), req.policy.timeoutMs)
    requires GrewFrom(mid, now, k + 1) && NoneReplayed(req, k + 1, now)
    ensures NoneReplayed(req, k, now)
  {
    CountNone(was, k);
    CountInPrefix(was, mid, k);
    CountInPrefix(mid, now, k);
  }

  /** What the fields from `k` on do, whatever the page does. */
  ghost predicate PassHolds(page: Page, req: Request, k: nat, s: Run, p: Pass) {
    && k <= |req.fields|
    && StateKept(page, req, s, p.run) && PinsHold(req, p.run.pins)
    && GrewFrom(s.acts, p.run.acts, k) && Orderly(p.run.acts, req.policy.timeoutMs)
    && NoneReplayed(req, k, p.run.acts)
    && (!p.escaped ==> |p.receipts| == |p.notes| == |req.fields| - k && AllAccounted(req, k, p))
  }

  predicate EndsRun(req: Request, r: Receipt) { Stopping(req, r) || r.status.NotAttempted? }

  predicate AllAccounted(req: Request, k: nat, p: Pass) {
    && k + |p.receipts| <= |req.fields| && |p.notes| == |p.receipts|
    && (forall j :: 0 <= j < |p.receipts| ==>
      Accounted(req.fields[k + j], k + j, p.receipts[j], p.notes[j], p.run.acts))
    && (forall i, j :: 0 <= i < j < |p.receipts| && EndsRun(req, p.receipts[i]) ==> p.receipts[j].status.NotAttempted?)
  }

  lemma UntouchedIsAccounted(f: Field, i: nat, acts: seq<Act>)
    requires forall a :: 0 <= a < |acts| ==> acts[a].field != i
    ensures Accounted(f, i, UNTOUCHED, None, acts)
  {
    CountNone(acts, i);
  }

  /** The fields after a stop are untouched. */
  lemma StoppedPassHolds(page: Page, req: Request, k: nat, r: Run)
    requires k <= |req.fields| && PinsHold(req, r.pins)
    requires Before(r.acts, k) && Orderly(r.acts, req.policy.timeoutMs)
    ensures PassHolds(page, req, k, r, LeftAlone(req, k, r))
  {
    var p := LeftAlone(req, k, r);
    assert r.acts[..|r.acts|] == r.acts;
    NoneReplayedYet(req, k, r.acts);
    forall j | 0 <= j < |p.receipts|
      ensures Accounted(req.fields[k + j], k + j, p.receipts[j], p.notes[j], r.acts)
    {
      UntouchedIsAccounted(req.fields[k + j], k + j, r.acts);
    }
  }

  /** One field in front of the rest. */
  lemma PassJoins(page: Page, req: Request, k: nat, s: Run, o: FieldOutcome, rest: Pass)
    requires k < |req.fields| && PinsHold(req, s.pins) && Before(s.acts, k) && Orderly(s.acts, req.policy.timeoutMs)
    requires o.Finished? && FieldHolds(page, req, k, req.fields[k], s, o)
    requires PassHolds(page, req, k + 1, o.run, rest)
    requires Stopping(req, o.receipt) && !rest.escaped ==>
      forall j :: 0 <= j < |rest.receipts| ==> rest.receipts[j].status.NotAttempted?
    ensures PassHolds(page, req, k, s, Join(o, rest))
  {
    var f := req.fields[k];
    OrderlyGrows(s.acts, o.run.acts, k, ActBound(f), req.policy.timeoutMs);
    FieldIsAccounted(req, f, k, s.acts, o.run.acts, o.receipt, o.note);
    AccountedStays(f, k, o.receipt, o.note, o.run.acts, rest.run.acts);
    GrewFromTrans(s.acts, o.run.acts, rest.run.acts, k);
    StateKeptTrans(page, req, s, o.run, rest.run);
    NoneReplayedJoins(req, k, s.acts, o.run.acts, rest.run.acts);
    if !rest.escaped {
      AllAccountedJoins(req, k, o.receipt, o.note, rest);
    }
  }

  lemma AllAccountedJoins(req: Request, k: nat, r: Receipt, note: Option<Written>, rest: Pass)
    requires k < |req.fields| && AllAccounted(req, k + 1, rest)
    requires Accounted(req.fields[k], k, r, note, rest.run.acts) && !r.status.NotAttempted?
    requires Stopping(req, r) ==> forall j :: 0 <= j < |rest.receipts| ==> rest.receipts[j].status.NotAttempted?
    ensures AllAccounted(req, k, Pass(rest.run, [r] + rest.receipts, [note] + rest.notes, rest.escaped))
  {
    var p := Pass(rest.run, [r] + rest.receipts, [note] + rest.notes, rest.escaped);
    forall j | 0 <= j < |p.receipts|
      ensures Accounted(req.fields[k + j], k + j, p.receipts[j], p.notes[j], p.run.acts)
    {
      if j > 0 {
        assert Accounted(req.fields[k + 1 + (j - 1)], k + 1 + (j - 1), rest.receipts[j - 1], rest.notes[j - 1], p.run.acts);
      }
    }
  }

  lemma RunFieldsStep(page: Page, req: Request, values: seq<string>, k: nat, s: Run, o: FieldOutcome)
    requires k < |req.fields| == |values|
    requires PinsHold(req, s.pins) && Before(s.acts, k) && Orderly(s.acts, req.policy.timeoutMs)
    requires o == RunField(page, req, k, req.fields[k], values[k], s)
    requires FieldHolds(page, req, k, req.fields[k], s, o)
    requires o.Finished? && !o.stop ==> PassHolds(page, req, k + 1, o.run, RunFields(page, req, values, k + 1, o.run))
    ensures PassHolds(page, req, k, s, RunFields(page, req, values, k, s))
  {
    OrderlyGrows(s.acts, o.run.acts, k, ActBound(req.fields[k]), req.policy.timeoutMs);
    if o.Escaped? {
      NoneReplayedYet(req, k + 1, o.run.acts);
      assert o.run.acts[..|o.run.acts|] == o.run.acts;
      NoneReplayedJoins(req, k, s.acts, o.run.acts, o.run.acts);
    } else {
      if o.stop {
        StoppedPassHolds(page, req, k + 1, o.run);
        PassJoins(page, req, k, s, o, LeftAlone(req, k + 1, o.run));
      } else {
        PassJoins(page, req, k, s, o, RunFields(page, req, values, k + 1, o.run));
      }
    }
  }

  /** From field `k` on: acts are later than those before, and every recorded effect was seen. */
  ghost predicate PassConfirms(page: Page, req: Request, k: nat, s: Run, p: Pass) {
    && Placed(s, p.run)
    && (!p.escaped ==>
      && |p.receipts| == |p.notes| == |req.fields| - k
      && forall j :: 0 <= j < |p.receipts| ==>
        ReceiptConfirmed(page, k + j, req.fields[k + j], p.receipts[j], p.notes[j], p.run))
  }

  lemma LeftAloneConfirms(page: Page, req: Request, k: nat, s: Run)
    requires k <= |req.fields|
    ensures PassConfirms(page, req, k, s, LeftAlone(req, k, s))
  {
    var p := LeftAlone(req, k, s);
    forall j | 0 <= j < |p.receipts|
      ensures ReceiptConfirmed(page, k + j, req.fields[k + j], p.receipts[j], p.notes[j], s)
    {
      NoEffects(page, k + j, req.fields[k + j], None, s);
    }
  }

  lemma ConfirmingJoins(page: Page, req: Request, k: nat, s: Run, o: FieldOutcome, rest: Pass)
    requires k < |req.fields| && o.Finished? && Placed(s, o.run)
    requires ReceiptConfirmed(page, k, req.fields[k], o.receipt, o.note, o.run)
    requires |s.acts| <= |o.run.acts| && s.tick <= o.run.tick
    requires GrewFrom(o.run.acts, rest.run.acts, k + 1) && o.run.tick <= rest.run.tick
    requires PassConfirms(page, req, k + 1, o.run, rest)
    ensures PassConfirms(page, req, k, s, Join(o, rest))
  {
    PlacedTrans(s, o.run, rest.run);
    EffectsStay(page, k, req.fields[k], o.note, o.run, rest.run, o.receipt.removed, o.receipt.added);
    if !rest.escaped {
      var p := Join(o, rest);
      forall j | 0 <= j < |p.receipts|
        ensures ReceiptConfirmed(page, k + j, req.fields[k + j], p.receipts[j], p.notes[j], p.run)
      {
        if j > 0 {
          assert ReceiptConfirmed(
            page, k + 1 + (j - 1), req.fields[k + 1 + (j - 1)], rest.receipts[j - 1], rest.notes[j - 1], rest.run);
        }
      }
    }
  }

  lemma RunFieldsConfirmsStep(page: Page, req: Request, values: seq<string>, k: nat, s: Run, o: FieldOutcome)
    requires k < |req.fields| == |values|
    requires o == RunField(page, req, k, req.fields[k], values[k], s)
    requires FieldHolds(page, req, k, req.fields[k], s, o)
    requires o.Finished? ==> ReceiptConfirmed(page, k, req.fields[k], o.receipt, o.note, o.run)
    requires o.Finished? && !o.stop ==>
      var rest := RunFields(page, req, values, k + 1, o.run);
      PassHolds(page, req, k + 1, o.run, rest) && PassConfirms(page, req, k + 1, o.run, rest)
    ensures PassConfirms(page, req, k, s, RunFields(page, req, values, k, s))
  {
    RunFieldsUnrolls(page, req, values, k, s);
    if o.Finished? {
      if o.stop {
        LeftAloneConfirms(page, req, k + 1, o.run);
        assert o.run.acts[..|o.run.acts|] == o.run.acts;
        ConfirmingJoins(page, req, k, s, o, LeftAlone(req, k + 1, o.run));
      } else {
        ConfirmingJoins(page, req, k, s, o, RunFields(page, req, values, k + 1, o.run));
      }
    }
  }

  /** For every page: each removal and each addition on a receipt was asked for, and a complete view showed
    * it right after an act of its field; the acts of an exact set are bounded by the membership a complete
    * view showed before the first of them. */
  lemma {:induction false} RunFieldsConfirms(page: Page, req: Request, values: seq<string>, k: nat, s: Run)
    requires k <= |req.fields| == |values|
    requires PinsHold(req, s.pins) && Before(s.acts, k) && Orderly(s.acts, req.policy.timeoutMs)
    requires ScopeHolds(page, req, s)
    ensures PassConfirms(page, req, k, s, RunFields(page, req, values, k, s))
    decreases |req.fields| - k
  {
    if k < |req.fields| {
      var o := RunField(page, req, k, req.fields[k], values[k], s);
      RunFieldHolds(page, req, k, req.fields[k], values[k], s);
      RunFieldConfirms(page, req, k, req.fields[k], values[k], s);
      OrderlyGrows(s.acts, o.run.acts, k, ActBound(req.fields[k]), req.policy.timeoutMs);
      if o.Finished? && !o.stop {
        RunFieldsHolds(page, req, values, k + 1, o.run);
        RunFieldsConfirms(page, req, values, k + 1, o.run);
      }
      RunFieldsConfirmsStep(page, req, values, k, s, o);
    }
  }

  /** What is recorded so far, and then the rest. */
  function After(receipts: seq<Receipt>, notes: seq<Option<Written>>, rest: Pass): Pass {
    if rest.escaped then rest else Pass(rest.run, receipts + rest.receipts, notes + rest.notes, false)
  }

  /** The same ending, and unless it escaped the same record. */
  predicate Alike(a: Pass, b: Pass) {
    a.run == b.run && a.escaped == b.escaped && (!a.escaped ==> a.receipts == b.receipts && a.notes == b.notes)
  }

  lemma AfterNothing(rest: Pass)
    ensures Alike(rest, After([], [], rest))
  {
    assert [] + rest.receipts == rest.receipts && [] + rest.notes == rest.notes;
  }

  /** One field done: its record joins those before, and the rest goes on from its run. */
  lemma AfterField(
    page: Page, req: Request, values: seq<string>, k: nat, s: Run, receipts: seq<Receipt>, notes: seq<Option<Written>>,
    o: FieldOutcome)
    requires k < |req.fields| == |values| && o == RunField(page, req, k, req.fields[k], values[k], s)
    ensures var whole := After(receipts, notes, RunFields(page, req, values, k, s));
      if o.Escaped? then whole.escaped && whole.run == o.run
      else
        var rest := if o.stop then LeftAlone(req, k + 1, o.run) else RunFields(page, req, values, k + 1, o.run);
        Alike(whole, After(receipts + [o.receipt], notes + [o.note], rest))
  {
    RunFieldsUnrolls(page, req, values, k, s);
    if o.Finished? {
      AfterJoin(receipts, notes, o,
        if o.stop then LeftAlone(req, k + 1, o.run) else RunFields(page, req, values, k + 1, o.run));
    }
  }

  lemma AfterJoin(receipts: seq<Receipt>, notes: seq<Option<Written>>, o: FieldOutcome, rest: Pass)
    requires o.Finished?
    ensures Alike(After(receipts, notes, Join(o, rest)), After(receipts + [o.receipt], notes + [o.note], rest))
  {
    assert receipts + ([o.receipt] + rest.receipts) == receipts + [o.receipt] + rest.receipts;
    assert notes + ([o.note] + rest.notes) == notes + [o.note] + rest.notes;
  }

  lemma RunFieldsUnrolls(page: Page, req: Request, values: seq<string>, k: nat, s: Run)
    requires k < |req.fields| == |values|
    ensures var o := RunField(page, req, k, req.fields[k], values[k], s);
      RunFields(page, req, values, k, s) ==
        if o.Escaped? then Pass(o.run, [], [], true)
        else Join(o, if o.stop then LeftAlone(req, k + 1, o.run) else RunFields(page, req, values, k + 1, o.run))
  {
  }

  /** For every page: acts bounded per field and in field order, none replayed, none after the deadline;
    * receipts accounted for; and nothing attempted after a field that stops the run. */
  lemma {:induction false} RunFieldsHolds(page: Page, req: Request, values: seq<string>, k: nat, s: Run)
    requires k <= |req.fields| == |values|
    requires PinsHold(req, s.pins) && Before(s.acts, k) && Orderly(s.acts, req.policy.timeoutMs)
    ensures PassHolds(page, req, k, s, RunFields(page, req, values, k, s))
    decreases |req.fields| - k
  {
    if k < |req.fields| {
      var o := RunField(page, req, k, req.fields[k], values[k], s);
      RunFieldHolds(page, req, k, req.fields[k], values[k], s);
      OrderlyGrows(s.acts, o.run.acts, k, ActBound(req.fields[k]), req.policy.timeoutMs);
      if o.Finished? && !o.stop { RunFieldsHolds(page, req, values, k + 1, o.run); }
      RunFieldsStep(page, req, values, k, s, o);
    } else {
      assert s.acts[..|s.acts|] == s.acts;
    }
  }

  /** Once preflight has passed, every field and block stays pinned through the fields from any one on, and
    * a recheck still agrees with an observation of the run. */
  lemma PreflightLasts(page: Page, req: Request, values: seq<string>, k: nat, s: Run, identities: seq<string>)
    requires k <= |req.fields| == |values| && req.scope.Some? && Preflighted(req, s)
    requires Before(s.acts, k) && Orderly(s.acts, req.policy.timeoutMs)
    ensures var r := RunFields(page, req, values, k, s).run;
      && Preflighted(req, r) && PinsKept(s.pins, r.pins) && PinsKept(r.pins, s.pins)
      && (Recheck(page, req, identities, r).out.Ok? <==> Observe(page, req, r).out.Ok?)
  {
    var r := RunFields(page, req, values, k, s).run;
    RunFieldsHolds(page, req, values, k, s);
    PreflightedStays(page, req, s, r);
    RecheckMatchesObserve(page, req, identities, r);
  }
}
