/** The autofill run in its own form: one object whose methods update the run's state step by step, in
  * loops, each proved to do what the run's definition says (autofill.ts).
  */
module Autofill {
  import opened Options
  import opened AutofillPage
  import P = AutofillPorts
  import W = AutofillWidgets
  import R = AutofillRun
  import Rep = AutofillReport

  class Runner {
    const page: P.Page
    const req: Request
    var tick: nat
    var acts: seq<P.Act>
    var blocks: Blocks
    var pins: P.Pins
    var scopeValid: bool
    var stage: nat
    var proof: Option<nat>  // history: when the run last observed with success
    // The field being written, and what its write has left so far.
    var progress: P.Progress
    var navigation: bool
    var removed: seq<string>
    var added: seq<string>
    // One receipt per field done, and what the run committed to for each.
    var receipts: seq<R.Receipt>
    var notes: seq<Option<R.Written>>

    function State(): P.Run
      reads this
    {
      P.Run(tick, acts, blocks, pins, scopeValid, stage, proof)
    }

    function View(): P.Exec
      reads this
    {
      P.Exec(State(), progress, navigation, removed, added)
    }

    /** Receipts and notes are written only between fields. */
    twostate predicate SameReceipts()
      reads this
    {
      receipts == old(receipts) && notes == old(notes)
    }

    constructor (page: P.Page, req: Request)
      ensures this.page == page && this.req == req
      ensures State() == P.Start(req) && receipts == [] && notes == []
    {
      this.page, this.req := page, req;
      tick, acts, blocks, pins, scopeValid, stage, proof := 0, [], map[], map[], req.scope.None?, 0, None;
      progress, navigation, removed, added := P.NotStarted, false, [], [];
      receipts, notes := [], [];
    }

    // --- Guarded reads ----------------------------------------------------------------------------

    method Guard() returns (out: Result<bool>)
      modifies `tick
      ensures P.Step(State(), out) == P.Guard(page, req, old(State()))
    {
      var lost := page.lost(tick);
      var late := page.elapsed(tick) >= req.policy.timeoutMs;
      tick := tick + 1;
      if lost.Some? { return Err(Failure(false, lost.value)); }
      if late { return Err(Failure(true, ActionTimeout)); }
      return Ok(true);
    }

    method Look() returns (out: Result<P.Glimpse>)
      modifies `tick
      ensures P.Step(State(), out) == P.Look(page, req, old(State()))
    {
      var before := Guard();
      if before.Err? { return Err(before.failure); }
      var at := tick;
      var sight := page.view(at, acts);
      tick := tick + 1;
      if sight.SightFails? { return Err(Failure(false, sight.code)); }
      var after := Guard();
      if after.Err? { return Err(after.failure); }
      if sight.view.incomplete { return Err(Failure(true, OutputTruncated)); }
      return Ok(P.Glimpse(at, sight.view));
    }

    /** One field of the stage, held to its pin. */
    method CheckOne(elements: seq<Element>, k: nat, nodes: set<string>) returns (out: Result<P.Pin>)
      requires k < |req.fields|
      modifies `stage, `blocks, `pins
      ensures P.Step(State(), out) == P.CheckOne(req, elements, k, nodes, old(State()))
    {
      stage := k;
      var found := Resolve(elements, req.fields[k].selector, blocks);
      blocks := found.blocks;
      if found.element.Err? { return Err(found.element.failure); }
      var e := found.element.value;
      if !P.Qualified(e, req.fields[k]) { return Err(Failure(true, EngineUnsupported)); }
      var pin := P.PinOf(e);
      if pin.node in nodes { return Err(Failure(true, TargetAmbiguous)); }
      if k in pins && pins[k] != pin { return Err(Failure(true, StaleTarget)); }
      pins := pins[k := pin];
      return Ok(pin);
    }

    /** Field after field, on distinct nodes. */
    method CheckStage(elements: seq<Element>) returns (out: Result<bool>)
      modifies `stage, `blocks, `pins
      ensures P.Step(State(), out) == P.CheckStage(req, elements, 0, {}, old(State()))
    {
      var nodes: set<string> := {};
      var k := 0;
      while k < |req.fields|
        invariant 0 <= k <= |req.fields|
        invariant P.CheckStage(req, elements, k, nodes, State()) == P.CheckStage(req, elements, 0, {}, old(State()))
      {
        var pin := CheckOne(elements, k, nodes);
        if pin.Err? { return Err(pin.failure); }
        nodes := nodes + {pin.value.node};
        k := k + 1;
      }
      return Ok(true);
    }

    method Validate(url: string, view: P.View) returns (out: Result<bool>)
      modifies `stage, `blocks, `pins, `scopeValid
      ensures P.Step(State(), out) == P.Validate(req, url, view, old(State()))
    {
      if view.url != Some(url) { return Err(Failure(true, FormScopeMismatch)); }
      out := CheckStage(view.elements);
      if out.Err? { return; }
      scopeValid := true;
      return Ok(true);
    }

    /** A fresh, complete observation; in a scoped run it validates the whole stage again. */
    method Observe() returns (out: Result<seq<Element>>)
      modifies `tick, `stage, `blocks, `pins, `scopeValid, `proof
      ensures P.Step(State(), out) == P.Observe(page, req, old(State()))
    {
      stage := 0;
      if req.scope.Some? { scopeValid := false; }
      var look := Look();
      if look.Err? { return Err(look.failure); }
      if req.scope.Some? {
        var valid := Validate(req.scope.value, look.value.view);
        if valid.Err? { return Err(valid.failure); }
      }
      proof := Some(look.value.at);
      return Ok(look.value.view.elements);
    }

    /** The recheck a durable run makes before its first effect.  It only takes time. */
    method Recheck(identities: seq<string>) returns (out: Result<bool>)
      modifies `tick
      ensures P.Step(State(), out) == P.Recheck(page, req, identities, old(State()))
    {
      var look := Look();
      if look.Err? { return Err(look.failure); }
      var elements := look.value.view.elements;
      if req.scope.None? {
        return if P.AllReady(elements, identities) then Ok(true) else Err(Failure(true, StaleTarget));
      }
      if look.value.view.url != req.scope { return Err(Failure(true, FormScopeMismatch)); }
      var k := 0;
      while k < |req.fields|
        invariant 0 <= k <= |req.fields|
        invariant P.StageFault(req, elements, pins, blocks, k) == P.StageFault(req, elements, pins, blocks, 0)
      {
        var found := Resolve(elements, req.fields[k].selector, blocks);
        if k !in pins { return Err(Failure(true, StaleTarget)); }
        if found.element.Err? { return Err(Failure(true, found.element.failure.code)); }
        if !P.Qualified(found.element.value, req.fields[k]) || P.PinOf(found.element.value) != pins[k] {
          return Err(Failure(true, StaleTarget));
        }
        k := k + 1;
      }
      return Ok(true);
    }

    // --- Writes -----------------------------------------------------------------------------------

    /** Send one act: from here on the scope is void until an observation validates it again. */
    method Send(i: nat, at: int, action: P.Action) returns (answer: P.Answer)
      modifies `tick, `acts, `scopeValid, `progress, `navigation
      ensures answer == page.answer(old(tick), old(acts), action)
      ensures View() == P.Send(page, req, i, at, old(View()), action)
    {
      if req.scope.Some? { scopeValid := false; }
      answer := page.answer(tick, acts, action);
      acts := acts + [P.Act(i, action, at, tick, answer.signalled)];
      tick := tick + 1;
      if answer.signalled && progress.NotStarted? { progress := P.Dispatched; }
      if answer.navigation { navigation := true; }
    }

    method Dispatch(i: nat, widget: bool, action: P.Action) returns (out: Result<bool>)
      modifies `tick, `acts, `scopeValid, `progress, `navigation
      ensures P.Did(View(), out) == P.Dispatch(page, req, i, widget, old(View()), action)
    {
      var at := page.elapsed(tick);
      out := Guard();
      if out.Err? { return; }
      var answer := Send(i, at, action);
      if answer.threw.Some? { return Err(Failure(false, answer.threw.value)); }
      if answer.navigation {
        if !widget && !progress.NotStarted? && answer.success { progress := P.Completed; }
        return Err(Failure(true, NavigationBlocked));
      }
      out := Guard();
    }

    method StepAct(i: nat, action: P.Action) returns (out: Result<bool>)
      modifies `tick, `acts, `scopeValid, `progress, `navigation
      ensures P.Did(View(), out) == W.StepAct(page, req, i, old(View()), action)
    {
      out := Dispatch(i, true, action);
      if out.Ok? { progress := P.Dispatched; }
    }

    method StepLook() returns (out: Result<seq<Element>>)
      modifies `tick, `stage, `blocks, `pins, `scopeValid, `proof
      ensures P.Did(View(), out) == W.StepLook(page, req, old(View()))
    {
      var g := Guard();
      if g.Err? { return Err(g.failure); }
      out := Observe();
    }

    // --- Waiting -----------------------------------------------------------------------------------

    method GlanceOption(target: W.Target, wanted: string, popup: Option<string>)
      returns (seen: Option<string>, out: Result<W.Pending<Element>>)
      modifies `tick, `stage, `blocks, `pins, `scopeValid, `proof
      ensures W.Glance(seen, View(), out) == W.GlanceOption(page, req, target, wanted, popup, old(View()))
    {
      var o := Observe();
      if o.Err? { return popup, Err(o.failure); }
      var control := W.ControlOf(o.value, target, blocks, popup);
      blocks := control.blocks;
      if control.out.Err? { return popup, Err(control.out.failure); }
      seen := control.out.value.popup;
      if control.out.value.element.evidence.popupState != Some("ready") {
        out := Ok(W.Wait);
      } else {
        out := W.OptionOf(o.value, target, seen, wanted);
      }
    }

    method GlanceChip(target: W.Target, chip: string, present: bool) returns (out: Result<W.Pending<bool>>)
      modifies `tick, `stage, `blocks, `pins, `scopeValid, `proof
      ensures W.Glance(None, View(), out) == W.GlanceChip(page, req, target, chip, present, old(View()))
    {
      var o := Observe();
      if o.Err? { return Err(o.failure); }
      var members := W.MembersOf(o.value, target, blocks);
      blocks := members.blocks;
      if members.out.Err? { return Err(members.out.failure); }
      out := if (chip in members.out.value) == present then Ok(W.Have(true)) else Ok(W.Wait);
    }

    /** Nothing there yet: go on only while reads and time are left. */
    method Patience<T>(ghost glance: W.Glance<T>, attempt: nat) returns (again: Result<bool>)
      requires glance.exec == View() && glance.out == Ok(W.Wait)
      modifies `tick
      ensures var g := W.Patience(page, req, glance, attempt);
        && View() == g.exec && glance.popup == g.popup
        && (again.Ok? <==> g.out.Ok? && g.out.value.Wait?)
        && (again.Ok? ==> attempt < req.policy.maxReobserve)
        && (again.Err? ==> g.out == Err(again.failure))
    {
      if attempt >= req.policy.maxReobserve { return Err(Failure(true, TargetNotFound)); }
      again := Guard();
    }

    /** Repeat reads until the option is there. */
    method AwaitOption(target: W.Target, wanted: string, first: Option<string>) returns (out: Result<Element>)
      modifies `tick, `stage, `blocks, `pins, `scopeValid, `proof
      ensures P.Did(View(), out) == W.AwaitOption(page, req, target, wanted, first, old(View()), 0)
    {
      var popup, attempt := first, 0;
      while true
        invariant W.AwaitOption(page, req, target, wanted, popup, View(), attempt)
          == W.AwaitOption(page, req, target, wanted, first, old(View()), 0)
        decreases req.policy.maxReobserve - attempt
      {
        W.AwaitOptionUnrolls(page, req, target, wanted, popup, View(), attempt);
        ghost var glance := W.GlanceOption(page, req, target, wanted, popup, View());
        var seen, found := GlanceOption(target, wanted, popup);
        if found.Err? { return Err(found.failure); }
        if found.value.Have? { return Ok(found.value.value); }
        var again := Patience(glance, attempt);
        if again.Err? { return Err(again.failure); }
        popup, attempt := seen, attempt + 1;
      }
    }

    /** Repeat reads until the chip is there, or gone. */
    method AwaitChip(target: W.Target, chip: string, present: bool) returns (out: Result<bool>)
      modifies `tick, `stage, `blocks, `pins, `scopeValid, `proof
      ensures P.Did(View(), out) == W.AwaitChip(page, req, target, chip, present, old(View()), 0)
    {
      var attempt := 0;
      while true
        invariant W.AwaitChip(page, req, target, chip, present, View(), attempt)
          == W.AwaitChip(page, req, target, chip, present, old(View()), 0)
        decreases req.policy.maxReobserve - attempt
      {
        W.AwaitChipUnrolls(page, req, target, chip, present, View(), attempt);
        ghost var glance := W.GlanceChip(page, req, target, chip, present, View());
        var seen := GlanceChip(target, chip, present);
        if seen.Err? { return Err(seen.failure); }
        if seen.value.Have? { return Ok(seen.value.value); }
        var again := Patience(glance, attempt);
        if again.Err? { return Err(again.failure); }
        attempt := attempt + 1;
      }
    }

    // --- Strategies -------------------------------------------------------------------------------------

    method OpenInput(i: nat, target: W.Target, ref: string) returns (out: Result<W.Control>)
      modifies this
      ensures P.Did(View(), out) == W.OpenInput(page, req, i, target, ref, old(View())) && SameReceipts()
    {
      var clicked := StepAct(i, P.Click(ref));
      if clicked.Err? { return Err(clicked.failure); }
      var look := StepLook();
      if look.Err? { return Err(look.failure); }
      var control := W.ControlOf(look.value, target, blocks, None);
      blocks := control.blocks;
      out := control.out;
    }

    method Choose(i: nat, target: W.Target, wanted: string, popup: Option<string>) returns (out: Result<bool>)
      modifies this
      ensures P.Did(View(), out) == W.Choose(page, req, i, target, wanted, popup, old(View())) && SameReceipts()
    {
      var option := AwaitOption(target, wanted, popup);
      if option.Err? { return Err(option.failure); }
      out := StepAct(i, P.Click(option.value.ref));
    }

    method Typeahead(i: nat, target: W.Target, text: string, ref: string) returns (out: Result<string>)
      modifies this
      ensures P.Did(View(), out) == W.Typeahead(page, req, i, target, text, ref, old(View())) && SameReceipts()
    {
      var wanted := Trim(text);
      if wanted == "" { return Err(Failure(true, InvalidRequest)); }
      var input := OpenInput(i, target, ref);
      if input.Err? { return Err(input.failure); }
      var typed := StepAct(i, P.TypeText(input.value.element.ref, wanted));
      if typed.Err? { return Err(typed.failure); }
      var chosen := Choose(i, target, wanted, input.value.popup);
      if chosen.Err? { return Err(chosen.failure); }
      return Ok(wanted);
    }

    method RemoveChip(i: nat, target: W.Target, chip: string) returns (out: Result<bool>)
      modifies this
      ensures P.Did(View(), out) == W.RemoveChip(page, req, i, target, chip, old(View())) && SameReceipts()
    {
      out := ClickRemover(i, target, chip);
      if out.Err? { return; }
      out := SeeGone(target, chip);
    }

    method SeeGone(target: W.Target, chip: string) returns (out: Result<bool>)
      modifies this
      ensures P.Did(View(), out) == W.SeeGone(page, req, target, chip, old(View())) && SameReceipts()
    {
      out := AwaitChip(target, chip, false);
      if out.Ok? { removed := removed + [chip]; }
    }

    method ClickRemover(i: nat, target: W.Target, chip: string) returns (out: Result<bool>)
      modifies this
      ensures P.Did(View(), out) == W.ClickRemover(page, req, i, target, chip, old(View())) && SameReceipts()
    {
      var look := StepLook();
      if look.Err? { return Err(look.failure); }
      var remover := W.RemoverOf(look.value, target, chip);
      if remover.Err? { return Err(remover.failure); }
      out := StepAct(i, P.Click(remover.value.ref));
    }

    method FindAbsent(target: W.Target, chip: string) returns (out: Result<Option<string>>)
      modifies this
      ensures P.Did(View(), out) == W.FindAbsent(page, req, target, chip, old(View())) && SameReceipts()
    {
      var look := StepLook();
      if look.Err? { return Err(look.failure); }
      var members := W.MembersOf(look.value, target, blocks);
      blocks := members.blocks;
      if members.out.Err? { return Err(members.out.failure); }
      if chip in members.out.value { return Ok(None); }
      var control := W.Again(look.value, target, blocks);
      blocks := control.blocks;
      if control.out.Err? { return Err(control.out.failure); }
      return Ok(Some(control.out.value.ref));
    }

    method AddChip(i: nat, target: W.Target, chip: string) returns (out: Result<bool>)
      modifies this
      ensures P.Did(View(), out) == W.AddChip(page, req, i, target, chip, old(View())) && SameReceipts()
    {
      var find := FindAbsent(target, chip);
      if find.Err? { return Err(find.failure); }
      if find.value.None? { return Ok(true); }
      out := AddAbsent(i, target, chip, find.value.value);
    }

    method AddAbsent(i: nat, target: W.Target, chip: string, ref: string) returns (out: Result<bool>)
      modifies this
      ensures P.Did(View(), out) == W.AddAbsent(page, req, i, target, chip, ref, old(View())) && SameReceipts()
    {
      var chosen := Typeahead(i, target, chip, ref);
      if chosen.Err? { return Err(chosen.failure); }
      out := AwaitChip(target, chip, true);
      if out.Ok? { added := added + [chip]; }
    }

    method RemoveAll(i: nat, target: W.Target, chips: seq<string>) returns (out: Result<bool>)
      modifies this
      ensures P.Did(View(), out) == W.RemoveAll(page, req, i, target, chips, old(View())) && SameReceipts()
    {
      var k := 0;
      while k < |chips|
        invariant 0 <= k <= |chips| && SameReceipts()
        invariant W.RemoveAll(page, req, i, target, chips[k..], View())
          == W.RemoveAll(page, req, i, target, chips, old(View()))
      {
        W.RemoveAllUnrolls(page, req, i, target, chips[k..], View());
        assert chips[k..][1..] == chips[k + 1..];
        out := RemoveChip(i, target, chips[k]);
        if out.Err? { return; }
        k := k + 1;
      }
      return Ok(true);
    }

    method AddAll(i: nat, target: W.Target, chips: seq<string>) returns (out: Result<bool>)
      modifies this
      ensures P.Did(View(), out) == W.AddAll(page, req, i, target, chips, old(View())) && SameReceipts()
    {
      var k := 0;
      while k < |chips|
        invariant 0 <= k <= |chips| && SameReceipts()
        invariant W.AddAll(page, req, i, target, chips[k..], View())
          == W.AddAll(page, req, i, target, chips, old(View()))
      {
        W.AddAllUnrolls(page, req, i, target, chips[k..], View());
        assert chips[k..][1..] == chips[k + 1..];
        out := AddChip(i, target, chips[k]);
        if out.Err? { return; }
        k := k + 1;
      }
      return Ok(true);
    }

    method InitialMembers(target: W.Target) returns (out: Result<seq<string>>)
      modifies this
      ensures P.Did(View(), out) == W.InitialMembers(page, req, target, old(View())) && SameReceipts()
    {
      var look := StepLook();
      if look.Err? { return Err(look.failure); }
      var members := W.MembersOf(look.value, target, blocks);
      blocks := members.blocks;
      if members.out.Err? { return members.out; }
      if |ToSet(members.out.value)| != |members.out.value| { return Err(Failure(true, TargetAmbiguous)); }
      return members.out;
    }

    method WriteExactSet(i: nat, target: W.Target, desired: seq<string>) returns (out: Result<string>)
      modifies this
      ensures P.Did(View(), out) == W.WriteExactSet(page, req, i, target, desired, old(View())) && SameReceipts()
    {
      var initial := InitialMembers(target);
      if initial.Err? { return Err(initial.failure); }
      var gone := RemoveAll(i, target, W.Without(initial.value, desired));
      if gone.Err? { return Err(gone.failure); }
      var there := AddAll(i, target, desired);
      if there.Err? { return Err(there.failure); }
      return Ok("");
    }

    // --- One field --------------------------------------------------------------------------------------------

    method FindOnce(f: Field) returns (out: Result<Result<Element>>)
      modifies this
      ensures P.Step(State(), out) == R.FindOnce(page, req, f, old(State()))
      ensures SameReceipts() && View() == old(View()).(run := State())
    {
      var o := Observe();
      if o.Err? { return Err(o.failure); }
      var found := Resolve(o.value, f.selector, blocks);
      blocks := found.blocks;
      return Ok(found.element);
    }

    /** A field may appear late: absence is read again, a bounded number of times. */
    method FindField(f: Field) returns (out: Result<Element>)
      modifies this
      ensures P.Step(State(), out) == R.FindField(page, req, f, old(State()), 0)
      ensures SameReceipts() && View() == old(View()).(run := State())
    {
      var attempt := 0;
      while true
        invariant R.FindField(page, req, f, State(), attempt) == R.FindField(page, req, f, old(State()), 0)
        invariant SameReceipts() && View() == old(View()).(run := State())
        decreases req.policy.maxReobserve - attempt
      {
        var found := FindOnce(f);
        if found.Err? { return Err(found.failure); }
        var absent := found.value == Err(Failure(true, TargetNotFound));
        if !absent || attempt >= req.policy.maxReobserve { return found.value; }
        attempt := attempt + 1;
      }
    }

    method VerifyOnce(f: Field, note: R.Written) returns (out: Result<R.Verdict>)
      modifies this
      ensures P.Step(State(), out) == R.VerifyOnce(page, req, f, note, old(State()))
      ensures SameReceipts() && View() == old(View()).(run := State())
    {
      var o := Observe();
      if o.Err? { return Err(o.failure); }
      var judged := R.Judge(o.value, f, note, blocks);
      blocks := judged.blocks;
      return judged.out;
    }

    /** A mismatch may be read again; the write is never replayed. */
    method Verify(f: Field, note: R.Written) returns (out: Result<R.Verdict>)
      modifies this
      ensures P.Step(State(), out) == R.Verify(page, req, f, note, old(State()), 0)
      ensures SameReceipts() && View() == old(View()).(run := State())
    {
      var attempt := 0;
      while true
        invariant R.Verify(page, req, f, note, State(), attempt) == R.Verify(page, req, f, note, old(State()), 0)
        invariant SameReceipts() && View() == old(View()).(run := State())
        decreases req.policy.maxReobserve - attempt
      {
        out := VerifyOnce(f, note);
        if out != Ok(R.Differs) { return; }
        if !req.policy.onVerifyFail.RetryReads? || attempt >= req.policy.maxReobserve { return; }
        attempt := attempt + 1;
      }
    }

    method WriteField(i: nat, f: Field, note: R.Written, ref: string) returns (out: Result<string>)
      modifies this
      ensures P.Did(View(), out) == R.WriteField(page, req, i, f, note, ref, old(View())) && SameReceipts()
    {
      if IsWidget(note.strategy) {
        out := WriteWidget(i, f, R.TargetOf(f, note), ref);
        if out.Ok? { progress := P.Completed; }
        return;
      }
      var sent := Dispatch(i, false, R.NativeAction(f, note.strategy, ref));
      if sent.Err? { return Err(sent.failure); }
      if progress.NotStarted? { return Err(Failure(true, EngineUnsupported)); }
      progress := P.Completed;
      return Ok(note.expected);
    }

    method WriteWidget(i: nat, f: Field, target: W.Target, ref: string) returns (out: Result<string>)
      modifies this
      ensures P.Did(View(), out) == R.WriteWidget(page, req, i, f, target, ref, old(View())) && SameReceipts()
    {
      match f.content
      case ExactSet(chips) => out := WriteExactSet(i, target, chips);
      case Choice(value) => out := Typeahead(i, target, value, ref);
      case Text(_) => out := Typeahead(i, target, "", ref);
    }

    method CheckField(f: Field, note: R.Written) returns (ending: R.Ending)
      modifies this
      ensures R.Attempted(View(), Some(note), ending) == R.CheckField(page, req, f, note, old(View())) && SameReceipts()
    {
      var g := Guard();
      if g.Err? { return R.Fails(g.failure); }
      var h := Guard();
      if h.Err? { return R.Fails(h.failure); }
      if !f.verified { return R.Unchecked; }
      var verdict := Verify(f, note);
      if verdict.Err? { return R.Fails(verdict.failure); }
      return R.Judged(verdict.value);
    }

    method Perform(i: nat, f: Field, first: R.Written, ref: string) returns (note: R.Written, ending: R.Ending)
      modifies this
      ensures R.Attempted(View(), Some(note), ending) == R.Perform(page, req, i, f, first, ref, old(View()))
      ensures SameReceipts()
    {
      note := first;
      var g := Guard();
      if g.Err? { return note, R.Fails(g.failure); }
      var w := WriteField(i, f, note, ref);
      if w.Err? { return note, R.Fails(w.failure); }
      note := note.(expected := w.value);
      ending := CheckField(f, note);
    }

    method Attempt(i: nat, f: Field, expected: string) returns (note: Option<R.Written>, ending: R.Ending)
      modifies this
      ensures R.Attempted(View(), note, ending) == R.Attempt(page, req, i, f, expected, old(State()))
      ensures SameReceipts()
    {
      progress, navigation, removed, added, note := P.NotStarted, false, [], [], None;
      var found := FindField(f);
      if found.Err? { return None, R.Fails(found.failure); }
      var control := found.value;
      if !control.visible || !control.enabled { return None, R.Hidden; }
      var strategy := StrategyFor(control, f);
      if !Truthy(control.evidence.node) || strategy.None? { return None, R.Fails(Failure(true, EngineUnsupported)); }
      var written :=
        R.Written(control.evidence.node.value, control.evidence.block, strategy.value, expected);
      written, ending := Perform(i, f, written, control.ref);
      note := Some(written);
    }

    /** Run one field to its receipt. */
    method RunField(i: nat, f: Field, expected: string) returns (outcome: R.FieldOutcome)
      modifies this
      ensures outcome == R.RunField(page, req, i, f, expected, old(State()))
      ensures State() == outcome.run && SameReceipts()
    {
      var note, ending := Attempt(i, f, expected);
      outcome := Conclude(f, note, ending);
    }

    /** A failure is recorded only while authority lasts; otherwise it escapes the run. */
    method Conclude(f: Field, note: Option<R.Written>, ending: R.Ending) returns (outcome: R.FieldOutcome)
      modifies `tick
      ensures outcome == R.Conclude(page, req, f, R.Attempted(old(View()), note, ending))
      ensures State() == outcome.run
    {
      var e := View();
      match ending
      case Hidden => outcome := R.Finished(State(), R.ReceiptOf(e, R.Skipped, Some(TargetNotVisible)), note, false);
      case Unchecked => outcome := R.Finished(State(), R.ReceiptOf(e, R.Unverified, None), note, false);
      case Judged(verdict) => outcome := ConcludeVerdict(f, note, verdict);
      case Fails(failure) =>
        var lost := page.lost(tick);
        tick := tick + 1;
        if lost.Some? {
          outcome := R.Escaped(State());
        } else if R.SkipsAmbiguous(req, e, failure) {
          outcome := R.Finished(State(), R.ReceiptOf(e, R.Skipped, Some(failure.code)), note, false);
        } else {
          outcome := R.Finished(State(), R.FailureReceipt(f, e, failure), note, true);
        }
    }

    method ConcludeVerdict(f: Field, note: Option<R.Written>, verdict: R.Verdict) returns (outcome: R.FieldOutcome)
      ensures outcome == R.Conclude(page, req, f, R.Attempted(View(), note, R.Judged(verdict)))
      ensures State() == outcome.run
    {
      var e := View();
      match verdict
      case Matches => outcome := R.Finished(State(), R.ReceiptOf(e, R.Verified, None), note, false);
      case Withheld =>
        outcome := R.Finished(State(), R.ReceiptOf(e, R.Unverified, None).(withheld := true), note, false);
      case Differs =>
        outcome := R.Finished(
          State(), R.ReceiptOf(e, R.Failed, Some(ValueMismatch)), note, !req.policy.onVerifyFail.SkipField?);
    }

    // --- The run -------------------------------------------------------------------------------------------------

    /** Field after field, until one stops the run; the fields after it stay untouched. */
    method RunFields(values: seq<string>) returns (escaped: bool)
      requires |values| == |req.fields| && receipts == [] && notes == []
      modifies this
      ensures var p := R.RunFields(page, req, values, 0, old(State()));
        State() == p.run && escaped == p.escaped && (!escaped ==> receipts == p.receipts && notes == p.notes)
    {
      var k := 0;
      ghost var whole := R.RunFields(page, req, values, 0, State());
      R.AfterNothing(whole);
      while k < |req.fields|
        invariant 0 <= k <= |req.fields|
        invariant R.Alike(whole, R.After(receipts, notes, R.RunFields(page, req, values, k, State())))
      {
        var gone, stop := NextField(k, values, whole);
        if gone { return true; }
        k := k + 1;
        if stop {
          LeaveAlone(|req.fields| - k);
          return false;
        }
      }
      return false;
    }

    /** One more field, and its receipt. */
    method NextField(k: nat, values: seq<string>, ghost whole: R.Pass) returns (escaped: bool, stop: bool)
      requires k < |req.fields| == |values|
      requires R.Alike(whole, R.After(receipts, notes, R.RunFields(page, req, values, k, State())))
      modifies this
      ensures escaped ==> whole.escaped && State() == whole.run
      ensures !escaped && stop ==> R.Alike(whole, R.After(receipts, notes, R.LeftAlone(req, k + 1, State())))
      ensures !escaped && !stop ==>
        R.Alike(whole, R.After(receipts, notes, R.RunFields(page, req, values, k + 1, State())))
    {
      ghost var before := State();
      var outcome := RunField(k, req.fields[k], values[k]);
      R.AfterField(page, req, values, k, before, receipts, notes, outcome);
      if outcome.Escaped? { return true, true; }
      receipts, notes := receipts + [outcome.receipt], notes + [outcome.note];
      return false, outcome.stop;
    }

    /** The fields that are left stay untouched. */
    method LeaveAlone(n: nat)
      modifies `receipts, `notes
      ensures receipts == old(receipts) + R.Rest(n, R.UNTOUCHED) && notes == old(notes) + R.Rest(n, None)
    {
      receipts, notes := receipts + R.Rest(n, R.UNTOUCHED), notes + R.Rest(n, None);
    }

    /** One look at the end, and every verified receipt held against it. */
    method FinalPhase() returns (escaped: bool)
      requires |receipts| == |notes| == |req.fields|
      modifies this
      ensures var p := Rep.FinalPhase(page, req, old(State()), old(receipts), old(notes));
        State() == p.run && receipts == p.receipts && escaped == p.escaped
      ensures notes == old(notes)
    {
      if !Rep.AnyVerified(receipts) { return false; }
      var o := Observe();
      if o.Err? {
        var lost := page.lost(tick);
        tick := tick + 1;
        receipts := Rep.AllUnconfirmed(receipts);
        return lost.Some?;
      }
      CheckFinally(o.value);
      return false;
    }

    method CheckFinally(elements: seq<Element>)
      requires |receipts| == |notes| == |req.fields|
      modifies `receipts, `blocks
      ensures Rep.Finals(blocks, receipts)
        == Rep.FinalReceipts(elements, req, old(receipts), notes, |old(receipts)|, old(blocks))
    {
      var k := 0;
      while k < |receipts|
        invariant 0 <= k <= |receipts| == |old(receipts)|
        invariant receipts[k..] == old(receipts)[k..]
        invariant Rep.Finals(blocks, receipts[..k])
          == Rep.FinalReceipts(elements, req, old(receipts), notes, k, old(blocks))
      {
        assert receipts[k] == receipts[k..][0] == old(receipts)[k];
        if receipts[k].verified {
          var final := Rep.FinalReceipt(elements, req.fields[k], receipts[k], notes[k], blocks);
          blocks := final.blocks;
          receipts := receipts[k := final.receipt];
        }
        k := k + 1;
      }
      assert receipts[..k] == receipts;
    }

    /** The values to look for, resolved before the first write. */
    method ResolveValues() returns (out: Result<seq<string>>)
      modifies `tick
      ensures P.Step(State(), out) == Rep.ResolveValues(page, req, 0, old(State()))
    {
      var values: seq<string> := [];
      var k := 0;
      Rep.OntoNothing(Rep.ResolveValues(page, req, 0, State()));
      while k < |req.fields|
        invariant 0 <= k <= |req.fields|
        invariant Rep.Onto(values, Rep.ResolveValues(page, req, k, State()))
          == Rep.ResolveValues(page, req, 0, old(State()))
      {
        Rep.ResolveValuesUnrolls(page, req, k, State(), values);
        var g := Guard();
        if g.Err? { return Err(g.failure); }
        var value := Rep.ValueOf(page, req.fields[k].content);
        if value.None? { return Err(Failure(false, OtherCode("value"))); }
        values := values + [value.value];
        k := k + 1;
      }
      assert values + [] == values;
      return Ok(values);
    }

    /** Assert that authority still holds. */
    method Assert() returns (out: Result<bool>)
      modifies `tick
      ensures P.Step(State(), out) == Rep.Assert(page, old(State()))
    {
      var lost := page.lost(tick);
      tick := tick + 1;
      return if lost.Some? then Err(Failure(false, lost.value)) else Ok(true);
    }

    /** Assert authority, judge, capture the artifact, and report. */
    method Close(before: seq<R.Receipt>) returns (ending: Rep.Ending)
      modifies `tick
      ensures ending == Rep.Close(page, req, old(State()), receipts, notes, before)
    {
      var held := Assert();
      if held.Err? { return Rep.Rejected(State()); }
      var ok := forall r | r in receipts :: Rep.Succeeded(r);
      var snapped, attached := Capture();
      if !attached {
        held := Assert();
        if held.Err? { return Rep.Rejected(State()); }
      }
      held := Assert();
      if held.Err? { return Rep.Rejected(State()); }
      return Rep.Reported(Rep.Report(ok, receipts, snapped, attached, State(), notes, before));
    }

    /** The artifact, under guard, and only while the scope is valid. */
    method Capture() returns (snapped: bool, attached: bool)
      modifies `tick
      ensures Rep.Captured(State(), snapped, attached) == Rep.Capture(page, req, old(State()))
    {
      var g := Guard();
      if g.Err? || !scopeValid { return false, false; }
      var taken := page.snapshot(tick);
      tick := tick + 1;
      if !taken { return true, false; }
      var h := Guard();
      return true, h.Ok?;
    }

    /** From preflight, or straight from the start, to the report. */
    method RunMapped() returns (ending: Rep.Ending)
      requires receipts == [] && notes == []
      modifies this
      ensures ending == Rep.RunMapped(page, req, old(State()))
    {
      var values := ResolveValues();
      if values.Err? { return Rep.Rejected(State()); }
      var escaped := RunFields(values.value);
      if escaped { return Rep.Rejected(State()); }
      var before := receipts;
      escaped := FinalPhase();
      if escaped { return Rep.Rejected(State()); }
      ending := Close(before);
    }

    /** The whole run; its ending is what the report's properties are proved of. */
    method RunAutofill() returns (ending: Rep.Ending)
      requires State() == P.Start(req) && receipts == [] && notes == []
      modifies this
      ensures ending == Rep.RunAutofill(page, req)
      ensures Rep.EndingHolds(page, req, ending)
    {
      Rep.EveryRunHolds(page, req);
      if req.scope.Some? {
        var o := Observe();
        if o.Err? {
          var held := Assert();
          if held.Err? { return Rep.Rejected(State()); }
          receipts := Rep.PreflightReceipts(|req.fields|, stage, o.failure.code);
          notes := R.Rest(|req.fields|, None);
          ending := Close(receipts);
          return;
        }
      }
      ending := RunMapped();
    }
  }
}
