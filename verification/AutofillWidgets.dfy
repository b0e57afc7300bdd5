/** The multi-step strategies: choosing one option through a popup, and writing an exact set of chips
  * (runTypeahead and runExactSet in autofill.ts), on any page.
  */
module AutofillWidgets {
  import opened Options
  import opened AutofillPage
  import opened AutofillPorts

  /** The control a strategy works on: its selector, and the node and block it was first seen with. */
  datatype Target = Target(selector: Match, node: string, block: Option<string>)

  datatype Reached<+T> = Reached(blocks: Blocks, out: Result<T>)

  // --- Reading the widget ------------------------------------------------------------------------------

  /** The control again, on its own node and block. */
  function Again(elements: seq<Element>, target: Target, blocks: Blocks): Reached<Element> {
    var found := Resolve(elements, target.selector, blocks);
    if found.element.Err? then Reached(found.blocks, found.element)
    else
      var e := found.element.value;
      if e.evidence.node != Some(target.node) || e.evidence.block != target.block
      then Reached(found.blocks, Own(StaleTarget))
      else Reached(found.blocks, Ok(e))
  }

  datatype Control = Control(element: Element, popup: Option<string>)

  /** The control, focused, with its popup the one seen before. */
  function ControlOf(elements: seq<Element>, target: Target, blocks: Blocks, popup: Option<string>): Reached<Control> {
    var again := Again(elements, target, blocks);
    if again.out.Err? then Reached(again.blocks, Err(again.out.failure))
    else
      var e := again.out.value;
      var v := e.evidence;
      if !e.visible || !e.enabled || !v.focused then Reached(again.blocks, Own(StaleTarget))
      else if v.popupState == Some("pending") then Reached(again.blocks, Ok(Control(e, popup)))
      else if v.popupState != Some("ready") then Reached(again.blocks, Own(EngineUnsupported))
      else if !Truthy(v.popup) then Reached(again.blocks, Own(EngineUnsupported))
      else if popup.Some? && v.popup != popup then Reached(again.blocks, Own(StaleTarget))
      else Reached(again.blocks, Ok(Control(e, v.popup)))
  }

  /** An option of the control's own popup with the wanted text. */
  predicate Offers(e: Element, target: Target, popup: Option<string>, wanted: string) {
    && e.role == Some("option") && e.visible
    && e.evidence.owner == Some(target.node)
    && e.evidence.popup == popup
    && Trim(e.name) == wanted
  }

  datatype Pending<+T> = Wait | Have(value: T)

  /** The one enabled option, none yet, or a reason to stop. */
  function OptionOf(
    elements: seq<Element>, target: Target, popup: Option<string>, wanted: string): Result<Pending<Element>>
  {
    var matches := Filter(e => Offers(e, target, popup, wanted), elements);
    if |matches| > 1 then Own(TargetAmbiguous)
    else if |matches| == 0 || !matches[0].enabled then Ok(Wait)
    else if matches[0].evidence.popupState != Some("ready") || !matches[0].evidence.ownerFocused then Own(StaleTarget)
    else Ok(Have(matches[0]))
  }

  /** The control's committed chips. */
  function MembersOf(elements: seq<Element>, target: Target, blocks: Blocks): Reached<seq<string>> {
    var again := Again(elements, target, blocks);
    if again.out.Err? then Reached(again.blocks, Err(again.out.failure))
    else if !again.out.value.evidence.multi then Reached(again.blocks, Own(EngineUnsupported))
    else
      var members := CommittedMembers(again.out.value);
      Reached(again.blocks, if members.None? then Own(EngineUnsupported) else Ok(members.value))
  }

  predicate RemovesChip(e: Element, target: Target, chip: string) {
    e.role == Some("button") && e.evidence.chipOwner == Some(target.node) && e.evidence.chipLabel == Some(chip)
  }

  /** The one actionable control that removes this chip. */
  function RemoverOf(elements: seq<Element>, target: Target, chip: string): Result<Element> {
    var removers := Filter(e => RemovesChip(e, target, chip), elements);
    if |removers| == 0 then Own(EngineUnsupported)
    else if |removers| > 1 then Own(TargetAmbiguous)
    else if !removers[0].visible || !removers[0].enabled then Own(TargetNotVisible)
    else Ok(removers[0])
  }

  // --- Steps of a strategy ---------------------------------------------------------------------------------

  function WithRun(e: Exec, r: Run): Exec { e.(run := r) }

  function WithBlocks(e: Exec, blocks: Blocks): Exec { e.(run := e.run.(blocks := blocks)) }

  /** One wire action of a multi-step write. */
  function StepAct(page: Page, req: Request, i: nat, e: Exec, action: Action): Did<bool> {
    var d := Dispatch(page, req, i, true, e, action);
    if d.out.Err? then d else Did(d.exec.(progress := Dispatched), d.out)
  }

  /** A guarded observation. */
  function StepLook(page: Page, req: Request, e: Exec): Did<seq<Element>> {
    var g := Guard(page, req, e.run);
    if g.out.Err? then Did(WithRun(e, g.run), Err(g.out.failure))
    else
      var o := Observe(page, req, g.run);
      Did(WithRun(e, o.run), o.out)
  }

  /** One read of the control's popup, and what it leaves pinned. */
  datatype Glance<+T> = Glance(popup: Option<string>, exec: Exec, out: Result<Pending<T>>)

  function GlanceOption(
    page: Page, req: Request, target: Target, wanted: string, popup: Option<string>, e: Exec): Glance<Element>
  {
    var o := Observe(page, req, e.run);
    var seen := WithRun(e, o.run);
    if o.out.Err? then Glance(popup, seen, Err(o.out.failure))
    else
      var control := ControlOf(o.out.value, target, o.run.blocks, popup);
      var at := WithBlocks(seen, control.blocks);
      if control.out.Err? then Glance(popup, at, Err(control.out.failure))
      else
        var c := control.out.value;
        Glance(c.popup, at,
          if c.element.evidence.popupState != Some("ready") then Ok(Wait)
          else OptionOf(o.out.value, target, c.popup, wanted))
  }

  /** One read of the control's chips. */
  function GlanceChip(page: Page, req: Request, target: Target, chip: string, present: bool, e: Exec): Glance<bool> {
    var o := Observe(page, req, e.run);
    var seen := WithRun(e, o.run);
    if o.out.Err? then Glance(None, seen, Err(o.out.failure))
    else
      var members := MembersOf(o.out.value, target, o.run.blocks);
      var at := WithBlocks(seen, members.blocks);
      if members.out.Err? then Glance(None, at, Err(members.out.failure))
      else Glance(None, at, if (chip in members.out.value) == present then Ok(Have(true)) else Ok(Wait))
  }

  /** Nothing ready: wait and go on, unless the reads are used up or time is. */
  function Patience<T>(page: Page, req: Request, glance: Glance<T>, attempt: nat): (r: Glance<T>)
    ensures r.out.Ok? && r.out.value.Wait? ==> attempt < req.policy.maxReobserve
  {
    if glance.out.Err? || glance.out.value.Have? then glance
    else if attempt >= req.policy.maxReobserve then glance.(out := Own(TargetNotFound))
    else
      var g := Guard(page, req, glance.exec.run);
      Glance(glance.popup, WithRun(glance.exec, g.run), if g.out.Err? then Err(g.out.failure) else Ok(Wait))
  }

  /** Look until the wanted option is there, a bounded number of times. */
  function AwaitOption(
    page: Page, req: Request, target: Target, wanted: string, popup: Option<string>, e: Exec, attempt: nat): Did<Element>
    decreases req.policy.maxReobserve - attempt
  {
    var glance := Patience(page, req, GlanceOption(page, req, target, wanted, popup, e), attempt);
    match glance.out
    case Err(failure) => Did(glance.exec, Err(failure))
    case Ok(Have(element)) => Did(glance.exec, Ok(element))
    case Ok(Wait) => AwaitOption(page, req, target, wanted, glance.popup, glance.exec, attempt + 1)
  }

  /** Look until the chip is present (or absent), a bounded number of times. */
  function AwaitChip(
    page: Page, req: Request, target: Target, chip: string, present: bool, e: Exec, attempt: nat): Did<bool>
    decreases req.policy.maxReobserve - attempt
  {
    var glance := Patience(page, req, GlanceChip(page, req, target, chip, present, e), attempt);
    match glance.out
    case Err(failure) => Did(glance.exec, Err(failure))
    case Ok(Have(seen)) => Did(glance.exec, Ok(seen))
    case Ok(Wait) => AwaitChip(page, req, target, chip, present, glance.exec, attempt + 1)
  }

  /** Open, and find the focused input of the control's popup. */
  function OpenInput(page: Page, req: Request, i: nat, target: Target, ref: string, e: Exec): Did<Control> {
    var clicked := StepAct(page, req, i, e, Click(ref));
    if clicked.out.Err? then Did(clicked.exec, Err(clicked.out.failure))
    else
      var look := StepLook(page, req, clicked.exec);
      if look.out.Err? then Did(look.exec, Err(look.out.failure))
      else
        var control := ControlOf(look.out.value, target, look.exec.run.blocks, None);
        Did(WithBlocks(look.exec, control.blocks), control.out)
  }

  /** Wait for the option and click it. */
  function Choose(
    page: Page, req: Request, i: nat, target: Target, wanted: string, popup: Option<string>, e: Exec): Did<bool>
  {
    var option := AwaitOption(page, req, target, wanted, popup, e, 0);
    if option.out.Err? then Did(option.exec, Err(option.out.failure))
    else StepAct(page, req, i, option.exec, Click(option.out.value.ref))
  }

  /** Type the text into the input, and choose the option. */
  function TypeAndChoose(
    page: Page, req: Request, i: nat, target: Target, wanted: string, input: Control, e: Exec): Did<bool>
  {
    var typed := StepAct(page, req, i, e, TypeText(input.element.ref, wanted));
    if typed.out.Err? then typed else Choose(page, req, i, target, wanted, input.popup, typed.exec)
  }

  /** Open, type, wait for the option, click it. */
  function Typeahead(page: Page, req: Request, i: nat, target: Target, text: string, ref: string, e: Exec): Did<string> {
    var wanted := Trim(text);
    if wanted == "" then Did(e, Own(InvalidRequest))
    else
      var input := OpenInput(page, req, i, target, ref, e);
      if input.out.Err? then Did(input.exec, Err(input.out.failure))
      else
        var chosen := TypeAndChoose(page, req, i, target, wanted, input.out.value, input.exec);
        Did(chosen.exec, if chosen.out.Err? then Err(chosen.out.failure) else Ok(wanted))
  }

  // --- An exact set ---------------------------------------------------------------------------------------------

  /** Find the chip's remove control and click it. */
  function ClickRemover(page: Page, req: Request, i: nat, target: Target, chip: string, e: Exec): Did<bool> {
    var look := StepLook(page, req, e);
    if look.out.Err? then Did(look.exec, Err(look.out.failure))
    else
      var remover := RemoverOf(look.out.value, target, chip);
      if remover.Err? then Did(look.exec, Err(remover.failure))
      else StepAct(page, req, i, look.exec, Click(remover.value.ref))
  }

  /** Remove one chip through its own control, and see it gone. */
  function RemoveChip(page: Page, req: Request, i: nat, target: Target, chip: string, e: Exec): Did<bool> {
    var clicked := ClickRemover(page, req, i, target, chip, e);
    if clicked.out.Err? then clicked else SeeGone(page, req, target, chip, clicked.exec)
  }

  function SeeGone(page: Page, req: Request, target: Target, chip: string, e: Exec): Did<bool> {
    var gone := AwaitChip(page, req, target, chip, false, e, 0);
    if gone.out.Err? then gone else Did(gone.exec.(removed := gone.exec.removed + [chip]), gone.out)
  }

  /** Is the value there already?  If not, where to click. */
  function FindAbsent(page: Page, req: Request, target: Target, chip: string, e: Exec): Did<Option<string>> {
    var look := StepLook(page, req, e);
    if look.out.Err? then Did(look.exec, Err(look.out.failure))
    else
      var members := MembersOf(look.out.value, target, look.exec.run.blocks);
      var at := WithBlocks(look.exec, members.blocks);
      if members.out.Err? then Did(at, Err(members.out.failure))
      else if chip in members.out.value then Did(at, Ok(None))
      else
        var control := Again(look.out.value, target, at.run.blocks);
        Did(WithBlocks(at, control.blocks),
          if control.out.Err? then Err(control.out.failure) else Ok(Some(control.out.value.ref)))
  }

  /** Add one absent value through the typeahead, and see it there. */
  function AddAbsent(page: Page, req: Request, i: nat, target: Target, chip: string, ref: string, e: Exec): Did<bool> {
    var chosen := Typeahead(page, req, i, target, chip, ref, e);
    if chosen.out.Err? then Did(chosen.exec, Err(chosen.out.failure))
    else
      var there := AwaitChip(page, req, target, chip, true, chosen.exec, 0);
      if there.out.Err? then there else Did(there.exec.(added := there.exec.added + [chip]), there.out)
  }

  function AddChip(page: Page, req: Request, i: nat, target: Target, chip: string, e: Exec): Did<bool> {
    var find := FindAbsent(page, req, target, chip, e);
    match find.out
    case Err(failure) => Did(find.exec, Err(failure))
    case Ok(None) => Did(find.exec, Ok(true))
    case Ok(Some(ref)) => AddAbsent(page, req, i, target, chip, ref, find.exec)
  }

  function RemoveAll(page: Page, req: Request, i: nat, target: Target, chips: seq<string>, e: Exec): Did<bool>
    decreases |chips|
  {
    if chips == [] then Did(e, Ok(true))
    else
      var d := RemoveChip(page, req, i, target, chips[0], e);
      if d.out.Err? then d else RemoveAll(page, req, i, target, chips[1..], d.exec)
  }

  function AddAll(page: Page, req: Request, i: nat, target: Target, chips: seq<string>, e: Exec): Did<bool>
    decreases |chips|
  {
    if chips == [] then Did(e, Ok(true))
    else
      var d := AddChip(page, req, i, target, chips[0], e);
      if d.out.Err? then d else AddAll(page, req, i, target, chips[1..], d.exec)
  }

  function Without(chips: seq<string>, drop: seq<string>): (r: seq<string>)
    ensures forall c :: c in r <==> c in chips && c !in drop
    ensures |r| <= |chips|
  {
    if chips == [] then []
    else (if chips[0] in drop then [] else [chips[0]]) + Without(chips[1..], drop)
  }

  /** The membership the strategy starts from; refused unless it is complete and without duplicates. */
  function InitialMembers(page: Page, req: Request, target: Target, e: Exec): Did<seq<string>> {
    var look := StepLook(page, req, e);
    if look.out.Err? then Did(look.exec, Err(look.out.failure))
    else
      var members := MembersOf(look.out.value, target, look.exec.run.blocks);
      var at := WithBlocks(look.exec, members.blocks);
      if members.out.Err? then Did(at, Err(members.out.failure))
      else if |ToSet(members.out.value)| != |members.out.value| then Did(at, Own(TargetAmbiguous))
      else Did(at, members.out)
  }

  /** Make the control hold exactly these values. */
  function WriteExactSet(page: Page, req: Request, i: nat, target: Target, desired: seq<string>, e: Exec): Did<string> {
    var initial := InitialMembers(page, req, target, e);
    if initial.out.Err? then Did(initial.exec, Err(initial.out.failure))
    else Replace(page, req, i, target, Without(initial.out.value, desired), desired, initial.exec)
  }

  /** Remove what is too much, then add what is wanted. */
  function Replace(
    page: Page, req: Request, i: nat, target: Target, extra: seq<string>, desired: seq<string>, e: Exec): Did<string>
  {
    var removed := RemoveAll(page, req, i, target, extra, e);
    if removed.out.Err? then Did(removed.exec, Err(removed.out.failure))
    else
      var added := AddAll(page, req, i, target, desired, removed.exec);
      Did(added.exec, if added.out.Err? then Err(added.out.failure) else Ok(""))
  }

  // --- What any page allows ------------------------------------------------------------------------------------------

  /** A stretch of one field's work: at most `n` acts, and progress, scope and pins as they must be. */
  ghost predicate Worked(page: Page, req: Request, i: nat, n: nat, base: nat, e: Exec, d: Exec) {
    && Kept(page, req, i, n, e.run, d.run)
    && PinsHold(req, d.run.pins)
    && (ProgressHolds(e, base) ==> ProgressHolds(d, base))
    && (!e.progress.NotStarted? ==> !d.progress.NotStarted?)
    && (e.navigation ==> d.navigation)
  }

  predicate SameEffects(e: Exec, d: Exec) { d.removed == e.removed && d.added == e.added }

  lemma WorkedTrans(page: Page, req: Request, i: nat, m: nat, n: nat, base: nat, e: Exec, c: Exec, d: Exec)
    requires Worked(page, req, i, m, base, e, c) && Worked(page, req, i, n, base, c, d)
    ensures Worked(page, req, i, m + n, base, e, d)
  {
    KeptTrans(page, req, i, m, n, e.run, c.run, d.run);
  }

  lemma WorkedMore(page: Page, req: Request, i: nat, m: nat, n: nat, base: nat, e: Exec, d: Exec)
    requires Worked(page, req, i, m, base, e, d) && m <= n
    ensures Worked(page, req, i, n, base, e, d)
  {
  }

  lemma WorkedPins(page: Page, req: Request, i: nat, n: nat, base: nat, e: Exec, d: Exec)
    requires Worked(page, req, i, n, base, e, d)
    ensures PinsHold(req, d.run.pins)
  {
  }

  lemma GuardWorks(page: Page, req: Request, i: nat, base: nat, e: Exec)
    requires PinsHold(req, e.run.pins)
    ensures Worked(page, req, i, 0, base, e, WithRun(e, Guard(page, req, e.run).run))
  {
    GuardKeeps(page, req, i, e.run);
  }

  lemma ObserveWorks(page: Page, req: Request, i: nat, base: nat, e: Exec)
    requires PinsHold(req, e.run.pins)
    ensures Worked(page, req, i, 0, base, e, WithRun(e, Observe(page, req, e.run).run))
  {
    ObserveEffect(page, req, e.run);
    ObserveKeeps(page, req, i, e.run);
  }

  lemma PinningWorks(page: Page, req: Request, i: nat, base: nat, e: Exec, blocks: Blocks)
    requires PinsHold(req, e.run.pins) && BlocksKept(e.run.blocks, blocks)
    ensures Worked(page, req, i, 0, base, e, WithBlocks(e, blocks))
  {
  }

  lemma StepActWorks(page: Page, req: Request, i: nat, base: nat, e: Exec, action: Action)
    requires PinsHold(req, e.run.pins)
    ensures var d := StepAct(page, req, i, e, action);
      Worked(page, req, i, 1, base, e, d.exec) && SameEffects(e, d.exec)
  {
    DispatchKeeps(page, req, i, true, e, action);
    DispatchKeepsProgress(page, req, i, true, e, action, base);
  }

  lemma StepLookWorks(page: Page, req: Request, i: nat, base: nat, e: Exec)
    requires PinsHold(req, e.run.pins)
    ensures var d := StepLook(page, req, e);
      Worked(page, req, i, 0, base, e, d.exec) && SameEffects(e, d.exec)
  {
    GuardWorks(page, req, i, base, e);
    var g := Guard(page, req, e.run);
    if g.out.Ok? {
      ObserveWorks(page, req, i, base, WithRun(e, g.run));
      WorkedTrans(page, req, i, 0, 0, base, e, WithRun(e, g.run), StepLook(page, req, e).exec);
    }
  }

  lemma AgainKeepsBlocks(elements: seq<Element>, target: Target, blocks: Blocks)
    ensures BlocksKept(blocks, Again(elements, target, blocks).blocks)
    ensures forall popup :: ControlOf(elements, target, blocks, popup).blocks == Again(elements, target, blocks).blocks
    ensures MembersOf(elements, target, blocks).blocks == Again(elements, target, blocks).blocks
  {
    ResolveKeepsBlocks(elements, target.selector, blocks);
  }

  /** Looking, and then reading the control, keeps everything; it may pin its block. */
  lemma LookedAgainWorks(
    page: Page, req: Request, i: nat, base: nat, e: Exec, seen: Exec, elements: seq<Element>, target: Target)
    requires Worked(page, req, i, 0, base, e, seen)
    ensures Worked(page, req, i, 0, base, e, WithBlocks(seen, Again(elements, target, seen.run.blocks).blocks))
  {
    AgainKeepsBlocks(elements, target, seen.run.blocks);
    var blocks := Again(elements, target, seen.run.blocks).blocks;
    PinningWorks(page, req, i, base, seen, blocks);
    WorkedTrans(page, req, i, 0, 0, base, e, seen, WithBlocks(seen, blocks));
  }

  lemma GlanceOptionWorks(
    page: Page, req: Request, i: nat, base: nat, target: Target, wanted: string, popup: Option<string>, e: Exec)
    requires PinsHold(req, e.run.pins)
    ensures var g := GlanceOption(page, req, target, wanted, popup, e);
      Worked(page, req, i, 0, base, e, g.exec) && SameEffects(e, g.exec)
  {
    var o := Observe(page, req, e.run);
    ObserveWorks(page, req, i, base, e);
    if o.out.Ok? {
      AgainKeepsBlocks(o.out.value, target, o.run.blocks);
      LookedAgainWorks(page, req, i, base, e, WithRun(e, o.run), o.out.value, target);
    }
  }

  lemma GlanceChipWorks(
    page: Page, req: Request, i: nat, base: nat, target: Target, chip: string, present: bool, e: Exec)
    requires PinsHold(req, e.run.pins)
    ensures var g := GlanceChip(page, req, target, chip, present, e);
      Worked(page, req, i, 0, base, e, g.exec) && SameEffects(e, g.exec)
  {
    var o := Observe(page, req, e.run);
    ObserveWorks(page, req, i, base, e);
    if o.out.Ok? {
      AgainKeepsBlocks(o.out.value, target, o.run.blocks);
      LookedAgainWorks(page, req, i, base, e, WithRun(e, o.run), o.out.value, target);
    }
  }

  lemma PatienceWorks<T>(page: Page, req: Request, i: nat, base: nat, e: Exec, g: Glance<T>, attempt: nat)
    requires Worked(page, req, i, 0, base, e, g.exec)
    ensures var d := Patience(page, req, g, attempt);
      Worked(page, req, i, 0, base, e, d.exec) && SameEffects(g.exec, d.exec)
  {
    WorkedPins(page, req, i, 0, base, e, g.exec);
    GuardWorks(page, req, i, base, g.exec);
    WorkedTrans(page, req, i, 0, 0, base, e, g.exec, WithRun(g.exec, Guard(page, req, g.exec.run).run));
  }

  /** One read, and then the answer or the rest of the reads. */
  lemma AwaitOptionUnrolls(
    page: Page, req: Request, target: Target, wanted: string, popup: Option<string>, e: Exec, attempt: nat)
    ensures var glance := Patience(page, req, GlanceOption(page, req, target, wanted, popup, e), attempt);
      AwaitOption(page, req, target, wanted, popup, e, attempt) ==
        if glance.out.Err? then Did(glance.exec, Err(glance.out.failure))
        else if glance.out.value.Have? then Did(glance.exec, Ok(glance.out.value.value))
        else AwaitOption(page, req, target, wanted, glance.popup, glance.exec, attempt + 1)
  {
  }

  lemma AwaitChipUnrolls(
    page: Page, req: Request, target: Target, chip: string, present: bool, e: Exec, attempt: nat)
    ensures var glance := Patience(page, req, GlanceChip(page, req, target, chip, present, e), attempt);
      AwaitChip(page, req, target, chip, present, e, attempt) ==
        if glance.out.Err? then Did(glance.exec, Err(glance.out.failure))
        else if glance.out.value.Have? then Did(glance.exec, Ok(glance.out.value.value))
        else AwaitChip(page, req, target, chip, present, glance.exec, attempt + 1)
  {
  }

  lemma GlancedOptionWorks(
    page: Page, req: Request, i: nat, base: nat,
    target: Target, wanted: string, popup: Option<string>, e: Exec, attempt: nat)
    requires PinsHold(req, e.run.pins)
    ensures var g := Patience(page, req, GlanceOption(page, req, target, wanted, popup, e), attempt);
      Worked(page, req, i, 0, base, e, g.exec) && SameEffects(e, g.exec) && PinsHold(req, g.exec.run.pins)
  {
    GlanceOptionWorks(page, req, i, base, target, wanted, popup, e);
    PatienceWorks(page, req, i, base, e, GlanceOption(page, req, target, wanted, popup, e), attempt);
  }

  lemma AwaitOptionStep(
    page: Page, req: Request, i: nat, base: nat,
    target: Target, wanted: string, popup: Option<string>, e: Exec, attempt: nat)
    requires PinsHold(req, e.run.pins)
    requires var g := Patience(page, req, GlanceOption(page, req, target, wanted, popup, e), attempt);
      g.out.Ok? && g.out.value.Wait? ==>
        var d := AwaitOption(page, req, target, wanted, g.popup, g.exec, attempt + 1);
        Worked(page, req, i, 0, base, g.exec, d.exec) && SameEffects(g.exec, d.exec)
    ensures var d := AwaitOption(page, req, target, wanted, popup, e, attempt);
      Worked(page, req, i, 0, base, e, d.exec) && SameEffects(e, d.exec)
  {
    GlancedOptionWorks(page, req, i, base, target, wanted, popup, e, attempt);
    AwaitOptionUnrolls(page, req, target, wanted, popup, e, attempt);
    var g := Patience(page, req, GlanceOption(page, req, target, wanted, popup, e), attempt);
    if g.out.Ok? && g.out.value.Wait? {
      WorkedTrans(page, req, i, 0, 0, base, e, g.exec, AwaitOption(page, req, target, wanted, popup, e, attempt).exec);
    }
  }

  lemma {:induction false} AwaitOptionWorks(
    page: Page, req: Request, i: nat, base: nat,
    target: Target, wanted: string, popup: Option<string>, e: Exec, attempt: nat)
    requires PinsHold(req, e.run.pins)
    ensures var d := AwaitOption(page, req, target, wanted, popup, e, attempt);
      Worked(page, req, i, 0, base, e, d.exec) && SameEffects(e, d.exec)
    decreases req.policy.maxReobserve - attempt
  {
    GlancedOptionWorks(page, req, i, base, target, wanted, popup, e, attempt);
    var g := Patience(page, req, GlanceOption(page, req, target, wanted, popup, e), attempt);
    if g.out.Ok? && g.out.value.Wait? {
      AwaitOptionWorks(page, req, i, base, target, wanted, g.popup, g.exec, attempt + 1);
    }
    AwaitOptionStep(page, req, i, base, target, wanted, popup, e, attempt);
  }

  lemma GlancedChipWorks(
    page: Page, req: Request, i: nat, base: nat, target: Target, chip: string, present: bool, e: Exec, attempt: nat)
    requires PinsHold(req, e.run.pins)
    ensures var g := Patience(page, req, GlanceChip(page, req, target, chip, present, e), attempt);
      Worked(page, req, i, 0, base, e, g.exec) && SameEffects(e, g.exec) && PinsHold(req, g.exec.run.pins)
  {
    GlanceChipWorks(page, req, i, base, target, chip, present, e);
    PatienceWorks(page, req, i, base, e, GlanceChip(page, req, target, chip, present, e), attempt);
  }

  lemma AwaitChipStep(
    page: Page, req: Request, i: nat, base: nat, target: Target, chip: string, present: bool, e: Exec, attempt: nat)
    requires PinsHold(req, e.run.pins)
    requires var g := Patience(page, req, GlanceChip(page, req, target, chip, present, e), attempt);
      g.out.Ok? && g.out.value.Wait? ==>
        var d := AwaitChip(page, req, target, chip, present, g.exec, attempt + 1);
        Worked(page, req, i, 0, base, g.exec, d.exec) && SameEffects(g.exec, d.exec)
    ensures var d := AwaitChip(page, req, target, chip, present, e, attempt);
      Worked(page, req, i, 0, base, e, d.exec) && SameEffects(e, d.exec)
  {
    GlancedChipWorks(page, req, i, base, target, chip, present, e, attempt);
    AwaitChipUnrolls(page, req, target, chip, present, e, attempt);
    var g := Patience(page, req, GlanceChip(page, req, target, chip, present, e), attempt);
    if g.out.Ok? && g.out.value.Wait? {
      WorkedTrans(page, req, i, 0, 0, base, e, g.exec, AwaitChip(page, req, target, chip, present, e, attempt).exec);
    }
  }

  lemma {:induction false} AwaitChipWorks(
    page: Page, req: Request, i: nat, base: nat, target: Target, chip: string, present: bool, e: Exec, attempt: nat)
    requires PinsHold(req, e.run.pins)
    ensures var d := AwaitChip(page, req, target, chip, present, e, attempt);
      Worked(page, req, i, 0, base, e, d.exec) && SameEffects(e, d.exec)
    decreases req.policy.maxReobserve - attempt
  {
    GlancedChipWorks(page, req, i, base, target, chip, present, e, attempt);
    var g := Patience(page, req, GlanceChip(page, req, target, chip, present, e), attempt);
    if g.out.Ok? && g.out.value.Wait? {
      AwaitChipWorks(page, req, i, base, target, chip, present, g.exec, attempt + 1);
    }
    AwaitChipStep(page, req, i, base, target, chip, present, e, attempt);
  }

  lemma OpenInputWorks(page: Page, req: Request, i: nat, base: nat, target: Target, ref: string, e: Exec)
    requires PinsHold(req, e.run.pins)
    ensures var d := OpenInput(page, req, i, target, ref, e);
      Worked(page, req, i, 1, base, e, d.exec) && SameEffects(e, d.exec)
  {
    var clicked := StepAct(page, req, i, e, Click(ref));
    StepActWorks(page, req, i, base, e, Click(ref));
    if clicked.out.Ok? {
      WorkedPins(page, req, i, 1, base, e, clicked.exec);
      var look := StepLook(page, req, clicked.exec);
      StepLookWorks(page, req, i, base, clicked.exec);
      if look.out.Ok? {
        AgainKeepsBlocks(look.out.value, target, look.exec.run.blocks);
        LookedAgainWorks(page, req, i, base, clicked.exec, look.exec, look.out.value, target);
      }
      WorkedTrans(page, req, i, 1, 0, base, e, clicked.exec, OpenInput(page, req, i, target, ref, e).exec);
    }
  }

  lemma ChooseWorks(
    page: Page, req: Request, i: nat, base: nat, target: Target, wanted: string, popup: Option<string>, e: Exec)
    requires PinsHold(req, e.run.pins)
    ensures var d := Choose(page, req, i, target, wanted, popup, e);
      && Worked(page, req, i, 1, base, e, d.exec) && SameEffects(e, d.exec)
      && (d.out.Ok? ==> EndsWithAct(d.exec, i))
  {
    AwaitOptionWorks(page, req, i, base, target, wanted, popup, e, 0);
    var option := AwaitOption(page, req, target, wanted, popup, e, 0);
    WorkedMore(page, req, i, 0, 1, base, e, option.exec);
    if option.out.Ok? {
      WorkedPins(page, req, i, 0, base, e, option.exec);
      StepActWorks(page, req, i, base, option.exec, Click(option.out.value.ref));
      StepActIsLast(page, req, i, option.exec, Click(option.out.value.ref));
      WorkedTrans(page, req, i, 0, 1, base, e, option.exec, Choose(page, req, i, target, wanted, popup, e).exec);
    }
  }

  lemma TypeAndChooseWorks(
    page: Page, req: Request, i: nat, base: nat, target: Target, wanted: string, input: Control, e: Exec)
    requires PinsHold(req, e.run.pins)
    ensures var d := TypeAndChoose(page, req, i, target, wanted, input, e);
      && Worked(page, req, i, 2, base, e, d.exec) && SameEffects(e, d.exec)
      && (d.out.Ok? ==> EndsWithAct(d.exec, i))
  {
    var action := TypeText(input.element.ref, wanted);
    StepActWorks(page, req, i, base, e, action);
    var typed := StepAct(page, req, i, e, action);
    WorkedMore(page, req, i, 1, 2, base, e, typed.exec);
    if typed.out.Ok? {
      WorkedPins(page, req, i, 1, base, e, typed.exec);
      ChooseWorks(page, req, i, base, target, wanted, input.popup, typed.exec);
      WorkedTrans(page, req, i, 1, 1, base, e, typed.exec,
        Choose(page, req, i, target, wanted, input.popup, typed.exec).exec);
    }
  }

  /** On any page a typeahead sends at most three acts. */
  lemma TypeaheadWorks(page: Page, req: Request, i: nat, base: nat, target: Target, text: string, ref: string, e: Exec)
    requires PinsHold(req, e.run.pins)
    ensures var d := Typeahead(page, req, i, target, text, ref, e);
      && Worked(page, req, i, 3, base, e, d.exec) && SameEffects(e, d.exec)
      && (d.out.Ok? ==> EndsWithAct(d.exec, i))
  {
    var input := OpenInput(page, req, i, target, ref, e);
    OpenInputWorks(page, req, i, base, target, ref, e);
    WorkedMore(page, req, i, 1, 3, base, e, input.exec);
    if Trim(text) == "" {
      NothingWorks(page, req, i, 3, base, e);
    } else if input.out.Ok? {
      WorkedPins(page, req, i, 1, base, e, input.exec);
      TypeAndChooseWorks(page, req, i, base, target, Trim(text), input.out.value, input.exec);
      WorkedTrans(page, req, i, 1, 2, base, e, input.exec, Typeahead(page, req, i, target, text, ref, e).exec);
    }
  }

  lemma NothingWorks(page: Page, req: Request, i: nat, n: nat, base: nat, e: Exec)
    requires PinsHold(req, e.run.pins)
    ensures Worked(page, req, i, n, base, e, e)
  {
  }

  predicate EndsWithAct(e: Exec, i: nat) {
    var n := |e.run.acts|;
    n > 0 && e.run.acts[n - 1].field == i && e.run.acts[n - 1].when < e.run.tick
  }

  /** A step that succeeds leaves its own act last. */
  lemma StepActIsLast(page: Page, req: Request, i: nat, e: Exec, action: Action)
    ensures StepAct(page, req, i, e, action).out.Ok? ==> EndsWithAct(StepAct(page, req, i, e, action).exec, i)
  {
  }

  // --- What a write starts from -----------------------------------------------------------------------------------------

  predicate HasMembers(e: Element, target: Target, members: seq<string>) {
    && e.evidence.node == Some(target.node) && e.evidence.block == target.block && e.evidence.multi
    && CommittedMembers(e) == Some(members)
  }

  /** A complete view after these acts: one position answers the selector, and the control there has these members. */
  ghost predicate MembersSeen(page: Page, target: Target, acts: seq<Act>, t: nat, members: seq<string>) {
    && page.view(t, acts).Sees? && !page.view(t, acts).view.incomplete
    && exists k: nat ::
      OnlyAt(page.view(t, acts).view.elements, target.selector, k)
        && HasMembers(page.view(t, acts).view.elements[k], target, members)
  }

  ghost predicate SeenBetween(page: Page, target: Target, s: Run, r: Run, members: seq<string>) {
    exists t :: s.tick <= t < r.tick && MembersSeen(page, target, s.acts, t, members)
  }

  lemma StepLookIsSeen(page: Page, req: Request, e: Exec) returns (t: nat, view: View)
    requires PinsHold(req, e.run.pins) && StepLook(page, req, e).out.Ok?
    ensures var d := StepLook(page, req, e);
      && d.exec.run.acts == e.run.acts && e.run.tick <= t < d.exec.run.tick
      && Shown(page, e.run.acts, t, view) && d.out.value == view.elements
  {
    var g := Guard(page, req, e.run).run;
    ObserveEffect(page, req, g);
    t, view := ObservedIsShown(page, req, g);
  }

  /** The membership a write starts from was on the page. */
  lemma InitialIsSeen(page: Page, req: Request, target: Target, e: Exec)
    requires PinsHold(req, e.run.pins) && InitialMembers(page, req, target, e).out.Ok?
    ensures var d := InitialMembers(page, req, target, e);
      d.exec.run.acts == e.run.acts && SeenBetween(page, target, e.run, d.exec.run, d.out.value)
  {
    var look := StepLook(page, req, e);
    var t, view := StepLookIsSeen(page, req, e);
    var k := ResolvedAt(view.elements, target.selector, look.exec.run.blocks);
    assert OnlyAt(view.elements, target.selector, k);
    assert MembersSeen(page, target, e.run.acts, t, InitialMembers(page, req, target, e).out.value);
  }

  // --- Effects are confirmed --------------------------------------------------------------------------------------------

  /** One position answers the target's selector, and the control there has the chip among its members, or not. */
  ghost predicate ShowsChip(elements: seq<Element>, target: Target, chip: string, present: bool) {
    exists k: nat :: OnlyAt(elements, target.selector, k) && HasChip(elements[k], target, chip, present)
  }

  predicate HasChip(e: Element, target: Target, chip: string, present: bool) {
    && e.evidence.node == Some(target.node) && e.evidence.block == target.block && e.evidence.multi
    && CommittedMembers(e).Some? && (chip in CommittedMembers(e).value) == present
  }

  ghost predicate SeenAfter(page: Page, target: Target, acts: seq<Act>, t: nat, chip: string, present: bool) {
    && page.view(t, acts).Sees? && !page.view(t, acts).view.incomplete
    && ShowsChip(page.view(t, acts).view.elements, target, chip, present)
  }

  /** After the run's n-th act, if there is one, and before its next, or before now. */
  predicate InGap(s: Run, n: nat, t: nat) {
    && n <= |s.acts| && (n > 0 ==> s.acts[n - 1].when < t)
    && (if n < |s.acts| then t < s.acts[n].when else t < s.tick)
  }

  /** Right after the n-th act, one of this field. */
  predicate JustAfter(i: nat, s: Run, n: nat, t: nat) {
    0 < n && InGap(s, n, t) && s.acts[n - 1].field == i
  }

  /** Right after some act of this field a complete view showed the chip there, or gone. */
  ghost predicate Confirmed(page: Page, i: nat, target: Target, s: Run, chip: string, present: bool) {
    exists n: nat, t: nat :: JustAfter(i, s, n, t) && SeenAfter(page, target, s.acts[..n], t, chip, present)
  }

  lemma ConfirmedStays(page: Page, i: nat, target: Target, s: Run, r: Run, chip: string, present: bool)
    requires Confirmed(page, i, target, s, chip, present)
    requires |s.acts| <= |r.acts| && r.acts[..|s.acts|] == s.acts && s.tick <= r.tick && Placed(s, r)
    ensures Confirmed(page, i, target, r, chip, present)
  {
    var n: nat, t: nat :| JustAfter(i, s, n, t) && SeenAfter(page, target, s.acts[..n], t, chip, present);
    GapStays(s, r, n, t);
    assert JustAfter(i, r, n, t);
  }

  lemma GapStays(s: Run, r: Run, n: nat, t: nat)
    requires InGap(s, n, t)
    requires |s.acts| <= |r.acts| && r.acts[..|s.acts|] == s.acts && s.tick <= r.tick && Placed(s, r)
    ensures InGap(r, n, t) && r.acts[..n] == s.acts[..n] && (n > 0 ==> r.acts[n - 1] == s.acts[n - 1])
  {
    assert forall k :: 0 <= k < |s.acts| ==> r.acts[k] == r.acts[..|s.acts|][k];
    assert r.acts[..n] == r.acts[..|s.acts|][..n];
  }

  lemma MembersAreShown(elements: seq<Element>, target: Target, blocks: Blocks, chip: string)
    requires MembersOf(elements, target, blocks).out.Ok?
    ensures ShowsChip(elements, target, chip, chip in MembersOf(elements, target, blocks).out.value)
  {
    var k := ResolvedAt(elements, target.selector, blocks);
    assert OnlyAt(elements, target.selector, k);
  }

  /** Between the two a complete view showed the chip there, or gone, after the acts so far. */
  ghost predicate Seen(page: Page, target: Target, s: Run, r: Run, chip: string, present: bool) {
    exists t :: s.tick <= t < r.tick && SeenAfter(page, target, s.acts, t, chip, present)
  }

  lemma GlanceIsSeen(page: Page, req: Request, target: Target, chip: string, present: bool, e: Exec)
    requires PinsHold(req, e.run.pins)
    ensures var g := GlanceChip(page, req, target, chip, present, e);
      && g.exec.run.acts == e.run.acts && PinsHold(req, g.exec.run.pins) && e.run.tick <= g.exec.run.tick
      && (g.out.Ok? && g.out.value.Have? ==> Seen(page, target, e.run, g.exec.run, chip, present))
  {
    var o := Observe(page, req, e.run);
    ObserveEffect(page, req, e.run);
    var g := GlanceChip(page, req, target, chip, present, e);
    if g.out.Ok? && g.out.value.Have? {
      var t, view := ObservedIsShown(page, req, e.run);
      MembersAreShown(o.out.value, target, o.run.blocks, chip);
      assert SeenAfter(page, target, e.run.acts, t, chip, present);
    }
  }

  lemma PatienceOnlyWaits<T>(page: Page, req: Request, glance: Glance<T>, attempt: nat)
    ensures var g := Patience(page, req, glance, attempt);
      && g.exec.run.acts == glance.exec.run.acts && g.exec.run.pins == glance.exec.run.pins
      && glance.exec.run.tick <= g.exec.run.tick
      && (g.out.Ok? && g.out.value.Have? ==> g == glance)
  {
  }

  lemma GlancedIsSeen(page: Page, req: Request, target: Target, chip: string, present: bool, e: Exec, attempt: nat)
    requires PinsHold(req, e.run.pins)
    ensures var g := Patience(page, req, GlanceChip(page, req, target, chip, present, e), attempt);
      && g.exec.run.acts == e.run.acts && PinsHold(req, g.exec.run.pins) && e.run.tick <= g.exec.run.tick
      && (g.out.Ok? && g.out.value.Have? ==> Seen(page, target, e.run, g.exec.run, chip, present))
  {
    GlanceIsSeen(page, req, target, chip, present, e);
    PatienceOnlyWaits(page, req, GlanceChip(page, req, target, chip, present, e), attempt);
  }

  lemma AwaitedStep(page: Page, req: Request, target: Target, chip: string, present: bool, e: Exec, attempt: nat)
    requires PinsHold(req, e.run.pins)
    requires var g := Patience(page, req, GlanceChip(page, req, target, chip, present, e), attempt);
      g.out.Ok? && g.out.value.Wait? ==>
        var d := AwaitChip(page, req, target, chip, present, g.exec, attempt + 1);
        d.exec.run.acts == g.exec.run.acts && (d.out.Ok? ==> Seen(page, target, g.exec.run, d.exec.run, chip, present))
    ensures var d := AwaitChip(page, req, target, chip, present, e, attempt);
      d.exec.run.acts == e.run.acts && (d.out.Ok? ==> Seen(page, target, e.run, d.exec.run, chip, present))
  {
    GlancedIsSeen(page, req, target, chip, present, e, attempt);
    AwaitChipUnrolls(page, req, target, chip, present, e, attempt);
  }

  /** A chip awaited with success was seen, after all acts so far. */
  lemma {:induction false} AwaitedIsSeen(
    page: Page, req: Request, target: Target, chip: string, present: bool, e: Exec, attempt: nat)
    requires PinsHold(req, e.run.pins)
    ensures var d := AwaitChip(page, req, target, chip, present, e, attempt);
      d.exec.run.acts == e.run.acts && (d.out.Ok? ==> Seen(page, target, e.run, d.exec.run, chip, present))
    decreases req.policy.maxReobserve - attempt
  {
    GlancedIsSeen(page, req, target, chip, present, e, attempt);
    var g := Patience(page, req, GlanceChip(page, req, target, chip, present, e), attempt);
    if g.out.Ok? && g.out.value.Wait? {
      AwaitedIsSeen(page, req, target, chip, present, g.exec, attempt + 1);
    }
    AwaitedStep(page, req, target, chip, present, e, attempt);
  }

  lemma AwaitedIsConfirmed(page: Page, req: Request, i: nat, target: Target, chip: string, present: bool, e: Exec)
    requires PinsHold(req, e.run.pins) && EndsWithAct(e, i)
    ensures var d := AwaitChip(page, req, target, chip, present, e, 0);
      d.out.Ok? ==> Confirmed(page, i, target, d.exec.run, chip, present)
  {
    AwaitedIsSeen(page, req, target, chip, present, e, 0);
    var d := AwaitChip(page, req, target, chip, present, e, 0);
    if d.out.Ok? {
      var t :| e.run.tick <= t < d.exec.run.tick && SeenAfter(page, target, e.run.acts, t, chip, present);
      assert e.run.acts[..|e.run.acts|] == e.run.acts;
      assert JustAfter(i, d.exec.run, |e.run.acts|, t);
    }
  }

  lemma ClickRemoverWorks(page: Page, req: Request, i: nat, base: nat, target: Target, chip: string, e: Exec)
    requires PinsHold(req, e.run.pins)
    ensures var d := ClickRemover(page, req, i, target, chip, e);
      && Worked(page, req, i, 1, base, e, d.exec) && SameEffects(e, d.exec)
      && (d.out.Ok? ==> EndsWithAct(d.exec, i))
  {
    var look := StepLook(page, req, e);
    StepLookWorks(page, req, i, base, e);
    WorkedMore(page, req, i, 0, 1, base, e, look.exec);
    if look.out.Ok? && RemoverOf(look.out.value, target, chip).Ok? {
      var action := Click(RemoverOf(look.out.value, target, chip).value.ref);
      WorkedPins(page, req, i, 0, base, e, look.exec);
      StepActWorks(page, req, i, base, look.exec, action);
      StepActIsLast(page, req, i, look.exec, action);
      WorkedTrans(page, req, i, 0, 1, base, e, look.exec, StepAct(page, req, i, look.exec, action).exec);
    }
  }

  lemma EffectsDoNotMatter(
    page: Page, req: Request, i: nat, n: nat, base: nat, e: Exec, d: Exec, removed: seq<string>, added: seq<string>)
    requires Worked(page, req, i, n, base, e, d)
    ensures Worked(page, req, i, n, base, e, d.(removed := removed, added := added))
  {
  }

  /** After an act of the field, a chip awaited with success is confirmed. */
  lemma AwaitedWorks(
    page: Page, req: Request, i: nat, n: nat, base: nat, target: Target, chip: string, present: bool, e: Exec, acted: Exec)
    requires Worked(page, req, i, n, base, e, acted) && EndsWithAct(acted, i)
    ensures var d := AwaitChip(page, req, target, chip, present, acted, 0);
      && Worked(page, req, i, n, base, e, d.exec) && SameEffects(acted, d.exec)
      && (d.out.Ok? ==> Confirmed(page, i, target, d.exec.run, chip, present))
  {
    WorkedPins(page, req, i, n, base, e, acted);
    var d := AwaitChip(page, req, target, chip, present, acted, 0);
    AwaitChipWorks(page, req, i, base, target, chip, present, acted, 0);
    AwaitedIsConfirmed(page, req, i, target, chip, present, acted);
    WorkedTrans(page, req, i, n, 0, base, e, acted, d.exec);
  }

  /** Removing one chip: at most one act, and the removal is recorded exactly when it is confirmed. */
  lemma RemoveChipWorks(page: Page, req: Request, i: nat, base: nat, target: Target, chip: string, e: Exec)
    requires PinsHold(req, e.run.pins)
    ensures var d := RemoveChip(page, req, i, target, chip, e);
      && Worked(page, req, i, 1, base, e, d.exec)
      && d.exec.added == e.added
      && d.exec.removed == (if d.out.Ok? then e.removed + [chip] else e.removed)
      && (d.out.Ok? ==> Confirmed(page, i, target, d.exec.run, chip, false))
  {
    var clicked := ClickRemover(page, req, i, target, chip, e);
    ClickRemoverWorks(page, req, i, base, target, chip, e);
    if clicked.out.Ok? {
      var gone := AwaitChip(page, req, target, chip, false, clicked.exec, 0);
      AwaitedWorks(page, req, i, 1, base, target, chip, false, e, clicked.exec);
      EffectsDoNotMatter(page, req, i, 1, base, e, gone.exec, gone.exec.removed + [chip], gone.exec.added);
    }
  }

  lemma FindAbsentWorks(page: Page, req: Request, i: nat, base: nat, target: Target, chip: string, e: Exec)
    requires PinsHold(req, e.run.pins)
    ensures var d := FindAbsent(page, req, target, chip, e);
      Worked(page, req, i, 0, base, e, d.exec) && SameEffects(e, d.exec)
  {
    var look := StepLook(page, req, e);
    StepLookWorks(page, req, i, base, e);
    if look.out.Ok? {
      var members := MembersOf(look.out.value, target, look.exec.run.blocks);
      var at := WithBlocks(look.exec, members.blocks);
      AgainKeepsBlocks(look.out.value, target, look.exec.run.blocks);
      LookedAgainWorks(page, req, i, base, e, look.exec, look.out.value, target);
      LookedAgainWorks(page, req, i, base, e, at, look.out.value, target);
    }
  }

  lemma AddAbsentWorks(page: Page, req: Request, i: nat, base: nat, target: Target, chip: string, ref: string, e: Exec)
    requires PinsHold(req, e.run.pins)
    ensures var d := AddAbsent(page, req, i, target, chip, ref, e);
      && Worked(page, req, i, 3, base, e, d.exec)
      && d.exec.removed == e.removed
      && d.exec.added == (if d.out.Ok? then e.added + [chip] else e.added)
      && (d.out.Ok? ==> Confirmed(page, i, target, d.exec.run, chip, true))
  {
    var chosen := Typeahead(page, req, i, target, chip, ref, e);
    TypeaheadWorks(page, req, i, base, target, chip, ref, e);
    if chosen.out.Ok? {
      var there := AwaitChip(page, req, target, chip, true, chosen.exec, 0);
      AwaitedWorks(page, req, i, 3, base, target, chip, true, e, chosen.exec);
      EffectsDoNotMatter(page, req, i, 3, base, e, there.exec, there.exec.removed, there.exec.added + [chip]);
    }
  }

  /** Adding one value: at most three acts, and the addition is recorded only when it is confirmed. */
  lemma AddChipWorks(page: Page, req: Request, i: nat, base: nat, target: Target, chip: string, e: Exec)
    requires PinsHold(req, e.run.pins)
    ensures var d := AddChip(page, req, i, target, chip, e);
      && Worked(page, req, i, 3, base, e, d.exec)
      && d.exec.removed == e.removed
      && (d.exec.added == e.added
        || (d.exec.added == e.added + [chip] && Confirmed(page, i, target, d.exec.run, chip, true)))
  {
    var find := FindAbsent(page, req, target, chip, e);
    FindAbsentWorks(page, req, i, base, target, chip, e);
    WorkedMore(page, req, i, 0, 3, base, e, find.exec);
    if find.out.Ok? && find.out.value.Some? {
      WorkedPins(page, req, i, 0, base, e, find.exec);
      AddAbsentWorks(page, req, i, base, target, chip, find.out.value.value, find.exec);
      WorkedTrans(page, req, i, 0, 3, base, e, find.exec,
        AddAbsent(page, req, i, target, chip, find.out.value.value, find.exec).exec);
    }
  }

  lemma WorkedKeepsConfirmed(
    page: Page, req: Request, i: nat, n: nat, base: nat, e: Exec, d: Exec, target: Target, chip: string, present: bool)
    requires Worked(page, req, i, n, base, e, d) && Confirmed(page, i, target, e.run, chip, present)
    ensures Confirmed(page, i, target, d.run, chip, present)
  {
    ConfirmedStays(page, i, target, e.run, d.run, chip, present);
  }

  /** Every one of these chips was confirmed there, or gone. */
  ghost predicate AllConfirmed(page: Page, i: nat, target: Target, s: Run, chips: seq<string>, present: bool) {
    forall c | c in chips :: Confirmed(page, i, target, s, c, present)
  }

  lemma WorkedKeepsAll(
    page: Page, req: Request, i: nat, n: nat, base: nat, e: Exec, d: Exec, target: Target, chips: seq<string>, present: bool)
    requires Worked(page, req, i, n, base, e, d) && AllConfirmed(page, i, target, e.run, chips, present)
    ensures AllConfirmed(page, i, target, d.run, chips, present)
  {
    forall c | c in chips ensures Confirmed(page, i, target, d.run, c, present) {
      WorkedKeepsConfirmed(page, req, i, n, base, e, d, target, c, present);
    }
  }

  lemma ConfirmedJoins(page: Page, i: nat, target: Target, s: Run, first: seq<string>, more: seq<string>, present: bool)
    requires AllConfirmed(page, i, target, s, first, present) && AllConfirmed(page, i, target, s, more, present)
    ensures AllConfirmed(page, i, target, s, first + more, present)
  {
  }

  /** The removals recorded are the first `k` of these chips. */
  predicate RemovedFirst(e: Exec, d: Exec, chips: seq<string>, k: nat) {
    d.added == e.added && k <= |chips| && d.removed == e.removed + chips[..k]
  }

  lemma RemovedOneMore(e: Exec, c: Exec, d: Exec, chips: seq<string>, k: nat)
    requires chips != [] && c.added == e.added && c.removed == e.removed + [chips[0]]
    requires RemovedFirst(c, d, chips[1..], k)
    ensures RemovedFirst(e, d, chips, k + 1) && chips[..k + 1] == [chips[0]] + chips[1..][..k]
  {
    FirstAndRest(chips, k);
  }

  /** A stretch that removed these chips: one act for each at most, every recorded one confirmed. */
  ghost predicate RemovedSome(
    page: Page, req: Request, i: nat, base: nat, target: Target, chips: seq<string>, e: Exec, d: Did<bool>, k: nat)
  {
    && Worked(page, req, i, |chips|, base, e, d.exec)
    && RemovedFirst(e, d.exec, chips, k) && (d.out.Ok? ==> k == |chips|)
    && AllConfirmed(page, i, target, d.exec.run, chips[..k], false)
  }

  lemma RemoveAllStep(
    page: Page, req: Request, i: nat, base: nat, target: Target, chips: seq<string>, e: Exec, c: Exec, d: Did<bool>, k: nat)
    requires chips != [] && Worked(page, req, i, 1, base, e, c)
    requires c.added == e.added && c.removed == e.removed + [chips[0]]
    requires Confirmed(page, i, target, c.run, chips[0], false)
    requires RemovedSome(page, req, i, base, target, chips[1..], c, d, k)
    ensures RemovedSome(page, req, i, base, target, chips, e, d, k + 1)
  {
    var n := |chips[1..]|;
    WorkedTrans(page, req, i, 1, n, base, e, c, d.exec);
    WorkedKeepsAll(page, req, i, n, base, c, d.exec, target, [chips[0]], false);
    ConfirmedJoins(page, i, target, d.exec.run, [chips[0]], chips[1..][..k], false);
    RemovedOneMore(e, c, d.exec, chips, k);
    assert 1 + n == |chips|;
  }

  lemma FirstAndRest(chips: seq<string>, k: nat)
    requires chips != [] && k < |chips|
    ensures chips[..k + 1] == [chips[0]] + chips[1..][..k]
  {
  }

  lemma RemoveAllUnrolls(page: Page, req: Request, i: nat, target: Target, chips: seq<string>, e: Exec)
    requires chips != []
    ensures var d := RemoveChip(page, req, i, target, chips[0], e);
      RemoveAll(page, req, i, target, chips, e) ==
        if d.out.Err? then d else RemoveAll(page, req, i, target, chips[1..], d.exec)
  {
  }

  lemma RemoveAllFails(page: Page, req: Request, i: nat, base: nat, target: Target, chips: seq<string>, e: Exec)
    requires chips != [] && PinsHold(req, e.run.pins)
    requires RemoveChip(page, req, i, target, chips[0], e).out.Err?
    ensures RemovedSome(page, req, i, base, target, chips, e, RemoveAll(page, req, i, target, chips, e), 0)
  {
    RemoveChipWorks(page, req, i, base, target, chips[0], e);
    RemoveAllUnrolls(page, req, i, target, chips, e);
    WorkedMore(page, req, i, 1, |chips|, base, e, RemoveChip(page, req, i, target, chips[0], e).exec);
    assert chips[..0] == [];
  }

  lemma RemoveNothing(page: Page, req: Request, i: nat, base: nat, target: Target, e: Exec)
    requires PinsHold(req, e.run.pins)
    ensures RemovedSome(page, req, i, base, target, [], e, RemoveAll(page, req, i, target, [], e), 0)
  {
    NothingWorks(page, req, i, 0, base, e);
  }

  /** Removing in turn: the removals recorded are the first so many, each confirmed. */
  lemma {:induction false} RemoveAllWorks(
    page: Page, req: Request, i: nat, base: nat, target: Target, chips: seq<string>, e: Exec) returns (k: nat)
    requires PinsHold(req, e.run.pins)
    ensures RemovedSome(page, req, i, base, target, chips, e, RemoveAll(page, req, i, target, chips, e), k)
    decreases |chips|
  {
    k := 0;
    if chips == [] {
      RemoveNothing(page, req, i, base, target, e);
    } else if RemoveChip(page, req, i, target, chips[0], e).out.Err? {
      RemoveAllFails(page, req, i, base, target, chips, e);
    } else {
      var d := RemoveChip(page, req, i, target, chips[0], e).exec;
      RemoveChipWorks(page, req, i, base, target, chips[0], e);
      WorkedPins(page, req, i, 1, base, e, d);
      var more := RemoveAllWorks(page, req, i, base, target, chips[1..], d);
      RemoveAllUnrolls(page, req, i, target, chips, e);
      RemoveAllStep(page, req, i, base, target, chips, e, d, RemoveAll(page, req, i, target, chips, e), more);
      k := more + 1;
    }
  }

  /** A stretch that added some of these chips: three acts for each at most, every recorded one confirmed. */
  ghost predicate AddedSome(
    page: Page, req: Request, i: nat, base: nat, target: Target, chips: seq<string>, e: Exec, d: Exec, plus: seq<string>)
  {
    && Worked(page, req, i, 3 * |chips|, base, e, d)
    && d.removed == e.removed && d.added == e.added + plus
    && |plus| <= |chips|
    && (forall c | c in plus :: c in chips) && AllConfirmed(page, i, target, d.run, plus, true)
  }

  lemma AddAllStep(
    page: Page, req: Request, i: nat, base: nat, target: Target, chips: seq<string>, e: Exec, c: Exec, d: Exec,
    first: seq<string>, plus: seq<string>)
    requires chips != [] && Worked(page, req, i, 3, base, e, c)
    requires c.removed == e.removed && c.added == e.added + first
    requires first == [] || first == [chips[0]]
    requires AllConfirmed(page, i, target, c.run, first, true)
    requires AddedSome(page, req, i, base, target, chips[1..], c, d, plus)
    ensures AddedSome(page, req, i, base, target, chips, e, d, first + plus)
  {
    var n := 3 * |chips[1..]|;
    WorkedTrans(page, req, i, 3, n, base, e, c, d);
    WorkedKeepsAll(page, req, i, n, base, c, d, target, first, true);
    ConfirmedJoins(page, i, target, d.run, first, plus, true);
    assert 3 + n == 3 * |chips|;
  }

  lemma AddAllUnrolls(page: Page, req: Request, i: nat, target: Target, chips: seq<string>, e: Exec)
    requires chips != []
    ensures var d := AddChip(page, req, i, target, chips[0], e);
      AddAll(page, req, i, target, chips, e) ==
        if d.out.Err? then d else AddAll(page, req, i, target, chips[1..], d.exec)
  {
  }

  /** Adding in turn: everything recorded was asked for and confirmed. */
  lemma {:induction false} AddAllWorks(
    page: Page, req: Request, i: nat, base: nat, target: Target, chips: seq<string>, e: Exec) returns (plus: seq<string>)
    requires PinsHold(req, e.run.pins)
    ensures AddedSome(page, req, i, base, target, chips, e, AddAll(page, req, i, target, chips, e).exec, plus)
    decreases |chips|
  {
    plus := [];
    if chips == [] {
      NothingWorks(page, req, i, 0, base, e);
    } else {
      var d := AddChip(page, req, i, target, chips[0], e);
      AddChipWorks(page, req, i, base, target, chips[0], e);
      plus := if d.exec.added == e.added then [] else [chips[0]];
      if d.out.Ok? {
        WorkedPins(page, req, i, 3, base, e, d.exec);
        var more := AddAllWorks(page, req, i, base, target, chips[1..], d.exec);
        AddAllStep(page, req, i, base, target, chips, e, d.exec,
          AddAll(page, req, i, target, chips[1..], d.exec).exec, plus, more);
        plus := plus + more;
      } else {
        WorkedMore(page, req, i, 3, 3 * |chips|, base, e, d.exec);
      }
    }
  }

  lemma InitialMembersWorks(page: Page, req: Request, i: nat, base: nat, target: Target, e: Exec)
    requires PinsHold(req, e.run.pins)
    ensures var d := InitialMembers(page, req, target, e);
      && Worked(page, req, i, 0, base, e, d.exec) && SameEffects(e, d.exec)
      && (d.out.Ok? ==> Distinct(d.out.value) && |d.out.value| <= MAX_MEMBERS)
  {
    var look := StepLook(page, req, e);
    StepLookWorks(page, req, i, base, e);
    if look.out.Ok? {
      AgainKeepsBlocks(look.out.value, target, look.exec.run.blocks);
      LookedAgainWorks(page, req, i, base, e, look.exec, look.out.value, target);
      var members := MembersOf(look.out.value, target, look.exec.run.blocks);
      if members.out.Ok? { DistinctByCount(members.out.value); }
    }
  }

  lemma NothingWithoutItself(chips: seq<string>, drop: seq<string>)
    requires forall c | c in chips :: c in drop
    ensures Without(chips, drop) == []
  {
  }

  /** What writing an exact set did: every recorded effect was asked for and confirmed. */
  ghost predicate ExactSetEffects(page: Page, i: nat, target: Target, desired: seq<string>, d: Exec) {
    && AllConfirmed(page, i, target, d.run, d.removed, false) && (forall c | c in d.removed :: c !in desired)
    && AllConfirmed(page, i, target, d.run, d.added, true) && (forall c | c in d.added :: c in desired)
  }

  /** After the removals, the additions. */
  lemma AddingWorks(
    page: Page, req: Request, i: nat, base: nat, target: Target, extra: seq<string>, desired: seq<string>,
    e: Exec, removed: Exec, d: Exec, plus: seq<string>)
    requires Worked(page, req, i, |extra|, base, e, removed) && removed.added == [] && removed.removed == extra
    requires AllConfirmed(page, i, target, removed.run, extra, false) && forall c | c in extra :: c !in desired
    requires AddedSome(page, req, i, base, target, desired, removed, d, plus)
    ensures Worked(page, req, i, |extra| + 3 * |desired|, base, e, d)
    ensures d.removed == extra && ExactSetEffects(page, i, target, desired, d)
  {
    var n := 3 * |desired|;
    WorkedTrans(page, req, i, |extra|, n, base, e, removed, d);
    WorkedKeepsAll(page, req, i, n, base, removed, d, target, extra, false);
    assert d.added == plus;
  }

  lemma RemovingWorks(
    page: Page, req: Request, i: nat, base: nat, target: Target, extra: seq<string>, desired: seq<string>,
    e: Exec, first: Exec, removed: Did<bool>, k: nat)
    requires Worked(page, req, i, 0, base, e, first) && first.added == [] && first.removed == []
    requires (forall c | c in extra :: c !in desired) && RemovedSome(page, req, i, base, target, extra, first, removed, k)
    ensures Worked(page, req, i, |extra|, base, e, removed.exec)
    ensures removed.exec.added == [] && removed.exec.removed == extra[..k]
    ensures ExactSetEffects(page, i, target, desired, removed.exec)
    ensures k <= |extra| && (removed.out.Ok? ==> k == |extra| && extra[..k] == extra)
  {
    WorkedTrans(page, req, i, 0, |extra|, base, e, first, removed.exec);
    assert forall c | c in extra[..k] :: c in extra;
  }

  /** What replacing did: the first `k` removals, in order; additions only after all of them. */
  ghost predicate Replaced(
    page: Page, req: Request, i: nat, base: nat, target: Target, extra: seq<string>, desired: seq<string>,
    e: Exec, d: Exec, k: nat)
  {
    && Worked(page, req, i, |extra| + 3 * |desired|, base, e, d)
    && k <= |extra| && d.removed == extra[..k] && (d.added != [] ==> k == |extra|)
    && ExactSetEffects(page, i, target, desired, d)
  }

  lemma ReplaceWorks(
    page: Page, req: Request, i: nat, base: nat, target: Target, extra: seq<string>, desired: seq<string>,
    e: Exec, first: Exec) returns (k: nat)
    requires Worked(page, req, i, 0, base, e, first) && first.added == [] && first.removed == []
    requires forall c | c in extra :: c !in desired
    ensures Replaced(page, req, i, base, target, extra, desired, e, Replace(page, req, i, target, extra, desired, first).exec, k)
  {
    WorkedPins(page, req, i, 0, base, e, first);
    var removed := RemoveAll(page, req, i, target, extra, first);
    k := RemoveAllWorks(page, req, i, base, target, extra, first);
    RemovingWorks(page, req, i, base, target, extra, desired, e, first, removed, k);
    if removed.out.Err? {
      WorkedMore(page, req, i, |extra|, |extra| + 3 * |desired|, base, e, removed.exec);
    } else {
      WorkedPins(page, req, i, |extra|, base, e, removed.exec);
      var added := AddAll(page, req, i, target, desired, removed.exec).exec;
      var plus := AddAllWorks(page, req, i, base, target, desired, removed.exec);
      AddingWorks(page, req, i, base, target, extra, desired, e, removed.exec, added, plus);
    }
  }

  /** On any page, an exact set sends one act per chip to remove and three per value at most; its effects
    * are the first so many removals in order, then values asked for, and every one was confirmed. */
  lemma WriteExactSetWorks(
    page: Page, req: Request, i: nat, base: nat, target: Target, desired: seq<string>, e: Exec)
    returns (initial: seq<string>, k: nat)
    requires PinsHold(req, e.run.pins) && e.removed == [] && e.added == []
    ensures var d := WriteExactSet(page, req, i, target, desired, e);
      && (if InitialMembers(page, req, target, e).out.Ok?
          then initial == InitialMembers(page, req, target, e).out.value
          else initial == desired && d.exec.run.acts == e.run.acts)
      && |Without(initial, desired)| <= MAX_MEMBERS
      && Replaced(page, req, i, base, target, Without(initial, desired), desired, e, d.exec, k)
  {
    initial, k := desired, 0;
    NothingWithoutItself(desired, desired);
    var first := InitialMembers(page, req, target, e);
    InitialMembersWorks(page, req, i, base, target, e);
    if first.out.Err? {
      WorkedMore(page, req, i, 0, 3 * |desired|, base, e, first.exec);
    } else {
      initial := first.out.value;
      k := ReplaceWorks(page, req, i, base, target, Without(initial, desired), desired, e, first.exec);
    }
  }

  /** From the membership read on, one act per chip too many and three per value at most. */
  lemma WriteExactSetFrom(page: Page, req: Request, i: nat, target: Target, desired: seq<string>, e: Exec)
    requires PinsHold(req, e.run.pins) && e.removed == [] && e.added == []
    ensures var first := InitialMembers(page, req, target, e);
      var d := WriteExactSet(page, req, i, target, desired, e).exec;
      if first.out.Err? then d.run.acts == e.run.acts && d.removed == []
      else
        var extra := Without(first.out.value, desired);
        Kept(page, req, i, |extra| + 3 * |desired|, first.exec.run, d.run) && d.removed <= extra
  {
    var first := InitialMembers(page, req, target, e);
    InitialMembersWorks(page, req, i, 0, target, e);
    if first.out.Ok? {
      WorkedPins(page, req, i, 0, 0, e, first.exec);
      NothingWorks(page, req, i, 0, 0, first.exec);
      var k := ReplaceWorks(page, req, i, 0, target, Without(first.out.value, desired), desired, first.exec, first.exec);
    }
  }
}
