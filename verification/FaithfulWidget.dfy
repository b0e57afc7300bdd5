/** Exact-set writing on a widget that does what it says: removers remove their chip, and the typeahead
  * offers what is typed and adds what is chosen.
  */
module FaithfulWidget {
  import opened Options
  import opened AutofillPage
  import opened AutofillPorts
  import opened AutofillWidgets

  // --- The widget ------------------------------------------------------------------------------------

  /** Its refs: the input, the remove control of each chip, the option of each text; and its popup. */
  datatype Names = Names(control: string, popup: string, remover: string -> string, option: string -> string)

  datatype Widget = Widget(chips: seq<string>, focused: bool, popupShown: bool, query: string)

  ghost predicate NamesApart(n: Names) {
    && n.popup != ""
    && (forall a :: n.option(a) != n.control && n.remover(a) != n.control)
    && (forall a, b :: n.option(a) != n.remover(b))
    && (forall a, b | a != b :: n.remover(a) != n.remover(b))
  }

  /** The chips whose remove control is not the one clicked. */
  function Unclicked(n: Names, chips: seq<string>, ref: string): seq<string> {
    if chips == [] then []
    else (if n.remover(chips[0]) == ref then [] else [chips[0]]) + Unclicked(n, chips[1..], ref)
  }

  function React(n: Names, w: Widget, a: Action): Widget {
    match a
    case Click(ref) =>
      if ref == n.control then w.(focused := true, popupShown := true, query := "")
      else if w.popupShown && ref == n.option(w.query) then
        if w.query in w.chips then w else w.(chips := w.chips + [w.query])
      else w.(chips := Unclicked(n, w.chips, ref))
    case TypeText(ref, text) =>
      if ref == n.control && w.focused then w.(query := text) else w
    case _ => w
  }

  /** The widget after the acts from `base` on. */
  function Now(n: Names, start: Widget, base: nat, acts: seq<Act>): Widget {
    if |acts| <= base then start
    else React(n, Now(n, start, base, acts[..|acts| - 1]), acts[|acts| - 1].action)
  }

  predicate Bounded(chips: seq<string>) {
    |chips| <= MAX_MEMBERS && forall c | c in chips :: |c| <= MAX_MEMBER_CHARS
  }

  // --- What a faithful page is -----------------------------------------------------------------------------

  /** One field's write on one page: the pins and blocks are those its earlier observations settled. */
  datatype Setup = Setup(
    page: Page, req: Request, field: nat, target: Target,
    names: Names, start: Widget, base: nat, pins: Pins, blocks: Blocks)

  /** The control is found on its own identity and tells the truth about the widget. */
  predicate ShowsControl(x: Setup, elements: seq<Element>, w: Widget) {
    var again := Again(elements, x.target, x.blocks);
    && again.blocks == x.blocks && again.out.Ok?
    && var c := again.out.value;
      && c.ref == x.names.control && c.visible && c.enabled && c.evidence.multi
      && (Bounded(w.chips) ==> CommittedMembers(c) == Some(w.chips))
      && c.evidence.focused == w.focused
      && (w.popupShown ==> c.evidence.popupState == Some("ready") && c.evidence.popup == Some(x.names.popup))
  }

  /** Each chip has one remove control; the shown popup offers the typed text once, while it is no chip. */
  predicate ShowsParts(x: Setup, elements: seq<Element>, w: Widget) {
    && (forall chip | chip in w.chips ::
      RemoverOf(elements, x.target, chip).Ok? && RemoverOf(elements, x.target, chip).value.ref == x.names.remover(chip))
    && (w.popupShown && w.query != "" && Trim(w.query) == w.query && w.query !in w.chips ==>
      var o := OptionOf(elements, x.target, Some(x.names.popup), w.query);
      o.Ok? && o.value.Have? && o.value.value.ref == x.names.option(w.query))
  }

  ghost predicate Faithful(x: Setup) {
    && NamesApart(x.names)
    && (forall t :: x.page.lost(t).None? && x.page.elapsed(t) < x.req.policy.timeoutMs)
    && (forall t, acts, a :: x.page.answer(t, acts, a).threw.None? && !x.page.answer(t, acts, a).navigation)
    && (forall s | Settled(x, s) :: Observes(x, s))
    && (forall t, acts | |acts| >= x.base :: ShowsNow(x, t, acts))
  }

  ghost predicate ShowsNow(x: Setup, t: nat, acts: seq<Act>) {
    x.page.view(t, acts).Sees? ==>
      var w := Now(x.names, x.start, x.base, acts);
      ShowsControl(x, x.page.view(t, acts).view.elements, w) && ShowsParts(x, x.page.view(t, acts).view.elements, w)
  }

  predicate Settled(x: Setup, s: Run) {
    s.pins == x.pins && s.blocks == x.blocks && |s.acts| >= x.base
  }

  /** A settled run's observation succeeds, and leaves it settled. */
  predicate Observes(x: Setup, s: Run) {
    var o := Observe(x.page, x.req, s);
    o.out.Ok? && o.run.pins == s.pins && o.run.blocks == s.blocks && o.run.acts == s.acts
  }

  predicate On(x: Setup, e: Exec) { Settled(x, e.run) }

  function State(x: Setup, e: Exec): Widget { Now(x.names, x.start, x.base, e.run.acts) }

  /** Only the run moved, and it is settled still. */
  predicate Moved(x: Setup, e: Exec, d: Exec) {
    On(x, d) && SameEffects(e, d)
  }

  /** Nothing moved but time. */
  predicate Idle(x: Setup, e: Exec, d: Exec) {
    Moved(x, e, d) && d.run.acts == e.run.acts
  }

  // --- Single steps on a faithful page --------------------------------------------------------------------------

  lemma GuardPasses(x: Setup, e: Exec)
    requires Faithful(x) && On(x, e)
    ensures var g := Guard(x.page, x.req, e.run); g.out.Ok? && Idle(x, e, WithRun(e, g.run))
  {
    assert x.page.lost(e.run.tick).None?;
  }

  lemma ObserveShows(x: Setup, e: Exec)
    requires Faithful(x) && On(x, e)
    ensures var o := Observe(x.page, x.req, e.run);
      && o.out.Ok? && Idle(x, e, WithRun(e, o.run))
      && ShowsControl(x, o.out.value, State(x, e)) && ShowsParts(x, o.out.value, State(x, e))
  {
    assert Observes(x, e.run);
    var t, view := ObservedIsShown(x.page, x.req, e.run);
    assert ShowsNow(x, t, e.run.acts);
  }

  lemma LookShows(x: Setup, e: Exec)
    requires Faithful(x) && On(x, e)
    ensures var d := StepLook(x.page, x.req, e);
      && d.out.Ok? && Idle(x, e, d.exec)
      && ShowsControl(x, d.out.value, State(x, e)) && ShowsParts(x, d.out.value, State(x, e))
  {
    GuardPasses(x, e);
    ObserveShows(x, WithRun(e, Guard(x.page, x.req, e.run).run));
  }

  lemma SendReacts(x: Setup, e: Exec, at: int, action: Action)
    requires On(x, e)
    ensures var d := Send(x.page, x.req, x.field, at, e, action);
      && Moved(x, e, d) && |d.run.acts| == |e.run.acts| + 1
      && State(x, d) == React(x.names, State(x, e), action)
  {
    var d := Send(x.page, x.req, x.field, at, e, action);
    assert d.run.acts[..|e.run.acts|] == e.run.acts;
  }

  lemma ActReacts(x: Setup, e: Exec, action: Action)
    requires Faithful(x) && On(x, e)
    ensures var d := StepAct(x.page, x.req, x.field, e, action);
      && d.out.Ok? && Moved(x, e, d.exec) && |d.exec.run.acts| == |e.run.acts| + 1
      && State(x, d.exec) == React(x.names, State(x, e), action)
  {
    GuardPasses(x, e);
    var before := Guard(x.page, x.req, e.run).run;
    var ready := WithRun(e, before);
    SendReacts(x, ready, x.page.elapsed(e.run.tick), action);
    var sent := Send(x.page, x.req, x.field, x.page.elapsed(e.run.tick), ready, action);
    assert x.page.answer(before.tick, before.acts, action).threw.None?;
    GuardPasses(x, sent);
  }

  // --- Waiting on a faithful page -----------------------------------------------------------------------------------

  /** What is there already is found at the first read. */
  lemma ChipIsThere(x: Setup, e: Exec, chip: string, present: bool)
    requires Faithful(x) && On(x, e) && Bounded(State(x, e).chips)
    requires (chip in State(x, e).chips) == present
    ensures var d := AwaitChip(x.page, x.req, x.target, chip, present, e, 0);
      d.out.Ok? && Idle(x, e, d.exec)
  {
    ObserveShows(x, e);
    AwaitChipUnrolls(x.page, x.req, x.target, chip, present, e, 0);
  }

  lemma OptionIsGlanced(x: Setup, e: Exec)
    requires Faithful(x) && On(x, e)
    requires var w := State(x, e);
      && w.focused && w.popupShown
      && w.query != "" && Trim(w.query) == w.query && w.query !in w.chips
    ensures var w := State(x, e);
      var g := GlanceOption(x.page, x.req, x.target, w.query, Some(x.names.popup), e);
      && g.out.Ok? && g.out.value.Have? && g.out.value.value.ref == x.names.option(w.query) && Idle(x, e, g.exec)
  {
    ObserveShows(x, e);
  }

  lemma OptionIsThere(x: Setup, e: Exec)
    requires Faithful(x) && On(x, e)
    requires var w := State(x, e);
      && w.focused && w.popupShown
      && w.query != "" && Trim(w.query) == w.query && w.query !in w.chips
    ensures var w := State(x, e);
      var d := AwaitOption(x.page, x.req, x.target, w.query, Some(x.names.popup), e, 0);
      d.out.Ok? && d.out.value.ref == x.names.option(w.query) && Idle(x, e, d.exec)
  {
    OptionIsGlanced(x, e);
    AwaitOptionUnrolls(x.page, x.req, x.target, State(x, e).query, Some(x.names.popup), e, 0);
  }

  lemma InputOpens(x: Setup, e: Exec)
    requires Faithful(x) && On(x, e)
    ensures var d := OpenInput(x.page, x.req, x.field, x.target, x.names.control, e);
      && d.out.Ok? && d.out.value.element.ref == x.names.control && d.out.value.popup == Some(x.names.popup)
      && Moved(x, e, d.exec) && |d.exec.run.acts| == |e.run.acts| + 1
      && State(x, d.exec) == State(x, e).(focused := true, popupShown := true, query := "")
  {
    ActReacts(x, e, Click(x.names.control));
    var clicked := StepAct(x.page, x.req, x.field, e, Click(x.names.control)).exec;
    LookShows(x, clicked);
  }

  lemma TypedIsChosen(x: Setup, e: Exec, chip: string, input: Control)
    requires Faithful(x) && On(x, e) && chip != "" && Trim(chip) == chip
    requires State(x, e).focused && State(x, e).popupShown && chip !in State(x, e).chips
    requires input.element.ref == x.names.control && input.popup == Some(x.names.popup)
    ensures var d := TypeAndChoose(x.page, x.req, x.field, x.target, chip, input, e);
      && d.out.Ok? && Moved(x, e, d.exec) && |d.exec.run.acts| == |e.run.acts| + 2
      && State(x, d.exec).chips == State(x, e).chips + [chip]
  {
    ActReacts(x, e, TypeText(x.names.control, chip));
    var typed := StepAct(x.page, x.req, x.field, e, TypeText(x.names.control, chip)).exec;
    OptionIsThere(x, typed);
    var ready := AwaitOption(x.page, x.req, x.target, chip, Some(x.names.popup), typed, 0).exec;
    ActReacts(x, ready, Click(x.names.option(chip)));
  }

  /** The typeahead adds its text, in three acts. */
  lemma TypeaheadAdds(x: Setup, e: Exec, chip: string)
    requires Faithful(x) && On(x, e) && chip != "" && Trim(chip) == chip && chip !in State(x, e).chips
    ensures var d := Typeahead(x.page, x.req, x.field, x.target, chip, x.names.control, e);
      && d.out.Ok? && Moved(x, e, d.exec) && |d.exec.run.acts| == |e.run.acts| + 3
      && State(x, d.exec).chips == State(x, e).chips + [chip]
  {
    InputOpens(x, e);
    var input := OpenInput(x.page, x.req, x.field, x.target, x.names.control, e);
    TypedIsChosen(x, input.exec, chip, input.out.value);
  }

  // --- One chip -----------------------------------------------------------------------------------------------------

  lemma {:induction false} UnclickedIsWithout(n: Names, chips: seq<string>, chip: string)
    requires NamesApart(n)
    ensures Unclicked(n, chips, n.remover(chip)) == Without(chips, [chip])
  {
    if chips != [] { UnclickedIsWithout(n, chips[1..], chip); }
  }

  lemma RemoveChipRemoves(x: Setup, e: Exec, chip: string)
    requires Faithful(x) && On(x, e) && Bounded(State(x, e).chips) && chip in State(x, e).chips
    ensures var d := RemoveChip(x.page, x.req, x.field, x.target, chip, e);
      && d.out.Ok? && On(x, d.exec) && |d.exec.run.acts| == |e.run.acts| + 1
      && d.exec.removed == e.removed + [chip] && d.exec.added == e.added
      && State(x, d.exec).chips == Without(State(x, e).chips, [chip])
  {
    LookShows(x, e);
    var look := StepLook(x.page, x.req, e);
    var action := Click(x.names.remover(chip));
    ActReacts(x, look.exec, action);
    UnclickedIsWithout(x.names, State(x, e).chips, chip);
    var clicked := StepAct(x.page, x.req, x.field, look.exec, action).exec;
    ChipIsThere(x, clicked, chip, false);
  }

  lemma FindAbsentFinds(x: Setup, e: Exec, chip: string)
    requires Faithful(x) && On(x, e) && Bounded(State(x, e).chips)
    ensures var d := FindAbsent(x.page, x.req, x.target, chip, e);
      && Idle(x, e, d.exec)
      && d.out == Ok(if chip in State(x, e).chips then None else Some(x.names.control))
  {
    LookShows(x, e);
  }

  lemma AddChipAdds(x: Setup, e: Exec, chip: string)
    requires Faithful(x) && On(x, e) && chip != "" && Trim(chip) == chip
    requires Bounded(State(x, e).chips) && Bounded(State(x, e).chips + [chip])
    ensures var d := AddChip(x.page, x.req, x.field, x.target, chip, e);
      var plus := if chip in State(x, e).chips then [] else [chip];
      && d.out.Ok? && On(x, d.exec) && |d.exec.run.acts| == |e.run.acts| + 3 * |plus|
      && d.exec.removed == e.removed && d.exec.added == e.added + plus
      && State(x, d.exec).chips == State(x, e).chips + plus
  {
    FindAbsentFinds(x, e, chip);
    if chip !in State(x, e).chips {
      var find := FindAbsent(x.page, x.req, x.target, chip, e).exec;
      TypeaheadAdds(x, find, chip);
      var chosen := Typeahead(x.page, x.req, x.field, x.target, chip, x.names.control, find).exec;
      ChipIsThere(x, chosen, chip, true);
    }
  }

  // --- All of them ----------------------------------------------------------------------------------------------------

  lemma {:induction false} WithoutInTurn(chips: seq<string>, one: string, more: seq<string>)
    ensures Without(Without(chips, [one]), more) == Without(chips, [one] + more)
  {
    if chips != [] {
      var c, rest := chips[0], chips[1..];
      WithoutInTurn(rest, one, more);
      var inner := Without(rest, [one]);
      if c == one {
        assert Without(chips, [one]) == inner;
      } else {
        assert Without(chips, [one]) == [c] + inner;
        assert ([c] + inner)[1..] == inner;
        assert c in more <==> c in [one] + more;
      }
    }
  }

  lemma {:induction false} WithoutNothing(chips: seq<string>)
    ensures Without(chips, []) == chips
  {
    if chips != [] { WithoutNothing(chips[1..]); }
  }

  lemma {:induction false} WithoutAbsent(chips: seq<string>, chip: string, drop: seq<string>)
    requires chip !in chips
    ensures Without(chips, [chip] + drop) == Without(chips, drop)
  {
    if chips != [] { WithoutAbsent(chips[1..], chip, drop); }
  }

  lemma RemoveAllStepRemoves(x: Setup, e: Exec, extra: seq<string>)
    requires Faithful(x) && On(x, e) && Bounded(State(x, e).chips) && extra != []
    requires Distinct(extra) && forall c | c in extra :: c in State(x, e).chips
    ensures var d := RemoveChip(x.page, x.req, x.field, x.target, extra[0], e);
      && d.out.Ok? && On(x, d.exec) && |d.exec.run.acts| == |e.run.acts| + 1
      && d.exec.removed == e.removed + [extra[0]] && d.exec.added == e.added
      && State(x, d.exec).chips == Without(State(x, e).chips, [extra[0]])
      && Bounded(State(x, d.exec).chips) && (forall c | c in extra[1..] :: c in State(x, d.exec).chips)
  {
    RemoveChipRemoves(x, e, extra[0]);
    RestAreMembers(extra, State(x, e).chips);
  }

  lemma RestAreMembers(extra: seq<string>, chips: seq<string>)
    requires extra != [] && Distinct(extra) && (forall c | c in extra :: c in chips)
    ensures forall c | c in extra[1..] :: c in Without(chips, [extra[0]])
    ensures Bounded(chips) ==> Bounded(Without(chips, [extra[0]]))
  {
    assert forall k :: 0 <= k < |extra| - 1 ==> extra[1..][k] == extra[k + 1] != extra[0];
  }

  /** Exactly these chips were taken away, one act each. */
  predicate TookAway(x: Setup, e: Exec, extra: seq<string>, d: Did<bool>) {
    && d.out.Ok? && On(x, d.exec) && |d.exec.run.acts| == |e.run.acts| + |extra|
    && d.exec.removed == e.removed + extra && d.exec.added == e.added
    && State(x, d.exec).chips == Without(State(x, e).chips, extra)
  }

  lemma TookOneMore(x: Setup, e: Exec, first: Exec, extra: seq<string>, d: Did<bool>)
    requires extra != [] && TookAway(x, first, extra[1..], d)
    requires |first.run.acts| == |e.run.acts| + 1
    requires first.removed == e.removed + [extra[0]] && first.added == e.added
    requires State(x, first).chips == Without(State(x, e).chips, [extra[0]])
    ensures TookAway(x, e, extra, d)
  {
    WithoutInTurn(State(x, e).chips, extra[0], extra[1..]);
    assert [extra[0]] + extra[1..] == extra;
  }

  /** Removing in turn takes away exactly the chips asked for, one act each. */
  lemma {:induction false} RemoveAllRemoves(x: Setup, e: Exec, extra: seq<string>)
    requires Faithful(x) && On(x, e) && Bounded(State(x, e).chips)
    requires Distinct(extra) && forall c | c in extra :: c in State(x, e).chips
    ensures TookAway(x, e, extra, RemoveAll(x.page, x.req, x.field, x.target, extra, e))
    decreases |extra|
  {
    if extra == [] {
      WithoutNothing(State(x, e).chips);
    } else {
      RemoveAllStepRemoves(x, e, extra);
      var first := RemoveChip(x.page, x.req, x.field, x.target, extra[0], e).exec;
      RemoveAllRemoves(x, first, extra[1..]);
      RemoveAllUnrolls(x.page, x.req, x.field, x.target, extra, e);
      TookOneMore(x, e, first, extra, RemoveAll(x.page, x.req, x.field, x.target, extra, e));
    }
  }

  /** Everything in the list is a value a request may ask for. */
  predicate Askable(chips: seq<string>) {
    forall c | c in chips :: c != "" && Trim(c) == c && |c| <= MAX_MEMBER_CHARS
  }

  lemma AddFits(chips: seq<string>, chip: string, all: seq<string>)
    requires Distinct(chips) && (forall c | c in chips :: c in all) && chip in all && chip !in chips
    requires Askable(all) && |all| <= MAX_MEMBERS
    ensures Bounded(chips) && Bounded(chips + [chip]) && Distinct(chips + [chip])
  {
    DistinctAppend(chips, chip);
    DistinctByCount(chips + [chip]);
    DistinctByCount(all);
    assert ToSet(chips + [chip]) <= ToSet(all);
    SmallerSet(ToSet(chips + [chip]), ToSet(all));
  }

  lemma SmallerSet(a: set<string>, b: set<string>)
    requires a <= b
    ensures |a| <= |b|
  {
    assert b == a + (b - a);
  }

  lemma DistinctFits(chips: seq<string>, all: seq<string>)
    requires Distinct(chips) && (forall c | c in chips :: c in all) && Askable(all) && |all| <= MAX_MEMBERS
    ensures Bounded(chips)
  {
    DistinctByCount(chips);
    DistinctByCount(all);
    assert ToSet(chips) <= ToSet(all);
    SmallerSet(ToSet(chips), ToSet(all));
  }

  /** The chips a step of the adding phase starts from. */
  predicate Adding(x: Setup, e: Exec, chips: seq<string>, all: seq<string>) {
    && On(x, e) && Distinct(State(x, e).chips) && (forall c | c in State(x, e).chips :: c in all)
    && Distinct(chips) && (forall c | c in chips :: c in all) && Askable(all) && |all| <= MAX_MEMBERS
  }

  lemma AddAllStepAdds(x: Setup, e: Exec, chips: seq<string>, all: seq<string>)
    requires Faithful(x) && Adding(x, e, chips, all) && chips != []
    ensures var d := AddChip(x.page, x.req, x.field, x.target, chips[0], e);
      var plus := if chips[0] in State(x, e).chips then [] else [chips[0]];
      && d.out.Ok? && Adding(x, d.exec, chips[1..], all) && |d.exec.run.acts| == |e.run.acts| + 3 * |plus|
      && d.exec.removed == e.removed && d.exec.added == e.added + plus
      && State(x, d.exec).chips == State(x, e).chips + plus
  {
    var have := State(x, e).chips;
    DistinctFits(have, all);
    assert chips[0] in all;
    if chips[0] in have { assert have + [] == have; } else { AddFits(have, chips[0], all); }
    AddOne(x, e, chips[0]);
    assert forall i, j :: 0 <= i < j < |chips| - 1 ==> chips[1..][i] == chips[i + 1] && chips[1..][j] == chips[j + 1];
  }

  lemma AddOne(x: Setup, e: Exec, chip: string)
    requires Faithful(x) && On(x, e) && chip != "" && Trim(chip) == chip && Bounded(State(x, e).chips)
    requires chip in State(x, e).chips || Bounded(State(x, e).chips + [chip])
    ensures var d := AddChip(x.page, x.req, x.field, x.target, chip, e);
      var plus := if chip in State(x, e).chips then [] else [chip];
      && d.out.Ok? && On(x, d.exec) && |d.exec.run.acts| == |e.run.acts| + 3 * |plus|
      && d.exec.removed == e.removed && d.exec.added == e.added + plus
      && State(x, d.exec).chips == State(x, e).chips + plus
  {
    if chip in State(x, e).chips {
      FindAbsentFinds(x, e, chip);
    } else {
      AddChipAdds(x, e, chip);
    }
  }

  /** Exactly the missing chips were put there, in order, three acts each. */
  predicate PutThere(x: Setup, e: Exec, chips: seq<string>, d: Did<bool>) {
    var missing := Without(chips, State(x, e).chips);
    && d.out.Ok? && On(x, d.exec) && |d.exec.run.acts| == |e.run.acts| + 3 * |missing|
    && d.exec.removed == e.removed && d.exec.added == e.added + missing
    && State(x, d.exec).chips == State(x, e).chips + missing
  }

  lemma PutOneMore(x: Setup, e: Exec, first: Exec, chips: seq<string>, plus: seq<string>, d: Did<bool>)
    requires chips != [] && chips[0] !in chips[1..] && PutThere(x, first, chips[1..], d)
    requires plus == if chips[0] in State(x, e).chips then [] else [chips[0]]
    requires |first.run.acts| == |e.run.acts| + 3 * |plus|
    requires first.removed == e.removed && first.added == e.added + plus
    requires State(x, first).chips == State(x, e).chips + plus
    ensures PutThere(x, e, chips, d)
  {
    var have := State(x, e).chips;
    MissingInTurn(chips[1..], have, plus);
    MissingJoins(have, plus, Without(chips[1..], have));
  }

  lemma FirstIsNotRepeated(chips: seq<string>)
    requires chips != [] && Distinct(chips)
    ensures chips[0] !in chips[1..]
  {
    assert forall k :: 0 <= k < |chips| - 1 ==> chips[1..][k] == chips[k + 1] != chips[0];
  }

  /** Adding in turn appends exactly the missing values, in order, three acts each. */
  lemma {:induction false} AddAllAdds(x: Setup, e: Exec, chips: seq<string>, all: seq<string>)
    requires Faithful(x) && Adding(x, e, chips, all)
    ensures PutThere(x, e, chips, AddAll(x.page, x.req, x.field, x.target, chips, e))
    decreases |chips|
  {
    if chips != [] {
      AddAllStepAdds(x, e, chips, all);
      var first := AddChip(x.page, x.req, x.field, x.target, chips[0], e).exec;
      AddAllAdds(x, first, chips[1..], all);
      AddAllUnrolls(x.page, x.req, x.field, x.target, chips, e);
      FirstIsNotRepeated(chips);
      var plus := if chips[0] in State(x, e).chips then [] else [chips[0]];
      PutOneMore(x, e, first, chips, plus, AddAll(x.page, x.req, x.field, x.target, chips, e));
    }
  }

  /** What is newly there was not asked for again. */
  lemma {:induction false} MissingInTurn(chips: seq<string>, have: seq<string>, plus: seq<string>)
    requires forall c | c in plus :: c !in chips
    ensures Without(chips, have + plus) == Without(chips, have)
  {
    if chips != [] { MissingInTurn(chips[1..], have, plus); }
  }

  lemma MissingJoins(have: seq<string>, plus: seq<string>, more: seq<string>)
    ensures have + plus + more == have + (plus + more)
  {
  }

  /** The main result: on a faithful widget an exact set is written completely, with exactly the removals
    * and additions it takes, in order, and nothing more. */
  lemma ExactSetIsWritten(x: Setup, e: Exec, desired: seq<string>)
    requires Faithful(x) && On(x, e) && e.removed == [] && e.added == []
    requires Distinct(State(x, e).chips) && Bounded(State(x, e).chips)
    requires Distinct(desired) && Askable(desired) && |desired| <= MAX_MEMBERS
    ensures var d := WriteExactSet(x.page, x.req, x.field, x.target, desired, e);
      var initial := State(x, e).chips;
      && d.out.Ok? && On(x, d.exec)
      && ToSet(State(x, d.exec).chips) == ToSet(desired) && Distinct(State(x, d.exec).chips)
      && d.exec.removed == Without(initial, desired)
      && d.exec.added == Without(desired, initial)
      && |d.exec.run.acts| == |e.run.acts| + |Without(initial, desired)| + 3 * |Without(desired, initial)|
  {
    var initial := State(x, e).chips;
    var extra := Without(initial, desired);
    InitialIsRead(x, e);
    var first := InitialMembers(x.page, x.req, x.target, e).exec;
    WithoutKeepsDistinct(initial, desired);
    RemoveAllRemoves(x, first, extra);
    var removed := RemoveAll(x.page, x.req, x.field, x.target, extra, first).exec;
    WithoutKeepsDistinct(initial, extra);
    assert forall c | c in State(x, removed).chips :: c in desired;
    AddAllAdds(x, removed, desired, desired);
    var kept := Without(initial, extra);
    MissingFromKept(desired, initial, extra);
    FinalSet(initial, desired, kept, Without(desired, kept));
  }

  lemma InitialIsRead(x: Setup, e: Exec)
    requires Faithful(x) && On(x, e) && Distinct(State(x, e).chips) && Bounded(State(x, e).chips)
    ensures var d := InitialMembers(x.page, x.req, x.target, e);
      d.out == Ok(State(x, e).chips) && Idle(x, e, d.exec)
  {
    LookShows(x, e);
    DistinctByCount(State(x, e).chips);
  }

  lemma {:induction false} WithoutKeepsDistinct(chips: seq<string>, drop: seq<string>)
    requires Distinct(chips)
    ensures Distinct(Without(chips, drop))
  {
    if chips != [] {
      var rest := chips[1..];
      assert forall k :: 0 <= k < |rest| ==> rest[k] == chips[k + 1] != chips[0];
      WithoutKeepsDistinct(rest, drop);
      if chips[0] !in drop { DistinctPrepend(chips[0], Without(rest, drop)); }
    }
  }

  lemma DistinctPrepend(l: string, chips: seq<string>)
    requires Distinct(chips) && l !in chips
    ensures Distinct([l] + chips)
  {
  }

  lemma {:induction false} MissingFromKept(desired: seq<string>, initial: seq<string>, extra: seq<string>)
    requires forall c | c in extra :: c !in desired
    ensures Without(desired, Without(initial, extra)) == Without(desired, initial)
  {
    if desired != [] { MissingFromKept(desired[1..], initial, extra); }
  }

  lemma FinalSet(initial: seq<string>, desired: seq<string>, kept: seq<string>, missing: seq<string>)
    requires kept == Without(initial, Without(initial, desired)) && missing == Without(desired, kept)
    requires Distinct(kept) && Distinct(desired)
    ensures ToSet(kept + missing) == ToSet(desired) && Distinct(kept + missing)
  {
    WithoutKeepsDistinct(desired, kept);
    JoinDistinct(kept, missing);
  }

  lemma JoinDistinct(a: seq<string>, b: seq<string>)
    requires Distinct(a) && Distinct(b) && forall c | c in b :: c !in a
    ensures Distinct(a + b)
  {
    forall i, j | 0 <= i < j < |a + b| ensures (a + b)[i] != (a + b)[j] {
      if i < |a| <= j { assert b[j - |a|] in b && a[i] in a; }
    }
  }

  /** And the next view proves it committed. */
  lemma WrittenIsCommitted(x: Setup, e: Exec, desired: seq<string>, expected: string)
    requires Faithful(x) && On(x, e) && Distinct(State(x, e).chips) && Bounded(State(x, e).chips)
    requires ToSet(State(x, e).chips) == ToSet(desired)
    ensures var o := Observe(x.page, x.req, e.run);
      o.out.Ok? && Again(o.out.value, x.target, x.blocks).out.Ok?
        && CommittedMember(Again(o.out.value, x.target, x.blocks).out.value, expected, ExactSet(desired))
  {
    ObserveShows(x, e);
    var o := Observe(x.page, x.req, e.run);
    ExactSetIsCommittedExactly(Again(o.out.value, x.target, x.blocks).out.value, expected, desired);
  }
}
