/** A page that is faithful: what the exact-set result asks of a widget can be met. */
module FaithfulSample {
  import opened Options
  import opened AutofillPage
  import opened AutofillPorts
  import opened AutofillWidgets
  import opened FaithfulWidget

  const NODE := "n"
  const POPUP := "p"

  function Evidence0(): Evidence {
    Evidence(None, None, None, false, false, NoMembers, None, None, false, None, false, None, None)
  }

  function Markup0(): Markup { Markup(None, None, false, None, None, None, None) }

  function Remover(chip: string): string { "r" + chip }

  function Choice(text: string): string { "o" + text }

  const NAMES := Names("c", POPUP, Remover, Choice)

  function Known(chips: seq<string>): (r: seq<Option<string>>)
    ensures |r| == |chips| && forall k :: 0 <= k < |r| ==> r[k] == Some(chips[k])
  {
    seq(|chips|, k requires 0 <= k < |chips| => Some(chips[k]))
  }

  function ControlElement(w: Widget): Element {
    Element("c", Some("combobox"), "", None, true, true, false,
      Markup0().(automationId := Some("w")),
      Evidence0().(
        node := Some(NODE), multi := true, membersComplete := true, members := Members(0, Items(Known(w.chips))),
        popupState := Some("ready"), popup := Some(POPUP), focused := w.focused))
  }

  function RemoverElement(chip: string): Element {
    Element(Remover(chip), Some("button"), "", None, true, true, false, Markup0(),
      Evidence0().(chipOwner := Some(NODE), chipLabel := Some(chip)))
  }

  function OptionElement(text: string): Element {
    Element(Choice(text), Some("option"), text, None, true, true, false, Markup0(),
      Evidence0().(popupState := Some("ready"), popup := Some(POPUP), owner := Some(NODE), ownerFocused := true))
  }

  function RemoverElements(chips: seq<string>): (r: seq<Element>)
    ensures |r| == |chips| && forall k :: 0 <= k < |r| ==> r[k] == RemoverElement(chips[k])
  {
    if chips == [] then [] else [RemoverElement(chips[0])] + RemoverElements(chips[1..])
  }

  function Elements(w: Widget): seq<Element> {
    [ControlElement(w)] + (RemoverElements(w.chips) + [OptionElement(w.query)])
  }

  const TARGET := Target(Match(None, None, None, Some("w"), None), NODE, None)

  function SamplePage(): Page {
    Page(t => None, t => 0,
      (t, acts) => Sees(View(Elements(Now(NAMES, Widget([], false, false, ""), 0, acts)), None, false)),
      (t, acts, a) => Answer(true, None, false, true),
      text => Some(text), chips => 0, t => true)
  }

  function SampleRequest(): Request { Request(None, [], Policy(false, FailRun, 3, 1)) }

  function Sample(): Setup {
    Setup(SamplePage(), SampleRequest(), 0, TARGET, NAMES, Widget([], false, false, ""), 0, map[], map[])
  }

  // --- It is faithful --------------------------------------------------------------------------------------

  lemma {:induction false} FilterAppend<T(!new)>(p: T -> bool, a: seq<T>, b: seq<T>)
    ensures Filter(p, a + b) == Filter(p, a) + Filter(p, b)
  {
    if a == [] {
      assert a + b == b;
    } else {
      FilterAppend(p, a[1..], b);
      assert (a + b)[1..] == a[1..] + b;
    }
  }

  lemma FilterFirst<T(!new)>(p: T -> bool, x: T, s: seq<T>)
    requires p(x) && forall y | y in s :: !p(y)
    ensures Filter(p, [x] + s) == [x]
  {
    FilterAppend(p, [x], s);
    FilterNothing(p, s);
  }

  lemma {:induction false} OneRemover(chips: seq<string>, chip: string)
    requires Distinct(chips) && chip in chips
    ensures Filter(e => RemovesChip(e, TARGET, chip), RemoverElements(chips)) == [RemoverElement(chip)]
  {
    var p := e => RemovesChip(e, TARGET, chip);
    var rest := chips[1..];
    assert forall k :: 0 <= k < |rest| ==> rest[k] == chips[k + 1] != chips[0];
    if chips[0] == chip {
      assert forall e | e in RemoverElements(rest) :: !p(e);
      FilterFirst(p, RemoverElement(chip), RemoverElements(rest));
    } else {
      OneRemover(rest, chip);
      assert RemoverElements(chips)[1..] == RemoverElements(rest);
    }
  }

  lemma RemoverIsShown(w: Widget, chip: string)
    requires Distinct(w.chips) && chip in w.chips
    ensures RemoverOf(Elements(w), TARGET, chip) == Ok(RemoverElement(chip))
  {
    var p := e => RemovesChip(e, TARGET, chip);
    FilterAppend(p, RemoverElements(w.chips), [OptionElement(w.query)]);
    FilterNothing(p, [OptionElement(w.query)]);
    OneRemover(w.chips, chip);
    FilterNothing(p, [ControlElement(w)]);
    FilterAppend(p, [ControlElement(w)], RemoverElements(w.chips) + [OptionElement(w.query)]);
  }

  lemma OptionIsShown(w: Widget)
    requires Trim(w.query) == w.query
    ensures OptionOf(Elements(w), TARGET, Some(POPUP), w.query) == Ok(Have(OptionElement(w.query)))
  {
    var p := e => Offers(e, TARGET, Some(POPUP), w.query);
    FilterNothing(p, [ControlElement(w)]);
    FilterNothing(p, RemoverElements(w.chips));
    FilterAppend(p, RemoverElements(w.chips), [OptionElement(w.query)]);
    FilterAppend(p, [ControlElement(w)], RemoverElements(w.chips) + [OptionElement(w.query)]);
    FilterFirst(p, OptionElement(w.query), []);
    assert [OptionElement(w.query)] + [] == [OptionElement(w.query)];
  }

  lemma ControlIsShown(w: Widget)
    ensures Again(Elements(w), TARGET, map[]) == Reached(map[], Ok(ControlElement(w)))
    ensures Bounded(w.chips) ==> CommittedMembers(ControlElement(w)) == Some(w.chips)
  {
    var p := e => Fits(e, TARGET.selector);
    FilterFirst(p, ControlElement(w), RemoverElements(w.chips) + [OptionElement(w.query)]);
    ChipsAreShown(w);
  }

  lemma ChipsAreShown(w: Widget)
    ensures Bounded(w.chips) ==> CommittedMembers(ControlElement(w)) == Some(w.chips)
  {
    if Bounded(w.chips) {
      var items := Known(w.chips);
      forall i | i in items ensures i.Some? && |i.value| <= MAX_MEMBER_CHARS {
        var k :| 0 <= k < |items| && items[k] == i;
        assert w.chips[k] in w.chips;
      }
      assert Values(items) == w.chips;
    }
  }

  lemma {:induction false} UnclickedStaysDistinct(chips: seq<string>, ref: string)
    requires Distinct(chips)
    ensures Distinct(Unclicked(NAMES, chips, ref))
    ensures forall c | c in Unclicked(NAMES, chips, ref) :: c in chips
  {
    if chips != [] {
      var rest := chips[1..];
      assert forall k :: 0 <= k < |rest| ==> rest[k] == chips[k + 1] != chips[0];
      UnclickedStaysDistinct(rest, ref);
      if NAMES.remover(chips[0]) != ref { DistinctPrepend(chips[0], Unclicked(NAMES, rest, ref)); }
    }
  }

  lemma {:induction false} ChipsStayDistinct(acts: seq<Act>)
    ensures Distinct(Now(NAMES, Widget([], false, false, ""), 0, acts).chips)
  {
    if acts != [] {
      var was := Now(NAMES, Widget([], false, false, ""), 0, acts[..|acts| - 1]);
      ChipsStayDistinct(acts[..|acts| - 1]);
      var a := acts[|acts| - 1].action;
      if a.Click? { UnclickedStaysDistinct(was.chips, a.ref); }
      DistinctAppend(was.chips, was.query);
    }
  }

  lemma NamesAreApart()
    ensures NamesApart(NAMES)
  {
    forall a, b | a != b ensures NAMES.remover(a) != NAMES.remover(b) {
      assert Remover(a)[1..] == a && Remover(b)[1..] == b;
    }
    forall a ensures NAMES.option(a) != NAMES.control && NAMES.remover(a) != NAMES.control {
      assert Choice(a)[0] == 'o' && Remover(a)[0] == 'r';
    }
    forall a, b ensures NAMES.option(a) != NAMES.remover(b) {
      assert Choice(a)[0] == 'o' && Remover(b)[0] == 'r';
    }
  }

  /** Every demand of the exact-set result is met by this page. */
  lemma SampleIsFaithful()
    ensures Faithful(Sample())
  {
    var x := Sample();
    NamesAreApart();
    forall s | Settled(x, s) ensures Observes(x, s) {}
    forall t, acts | |acts| >= x.base ensures ShowsNow(x, t, acts) {
      var w := Now(x.names, x.start, x.base, acts);
      ChipsStayDistinct(acts);
      ControlIsShown(w);
      forall chip | chip in w.chips
        ensures RemoverOf(Elements(w), TARGET, chip) == Ok(RemoverElement(chip))
      {
        RemoverIsShown(w, chip);
      }
      if Trim(w.query) == w.query { OptionIsShown(w); }
    }
  }
}
