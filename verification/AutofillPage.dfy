/** What an autofill run reads: requests, page elements, selectors, strategies, committed values
  * (autofill.ts, with protocol/autofill.ts).  Everything here is a pure reading of one observation.
  */
module AutofillPage {
  import opened Options

  const MAX_MEMBERS := 32
  const MAX_MEMBER_CHARS := 512
  const MAX_MEMBERS_JSON_CHARS := 16_384

  // --- Failures ------------------------------------------------------------------------------------

  datatype Code =
    | TargetNotFound | TargetAmbiguous | TargetNotVisible | StaleTarget | EngineUnsupported
    | InvalidRequest | ActionTimeout | OutputTruncated | FormScopeMismatch | NavigationBlocked
    | ValueMismatch | VerificationUnavailable | OtherCode(text: string)

  /** `own`: thrown by the run itself rather than by one of its ports. */
  datatype Failure = Failure(own: bool, code: Code)

  datatype Result<+T> = Ok(value: T) | Err(failure: Failure)

  function Own<T>(code: Code): Result<T> { Err(Failure(true, code)) }

  // --- Page elements ----------------------------------------------------------------------------------

  /** The committed chips as the engine encodes them: a JSON text of some length and what it parses to. */
  datatype Membership = NoMembers | Members(jsonLength: nat, parsed: Parsed)

  /** `Items` lists the array's values, a value that is not a string being none. */
  datatype Parsed = NotJson | NotArray | Items(items: seq<Option<string>>)

  /** The engine's evidence about an element, under the `autofill-` attributes. */
  datatype Evidence = Evidence(
    node: Option<string>,
    block: Option<string>,
    committed: Option<string>,
    multi: bool,
    membersComplete: bool,
    members: Membership,
    popupState: Option<string>,
    popup: Option<string>,
    focused: bool,
    owner: Option<string>,
    ownerFocused: bool,
    chipOwner: Option<string>,
    chipLabel: Option<string>)

  datatype Markup = Markup(
    tag: Option<string>,
    kind: Option<string>,
    multiple: bool,
    ariaAutocomplete: Option<string>,
    automationId: Option<string>,
    fieldsetId: Option<string>,
    fieldsetLabel: Option<string>)

  datatype Element = Element(
    ref: string, role: Option<string>, name: string, value: Option<string>,
    visible: bool, enabled: bool, redacted: bool,
    markup: Markup, evidence: Evidence)

  // --- Requests ---------------------------------------------------------------------------------------

  datatype Block = Block(id: Option<string>, legend: Option<string>)

  type Pattern = string -> bool

  datatype Match = Match(
    role: Option<string>, name: Option<string>, pattern: Option<Pattern>,
    automationId: Option<string>, block: Option<Block>)

  datatype Strategy = NativeInput | NativeSelect | ReactSelect | ChipMultiselect

  datatype Content = Text(text: string) | Choice(value: string) | ExactSet(labels: seq<string>)

  datatype Field = Field(selector: Match, content: Content, verified: bool, strategy: Option<Strategy>)

  datatype OnVerifyFail = FailRun | SkipField | RetryReads

  datatype Policy = Policy(skipAmbiguous: bool, onVerifyFail: OnVerifyFail, maxReobserve: nat, timeoutMs: int)

  datatype Request = Request(scope: Option<string>, fields: seq<Field>, policy: Policy)

  /** What parsing a request has established. */
  ghost predicate ValidRequest(r: Request) {
    && 1 <= |r.fields| <= 50
    && r.policy.maxReobserve <= 5
    && (r.scope.Some? ==>
      !r.policy.skipAmbiguous && !r.policy.onVerifyFail.SkipField?
      && forall f | f in r.fields :: f.verified && f.strategy.Some?)
    && (forall f | f in r.fields && f.content.ExactSet? ::
      f.strategy == Some(ChipMultiselect) && |f.content.labels| <= MAX_MEMBERS && Distinct(f.content.labels)
      && forall l | l in f.content.labels :: l != "" && Trim(l) == l && |l| <= MAX_MEMBER_CHARS)
  }

  predicate Distinct(labels: seq<string>) {
    forall i, j :: 0 <= i < j < |labels| ==> labels[i] != labels[j]
  }

  predicate Space(c: char) { c == ' ' || c == '\t' || c == '\n' || c == '\r' }

  function TrimStart(s: string): string {
    if s != "" && Space(s[0]) then TrimStart(s[1..]) else s
  }

  function TrimEnd(s: string): string {
    if s != "" && Space(s[|s| - 1]) then TrimEnd(s[..|s| - 1]) else s
  }

  function Trim(s: string): string { TrimEnd(TrimStart(s)) }

  // --- Selectors ------------------------------------------------------------------------------------------

  function Filter<T(!new)>(p: T -> bool, s: seq<T>): (r: seq<T>)
    ensures forall x :: x in r <==> x in s && p(x)
  {
    if s == [] then []
    else if p(s[0]) then [s[0]] + Filter(p, s[1..])
    else Filter(p, s[1..])
  }

  predicate InBlock(e: Element, b: Block) {
    && (b.id.Some? ==> e.markup.fieldsetId == b.id)
    && (b.legend.Some? ==> e.markup.fieldsetLabel == b.legend)
  }

  predicate Fits(e: Element, m: Match) {
    && (m.role.Some? ==> m.role == e.role)
    && (m.name.Some? ==> m.name.value == e.name)
    && (m.pattern.Some? ==> m.pattern.value(e.name))
    && (m.automationId.Some? ==> m.automationId == e.markup.automationId)
  }

  predicate Truthy(o: Option<string>) { o.Some? && o.value != "" }

  function Tokens(elements: seq<Element>): set<string> {
    set e | e in elements && Truthy(e.evidence.block) :: e.evidence.block.value
  }

  type Blocks = map<Block, string>

  /** The one token of a block, pinned on first use. */
  function PinBlock(scoped: seq<Element>, block: Block, blocks: Blocks): Result<Blocks> {
    var tokens := Tokens(scoped);
    if |tokens| == 0 then Own(TargetNotFound)
    else if |tokens| > 1 then Own(TargetAmbiguous)
    else
      var token := TheToken(tokens);
      if block in blocks && blocks[block] != token then Own(StaleTarget)
      else Ok(blocks[block := token])
  }

  function TheToken(tokens: set<string>): (token: string)
    requires |tokens| == 1
    ensures token in tokens && tokens == {token}
  {
    OnlyOne(tokens);
    var token :| token in tokens;
    token
  }

  lemma OnlyOne(tokens: set<string>)
    requires |tokens| == 1
    ensures forall a, b | a in tokens && b in tokens :: a == b
    ensures exists a :: a in tokens && tokens == {a}
  {
    var a :| a in tokens;
    assert |tokens - {a}| == 0;
    assert tokens == {a};
  }

  function Unique(elements: seq<Element>, m: Match): Result<Element> {
    var candidates := Filter(e => Fits(e, m), elements);
    if |candidates| == 0 then Own(TargetNotFound)
    else if |candidates| > 1 then Own(TargetAmbiguous)
    else Ok(candidates[0])
  }

  datatype Resolved = Resolved(blocks: Blocks, element: Result<Element>)

  /** Find the one element a selector names; its block is pinned even when the element is not found. */
  function Resolve(elements: seq<Element>, m: Match, blocks: Blocks): Resolved {
    match m.block
    case None => Resolved(blocks, Unique(elements, m))
    case Some(block) =>
      var scoped := Filter(e => InBlock(e, block), elements);
      match PinBlock(scoped, block, blocks)
      case Err(failure) => Resolved(blocks, Err(failure))
      case Ok(pinned) => Resolved(pinned, Unique(scoped, m))
  }

  /** Every pin already set stays as it is. */
  ghost predicate BlocksKept(was: Blocks, now: Blocks) {
    forall b | b in was :: b in now && now[b] == was[b]
  }

  lemma ResolveKeepsBlocks(elements: seq<Element>, m: Match, blocks: Blocks)
    ensures var r := Resolve(elements, m, blocks);
      BlocksKept(blocks, r.blocks) && (r.element.Ok? && m.block.Some? ==> m.block.value in r.blocks)
  {
  }

  predicate Answers(e: Element, m: Match) {
    Fits(e, m) && (m.block.Some? ==> InBlock(e, m.block.value))
  }

  /** One position of the view answers the selector, and no other position does. */
  predicate OnlyAt(elements: seq<Element>, m: Match, k: nat) {
    && k < |elements| && Answers(elements[k], m)
    && forall j :: 0 <= j < |elements| && Answers(elements[j], m) ==> j == k
  }

  /** Some element of the block shows this token, and none shows another. */
  predicate OneToken(elements: seq<Element>, block: Block, token: string) {
    && (exists e | e in elements :: InBlock(e, block) && Truthy(e.evidence.block) && e.evidence.block.value == token)
    && forall e | e in elements && InBlock(e, block) && Truthy(e.evidence.block) :: e.evidence.block.value == token
  }

  /** What a block is held to: its one token, the pinned one if there is a pin. */
  predicate HeldTo(elements: seq<Element>, m: Match, blocks: Blocks, token: string) {
    m.block.Some? ==>
      OneToken(elements, m.block.value, token) && (m.block.value in blocks ==> blocks[m.block.value] == token)
  }

  lemma {:induction false} FilterBoth<T(!new)>(p: T -> bool, q: T -> bool, both: T -> bool, s: seq<T>)
    requires forall x :: both(x) <==> p(x) && q(x)
    ensures Filter(q, Filter(p, s)) == Filter(both, s)
  {
    if s != [] {
      FilterBoth(p, q, both, s[1..]);
      if p(s[0]) { assert ([s[0]] + Filter(p, s[1..]))[1..] == Filter(p, s[1..]); }
    }
  }

  /** One candidate is left exactly when one position satisfies the predicate; and it is what is there. */
  lemma {:induction false} FilterIsSingle<T(!new)>(p: T -> bool, s: seq<T>) returns (k: nat)
    requires |Filter(p, s)| == 1
    ensures k < |s| && p(s[k]) && Filter(p, s)[0] == s[k]
    ensures forall j :: 0 <= j < |s| && p(s[j]) ==> j == k
  {
    if p(s[0]) {
      k := 0;
      forall j | 1 <= j < |s| ensures !p(s[j]) { assert s[j] in s[1..]; assert Filter(p, s[1..]) == []; }
    } else {
      k := FilterIsSingle(p, s[1..]);
      k := k + 1;
      assert forall j :: 1 <= j < |s| ==> s[j] == s[1..][j - 1];
    }
  }

  lemma {:induction false} FilterNothing<T(!new)>(p: T -> bool, s: seq<T>)
    requires forall x | x in s :: !p(x)
    ensures Filter(p, s) == []
  {
    if s != [] { FilterNothing(p, s[1..]); }
  }

  lemma {:induction false} SingleIsFiltered<T(!new)>(p: T -> bool, s: seq<T>, k: nat)
    requires k < |s| && p(s[k]) && forall j :: 0 <= j < |s| && p(s[j]) ==> j == k
    ensures |Filter(p, s)| == 1
  {
    assert forall j :: 1 <= j < |s| ==> s[j] == s[1..][j - 1];
    if k == 0 {
      assert forall x | x in s[1..] :: !p(x);
      FilterNothing(p, s[1..]);
    } else {
      SingleIsFiltered(p, s[1..], k - 1);
    }
  }

  lemma CandidatesAnswer(elements: seq<Element>, m: Match)
    ensures Filter(e => Answers(e, m), elements) ==
      Filter(e => Fits(e, m), if m.block.None? then elements else Filter(e => InBlock(e, m.block.value), elements))
  {
    if m.block.Some? {
      FilterBoth(e => InBlock(e, m.block.value), e => Fits(e, m), e => Answers(e, m), elements);
    } else {
      FilterBoth(e => true, e => Fits(e, m), e => Answers(e, m), elements);
      FilterAll(elements);
    }
  }

  lemma {:induction false} FilterAll(elements: seq<Element>)
    ensures Filter(e => true, elements) == elements
  {
    if elements != [] { FilterAll(elements[1..]); }
  }

  /** A block is pinned exactly to its one token, and only to the token it was pinned to before. */
  lemma PinIsTheToken(elements: seq<Element>, block: Block, blocks: Blocks)
    ensures var r := PinBlock(Filter(e => InBlock(e, block), elements), block, blocks);
      && (r.Ok? ==>
        && block in r.value && OneToken(elements, block, r.value[block])
        && (block in blocks ==> blocks[block] == r.value[block]))
      && (forall token | OneToken(elements, block, token) && (block in blocks ==> blocks[block] == token) ::
        r == Ok(blocks[block := token]))
  {
    var scoped := Filter(e => InBlock(e, block), elements);
    var tokens := Tokens(scoped);
    forall token | OneToken(elements, block, token) && (block in blocks ==> blocks[block] == token)
      ensures PinBlock(scoped, block, blocks) == Ok(blocks[block := token])
    {
      var e :| e in elements && InBlock(e, block) && Truthy(e.evidence.block) && e.evidence.block.value == token;
      assert e in scoped;
      assert token in tokens;
      assert tokens == {token};
    }
    var r := PinBlock(scoped, block, blocks);
    if r.Ok? {
      var token := r.value[block];
      assert token in tokens && tokens == {token};
      var e :| e in scoped && Truthy(e.evidence.block) && e.evidence.block.value == token;
      assert e in elements && InBlock(e, block);
      forall e | e in elements && InBlock(e, block) && Truthy(e.evidence.block) ensures e.evidence.block.value == token {
        assert e in scoped;
        assert e.evidence.block.value in tokens;
      }
    }
  }

  /** A selector names an element exactly when its block is held to one token, the pinned one if there is a
    * pin, and one position of the view answers it; then the element is the one there. */
  lemma ResolveIsUnique(elements: seq<Element>, m: Match, blocks: Blocks)
    ensures var r := Resolve(elements, m, blocks);
      && BlocksKept(blocks, r.blocks)
      && (r.element.Ok? <==> (exists token :: HeldTo(elements, m, blocks, token)) && (exists k: nat :: OnlyAt(elements, m, k)))
      && (r.element.Ok? ==> exists k: nat :: OnlyAt(elements, m, k) && elements[k] == r.element.value)
      && (r.element.Ok? && m.block.Some? ==>
        m.block.value in r.blocks && HeldTo(elements, m, blocks, r.blocks[m.block.value]))
  {
    ResolveKeepsBlocks(elements, m, blocks);
    CandidatesAnswer(elements, m);
    if m.block.Some? { PinIsTheToken(elements, m.block.value, blocks); }
    var r := Resolve(elements, m, blocks);
    if r.element.Ok? {
      var k := FilterIsSingle(e => Answers(e, m), elements);
      assert OnlyAt(elements, m, k);
      assert HeldTo(elements, m, blocks, if m.block.Some? then r.blocks[m.block.value] else "");
    }
    if (exists token :: HeldTo(elements, m, blocks, token)) && (exists k: nat :: OnlyAt(elements, m, k)) {
      var token :| HeldTo(elements, m, blocks, token);
      var k :| OnlyAt(elements, m, k);
      SingleIsFiltered(e => Answers(e, m), elements, k);
    }
  }

  /** The position a selector that names an element answers at. */
  lemma ResolvedAt(elements: seq<Element>, m: Match, blocks: Blocks) returns (k: nat)
    requires Resolve(elements, m, blocks).element.Ok?
    ensures OnlyAt(elements, m, k) && elements[k] == Resolve(elements, m, blocks).element.value
  {
    ResolveIsUnique(elements, m, blocks);
    k :| OnlyAt(elements, m, k) && elements[k] == Resolve(elements, m, blocks).element.value;
  }

  /** Once its block is pinned, resolving again changes no pin. */
  lemma ResolveAgainKeepsBlocks(elements: seq<Element>, m: Match, blocks: Blocks)
    requires m.block.Some? ==> m.block.value in blocks
    ensures Resolve(elements, m, blocks).blocks == blocks
  {
  }

  // --- Committed values ---------------------------------------------------------------------------------------

  /** The complete, bounded membership, or none when it is not proven complete. */
  function CommittedMembers(e: Element): Option<seq<string>> {
    if !e.evidence.membersComplete then None
    else
      match e.evidence.members
      case NoMembers => None
      case Members(length, parsed) =>
        if length > MAX_MEMBERS_JSON_CHARS || !parsed.Items? then None
        else if |parsed.items| > MAX_MEMBERS then None
        else if exists i | i in parsed.items :: i.None? || |i.value| > MAX_MEMBER_CHARS then None
        else Some(Values(parsed.items))
  }

  function Values(items: seq<Option<string>>): (r: seq<string>)
    requires forall i | i in items :: i.Some?
    ensures |r| == |items| && forall k :: 0 <= k < |r| ==> items[k] == Some(r[k])
  {
    if items == [] then [] else [items[0].value] + Values(items[1..])
  }

  function ToSet(labels: seq<string>): set<string> { set l | l in labels }

  predicate CommittedMember(e: Element, expected: string, content: Content) {
    var members := CommittedMembers(e);
    && members.Some?
    && (match content
        case ExactSet(labels) =>
          && e.evidence.multi
          && |members.value| == |ToSet(labels)|
          && |ToSet(members.value)| == |members.value|
          && (forall m | m in members.value :: m in ToSet(labels))
        case _ => expected in members.value)
  }

  /** An exact set is committed exactly when the capture is complete, multi-valued, without duplicates,
    * and equal as a set to what was asked for. */
  lemma ExactSetIsCommittedExactly(e: Element, expected: string, labels: seq<string>)
    ensures CommittedMember(e, expected, ExactSet(labels)) <==>
      e.evidence.multi && CommittedMembers(e).Some?
      && Distinct(CommittedMembers(e).value) && ToSet(CommittedMembers(e).value) == ToSet(labels)
  {
    if CommittedMembers(e).Some? {
      var members := CommittedMembers(e).value;
      DistinctByCount(members);
      if ToSet(members) <= ToSet(labels) && |ToSet(members)| == |ToSet(labels)| {
        EqualBySize(ToSet(members), ToSet(labels));
      }
      assert (forall m | m in members :: m in ToSet(labels)) <==> ToSet(members) <= ToSet(labels) by {
        assert forall m :: m in members <==> m in ToSet(members);
      }
    }
  }

  lemma EqualBySize(a: set<string>, b: set<string>)
    requires a <= b && |a| == |b|
    ensures a == b
  {
    assert b == a + (b - a);
    assert |b - a| == 0;
  }

  lemma {:induction false} DistinctByCount(labels: seq<string>)
    ensures |ToSet(labels)| <= |labels|
    ensures Distinct(labels) <==> |ToSet(labels)| == |labels|
  {
    if labels != [] {
      var n := |labels| - 1;
      var rest := labels[..n];
      DistinctByCount(rest);
      assert ToSet(labels) == ToSet(rest) + {labels[n]};
      DistinctAppend(rest, labels[n]);
      assert labels == rest + [labels[n]];
      if labels[n] in rest {
        assert ToSet(labels) == ToSet(rest);
      } else {
        assert |ToSet(rest) + {labels[n]}| == |ToSet(rest)| + 1;
      }
    } else {
      assert ToSet(labels) == {};
    }
  }

  lemma DistinctAppend(labels: seq<string>, l: string)
    ensures Distinct(labels + [l]) <==> Distinct(labels) && l !in labels
  {
    var more := labels + [l];
    assert forall i :: 0 <= i < |labels| ==> more[i] == labels[i] && labels[i] in labels;
    if Distinct(more) {
      assert forall i :: 0 <= i < |labels| ==> more[i] != more[|labels|];
      assert forall i, j :: 0 <= i < j < |labels| ==> labels[i] == more[i] && labels[j] == more[j];
    }
  }

  // --- Strategies ---------------------------------------------------------------------------------------------

  predicate HasPopupEvidence(e: Element) {
    e.evidence.popupState == Some("ready") || e.evidence.popupState == Some("pending")
  }

  predicate Supports(s: Strategy, e: Element, f: Field) {
    match s
    case NativeInput =>
      && f.content.Text?
      && (e.markup.tag == Some("textarea")
        || (e.markup.tag == Some("input")
          && e.markup.kind.Some?
          && e.markup.kind.value in ["text", "email", "tel", "url", "search", "number"]))
      && !Truthy(e.markup.ariaAutocomplete)
      && e.role != Some("combobox")
    case NativeSelect =>
      f.content.Choice? && e.markup.tag == Some("select") && !e.markup.multiple
    case ReactSelect =>
      f.content.Choice? && e.role == Some("combobox") && Truthy(e.markup.ariaAutocomplete)
      && e.markup.tag == Some("input") && HasPopupEvidence(e)
    case ChipMultiselect =>
      !f.content.Text? && e.role == Some("combobox") && Truthy(e.markup.ariaAutocomplete) && HasPopupEvidence(e)
  }

  predicate Applies(s: Strategy, e: Element, f: Field) {
    (f.strategy.Some? ==> f.strategy.value == s) && Supports(s, e, f)
  }

  /** The first strategy, in the registry's order, that applies. */
  function StrategyFor(e: Element, f: Field): Option<Strategy> {
    if Applies(NativeInput, e, f) then Some(NativeInput)
    else if Applies(NativeSelect, e, f) then Some(NativeSelect)
    else if Applies(ReactSelect, e, f) then Some(ReactSelect)
    else if Applies(ChipMultiselect, e, f) then Some(ChipMultiselect)
    else None
  }

  predicate IsWidget(s: Strategy) { s.ReactSelect? || s.ChipMultiselect? }

  predicate IsCommitted(s: Strategy, e: Element, expected: string, content: Content) {
    match s
    case NativeInput => e.value == Some(expected)
    case NativeSelect => e.value == Some(expected)
    case ReactSelect => e.evidence.committed == Some(expected)
    case ChipMultiselect => CommittedMember(e, expected, content)
  }
}
