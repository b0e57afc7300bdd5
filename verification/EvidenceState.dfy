/** Which captured cookies and storage may move to an evidence pass (evidence-state.ts).
  *
  * Parsing an origin into a URL, the clock and the encoded size of the captured state are parameters.
  */
module EvidenceState {
  import opened Options
  import opened HostPatterns

  datatype Url = Url(
    origin: string, scheme: string, username: string, password: string, hostname: string, port: Option<nat>)

  datatype Scope = Scope(
    allowedHosts: seq<string>,
    excludeHosts: seq<string>,
    allowedSchemes: Option<seq<string>>,
    allowedPorts: Option<seq<nat>>)

  /** A field read from the browser: a string, or something else. */
  datatype Field = Text(text: string) | NotText

  datatype Cookie = Cookie(
    name: Field, value: Field, domain: Field, path: Field, hasPartitionKey: bool, expires: Option<real>)

  datatype Item = Item(name: Field, value: Field)

  /** `None` stands for anything that is not an array. */
  datatype Storage = Storage(origin: string, localStorage: Option<seq<Item>>)

  datatype Captured = Captured(cookies: Option<seq<Cookie>>, origins: Option<seq<Storage>>, bytes: nat)

  datatype State = State(cookies: seq<Cookie>, origins: seq<Storage>)

  datatype Fault = WrongOriginCount | NotAnOrigin | UnauthorizedOrigin | TooLarge | BadCookie | BadStorage

  datatype Result<+T> = Ok(value: T) | Err(fault: Fault)

  /** What the filter reads besides its arguments. */
  datatype World = World(hosts: HostTable, parse: string -> Option<Url>, now: int)

  const MAX_ORIGINS := 16
  const MAX_COOKIES := 1000
  const MAX_BYTES := 1024 * 1024
  const MAX_ITEMS := 1000
  const MAX_ITEM_NAME := 4096
  const MAX_ITEM_VALUE := 65536

  // --- Origins ---------------------------------------------------------------------------------------

  predicate HostAllowed(hosts: HostTable, host: string, scope: Scope) {
    && (exists p | p in scope.allowedHosts :: HostMatches(hosts, host, p))
    && !(exists p | p in scope.excludeHosts :: HostMatches(hosts, host, p))
  }

  predicate OriginAuthorized(hosts: HostTable, origin: string, url: Url, scope: Scope) {
    && url.origin == origin
    && url.scheme in ["http", "https"]
    && url.username == "" && url.password == ""
    && HostAllowed(hosts, url.hostname, scope)
    && (scope.allowedSchemes.Some? ==> exists s | s in scope.allowedSchemes.value :: Lower(s) == url.scheme)
    && (scope.allowedPorts.Some? ==>
      (if url.port.Some? then url.port.value else if url.scheme == "https" then 443 else 80)
        in scope.allowedPorts.value)
  }

  function CheckOrigins(w: World, origins: seq<string>, scope: Scope): Result<set<string>> {
    if origins == [] then Ok({})
    else
      var url := w.parse(origins[0]);
      if url.None? then Err(NotAnOrigin)
      else if !OriginAuthorized(w.hosts, origins[0], url.value, scope) then Err(UnauthorizedOrigin)
      else
        var rest := CheckOrigins(w, origins[1..], scope);
        if rest.Err? then rest else Ok({origins[0]} + rest.value)
  }

  function EvidenceOrigins(w: World, origins: seq<string>, scope: Scope): Result<set<string>> {
    if |origins| < 1 || |origins| > MAX_ORIGINS then Err(WrongOriginCount)
    else CheckOrigins(w, origins, scope)
  }

  // --- Cookies ---------------------------------------------------------------------------------------

  predicate Readable(c: Cookie) {
    !c.hasPartitionKey && c.domain.Text? && c.name.Text? && c.value.Text? && c.path.Text?
  }

  function Domain(c: Cookie): string
    requires Readable(c)
  {
    Lower(c.domain.text)
  }

  function Host(c: Cookie): string
    requires Readable(c)
  {
    DropDot(Domain(c))
  }

  predicate IsDomainCookie(c: Cookie)
    requires Readable(c)
  {
    StartsWithDot(Domain(c))
  }

  predicate AppliesTo(c: Cookie, hostname: string)
    requires Readable(c)
  {
    hostname == Host(c) || (IsDomainCookie(c) && EndsWith(hostname, Domain(c)))
  }

  predicate AppliesToSelected(w: World, origins: seq<string>, c: Cookie)
    requires Readable(c)
  {
    exists o | o in origins :: w.parse(o).Some? && AppliesTo(c, w.parse(o).value.hostname)
  }

  predicate CoveredByProbe(hosts: HostTable, scope: Scope, host: string) {
    exists p | p in scope.allowedHosts :: HostMatches(hosts, host, p) && HostMatches(hosts, "probe." + host, p)
  }

  /** The three suffix tests, on the pattern as it is written. */
  predicate TouchesExclusion(scope: Scope, c: Cookie)
    requires Readable(c)
  {
    exists p | p in scope.excludeHosts ::
      DropDot(p) == Host(c) || EndsWith(p, Domain(c)) || EndsWith(Host(c), p)
  }

  predicate Unexpired(c: Cookie, now: int) {
    c.expires.None? || c.expires.value == -1.0 || c.expires.value * 1000.0 > now as real
  }

  predicate Keeps(w: World, scope: Scope, origins: seq<string>, c: Cookie)
    requires Readable(c)
  {
    && HostAllowed(w.hosts, Host(c), scope)
    && AppliesToSelected(w, origins, c)
    && (IsDomainCookie(c) ==> CoveredByProbe(w.hosts, scope, Host(c)) && !TouchesExclusion(scope, c))
    && Unexpired(c, w.now)
  }

  function FilterCookies(w: World, scope: Scope, origins: seq<string>, cookies: seq<Cookie>): Result<seq<Cookie>> {
    if cookies == [] then Ok([])
    else if !Readable(cookies[0]) then Err(BadCookie)
    else
      var rest := FilterCookies(w, scope, origins, cookies[1..]);
      if rest.Err? then rest
      else if Keeps(w, scope, origins, cookies[0]) then Ok([cookies[0]] + rest.value)
      else rest
  }

  // --- Storage ---------------------------------------------------------------------------------------

  predicate ItemFits(i: Item) {
    i.name.Text? && i.value.Text? && |i.name.text| <= MAX_ITEM_NAME && |i.value.text| <= MAX_ITEM_VALUE
  }

  predicate StorageFits(s: Storage) {
    && s.localStorage.Some?
    && |s.localStorage.value| <= MAX_ITEMS
    && forall i | i in s.localStorage.value :: ItemFits(i)
  }

  function FilterStorage(selected: set<string>, entries: seq<Storage>): Result<seq<Storage>> {
    if entries == [] then Ok([])
    else if entries[0].origin !in selected then FilterStorage(selected, entries[1..])
    else if !StorageFits(entries[0]) then Err(BadStorage)
    else
      var rest := FilterStorage(selected, entries[1..]);
      if rest.Err? then rest else Ok([entries[0]] + rest.value)
  }

  predicate WithinBounds(state: Captured) {
    && state.cookies.Some? && state.origins.Some?
    && |state.cookies.value| <= MAX_COOKIES
    && |state.origins.value| <= MAX_ORIGINS
    && state.bytes <= MAX_BYTES
  }

  function FilterEvidenceState(w: World, state: Captured, scope: Scope, origins: seq<string>): Result<State> {
    var selected := EvidenceOrigins(w, origins, scope);
    if selected.Err? then Err(selected.fault)
    else if !WithinBounds(state) then Err(TooLarge)
    else
      var cookies := FilterCookies(w, scope, origins, state.cookies.value);
      if cookies.Err? then Err(cookies.fault)
      else
        var storage := FilterStorage(selected.value, state.origins.value);
        if storage.Err? then Err(storage.fault) else Ok(State(cookies.value, storage.value))
  }

  // --- Origins: what acceptance means ----------------------------------------------------------------

  lemma {:induction false} AcceptedOriginsAreAuthorized(w: World, origins: seq<string>, scope: Scope)
    ensures var r := CheckOrigins(w, origins, scope);
      r.Ok? <==> forall o | o in origins :: w.parse(o).Some? && OriginAuthorized(w.hosts, o, w.parse(o).value, scope)
    ensures var r := CheckOrigins(w, origins, scope);
      r.Ok? ==> forall o :: o in r.value <==> o in origins
  {
    if origins != [] {
      AcceptedOriginsAreAuthorized(w, origins[1..], scope);
      assert forall o :: o in origins <==> o == origins[0] || o in origins[1..];
    }
  }

  // --- The reach of a domain cookie ------------------------------------------------------------------

  /** Every host a browser may send the cookie to: its host, and for a domain cookie every subdomain. */
  ghost predicate Reaches(c: Cookie, host: string)
    requires Readable(c)
  {
    || host == Host(c)
    || (IsDomainCookie(c) && exists name | Label(name) :: host == name + "." + Host(c))
  }

  /** Every host reached matches an allowed pattern. */
  ghost predicate ReachIsAllowed(hosts: HostTable, scope: Scope, c: Cookie)
    requires Readable(c)
  {
    forall host | Reaches(c, host) :: exists p | p in scope.allowedHosts :: HostMatches(hosts, host, p)
  }

  /** No host reached matches this excluded pattern. */
  ghost predicate ReachAvoids(hosts: HostTable, p: string, c: Cookie)
    requires Readable(c)
  {
    forall host | Reaches(c, host) :: !HostMatches(hosts, host, p)
  }

  ghost predicate ReachIsSafe(hosts: HostTable, scope: Scope, c: Cookie)
    requires Readable(c)
  {
    ReachIsAllowed(hosts, scope, c) && forall p | p in scope.excludeHosts :: ReachAvoids(hosts, p, c)
  }

  /** A pattern names something below a host: one probe and one suffix test, on normal forms. */
  predicate ReachesBelow(hosts: HostTable, host: string, p: string) {
    HostMatches(hosts, "probe." + host, p) || EndsWith(Core(p), "." + Canon(host))
  }

  /** Cutting a lower-case string leaves lower-case parts. */
  lemma LowerParts(front: string, tail: string)
    requires Lower(front + tail) == front + tail
    ensures Lower(front) == front
  {
    LowerAppend(front, tail);
    assert Lower(front + tail)[..|front|] == Lower(front);
  }

  lemma NamedByDotted(hosts: HostTable, host: string, p: string, front: string)
    requires StartsWithDot(p) && Canon(host) != "" && Lower(p) == front + ("." + Canon(host))
    ensures Label("a" + front) && HostMatches(hosts, ("a" + front) + "." + host, p)
  {
    LowerIsStable(p);
    LowerParts(front, "." + Canon(host));
    CanonOfSubdomain("a" + front, host);
    LowerAppend("a", front);
    assert Lower("a") == "a" + Lower("");
    assert ("a" + front) + "." + Canon(host) == "a" + Lower(p);
    AppendEnds("a", Lower(p));
  }

  lemma NamedByBare(hosts: HostTable, host: string, p: string, front: string)
    requires !StartsWithDot(p) && Canon(host) != "" && Canon(p) == front + ("." + Canon(host))
    ensures Label(front) && HostMatches(hosts, front + "." + host, p)
  {
    CanonIsStable(p);
    CanonKeepsDot(p);
    assert Canon(p)[0] == (front + ("." + Canon(host)))[0];
    LowerParts(front, "." + Canon(host));
    CanonOfSubdomain(front, host);
    assert front + "." + Canon(host) == front + ("." + Canon(host));
    BareMatch(hosts, front + "." + host, p);
  }

  /** A pattern whose normal form ends in `.host` matches some subdomain of the host. */
  lemma NamedSubdomainMatches(hosts: HostTable, host: string, p: string) returns (name: string)
    requires Canon(host) != "" && EndsWith(Core(p), "." + Canon(host))
    ensures Label(name) && HostMatches(hosts, name + "." + host, p)
  {
    var tail := "." + Canon(host);
    var front := Core(p)[..|Core(p)| - |tail|];
    assert Core(p) == front + tail;
    if StartsWithDot(p) {
      NamedByDotted(hosts, host, p, front);
      name := "a" + front;
    } else {
      NamedByBare(hosts, host, p, front);
      name := front;
    }
  }

  /** Two tests decide whether a pattern matches any of the infinitely many subdomains of a host. */
  lemma TwoTestsDecideSubtree(hosts: HostTable, host: string, p: string)
    requires Canon(host) != ""
    ensures ReachesBelow(hosts, host, p)
      <==> exists name | Label(name) :: HostMatches(hosts, name + "." + host, p)
  {
    assert Label("probe") && "probe" + "." + host == "probe." + host;
    if EndsWith(Core(p), "." + Canon(host)) {
      var name := NamedSubdomainMatches(hosts, host, p);
    }
    if exists name | Label(name) :: HostMatches(hosts, name + "." + host, p) {
      var name :| Label(name) && HostMatches(hosts, name + "." + host, p);
      SubdomainMatch(hosts, name, host, p);
      SubdomainMatch(hosts, "probe", host, p);
    }
  }

  // --- Kept cookies are safe --------------------------------------------------------------------------

  /** A kept domain cookie reaches allowed hosts only. */
  lemma KeptReachIsAllowed(w: World, scope: Scope, origins: seq<string>, c: Cookie)
    requires Readable(c) && Keeps(w, scope, origins, c)
    ensures ReachIsAllowed(w.hosts, scope, c)
  {
    if IsDomainCookie(c) {
      var p :| p in scope.allowedHosts && HostMatches(w.hosts, Host(c), p)
        && HostMatches(w.hosts, "probe." + Host(c), p);
      ProbeDecidesSubtree(w.hosts, Host(c), p);
    }
  }

  /** A kept domain cookie has a host to speak of. */
  lemma KeptHostIsNotEmpty(w: World, scope: Scope, origins: seq<string>, c: Cookie)
    requires Readable(c) && Keeps(w, scope, origins, c) && IsDomainCookie(c)
    ensures Canon(Host(c)) != ""
  {
    var p :| p in scope.allowedHosts && HostMatches(w.hosts, Host(c), p)
      && HostMatches(w.hosts, "probe." + Host(c), p);
    if Canon(Host(c)) == "" { EmptyHostFailsProbe(w.hosts, Host(c), p); }
  }

  /** A kept cookie is safe for all it reaches exactly when no exclusion, normalised, reaches below it. */
  lemma KeptCookieIsSafeExactlyWhen(w: World, scope: Scope, origins: seq<string>, c: Cookie)
    requires Readable(c) && Keeps(w, scope, origins, c)
    ensures ReachIsSafe(w.hosts, scope, c)
      <==> (IsDomainCookie(c) ==> forall p | p in scope.excludeHosts :: !ReachesBelow(w.hosts, Host(c), p))
  {
    KeptReachIsAllowed(w, scope, origins, c);
    forall p | p in scope.excludeHosts
      ensures ReachAvoids(w.hosts, p, c) <==> (IsDomainCookie(c) ==> !ReachesBelow(w.hosts, Host(c), p))
    {
      if IsDomainCookie(c) {
        KeptHostIsNotEmpty(w, scope, origins, c);
        AvoidsExactlyWhen(w.hosts, c, p);
      }
    }
  }

  lemma AvoidsExactlyWhen(hosts: HostTable, c: Cookie, p: string)
    requires Readable(c) && IsDomainCookie(c) && Canon(Host(c)) != "" && !HostMatches(hosts, Host(c), p)
    ensures ReachAvoids(hosts, p, c) <==> !ReachesBelow(hosts, Host(c), p)
  {
    TwoTestsDecideSubtree(hosts, Host(c), p);
    if ReachesBelow(hosts, Host(c), p) {
      var name :| Label(name) && HostMatches(hosts, name + "." + Host(c), p);
      assert Reaches(c, name + "." + Host(c));
    }
  }

  /** For patterns and a host already in normal form the filter's own suffix tests settle that. */
  lemma NormalExclusionsAreRespected(w: World, scope: Scope, origins: seq<string>, c: Cookie)
    requires Readable(c) && Keeps(w, scope, origins, c)
    requires Canon(Host(c)) == Host(c)
    requires forall p | p in scope.excludeHosts :: Core(p) == p
    ensures ReachIsSafe(w.hosts, scope, c)
  {
    KeptCookieIsSafeExactlyWhen(w, scope, origins, c);
    if IsDomainCookie(c) {
      KeptHostIsNotEmpty(w, scope, origins, c);
      forall p | p in scope.excludeHosts ensures !ReachesBelow(w.hosts, Host(c), p) {
        SuffixTestsSuffice(w.hosts, c, p);
      }
    }
  }

  /** A dotted pattern that reaches below a host is a suffix of it, or the host's own subtree. */
  lemma DottedReach(host: string, p: string)
    requires StartsWithDot(p) && EndsWith("." + host, p)
    ensures DropDot(p) == host || EndsWith(host, p)
  {
    EndOfDotted(host, p);
    if p == "." + host { assert p[1..] == host; }
  }

  lemma BareReach(host: string, p: string)
    requires EndsWith("." + host, "." + p)
    ensures p == host || EndsWith(host, p)
  {
    EndOfDotted(host, "." + p);
    if "." + p == "." + host {
      assert ("." + p)[1..] == p && ("." + host)[1..] == host;
    } else {
      AppendEnds(".", p);
      SuffixOfSuffix(host, p, "." + p);
    }
  }

  /** Passing the suffix tests, a pattern in normal form does not cover the host's subtree. */
  lemma TestsKeepOut(hosts: HostTable, host: string, p: string)
    requires Canon(host) == host && Core(p) == p
    requires DropDot(p) != host && !EndsWith(host, p)
    ensures !Below(hosts, host, p)
  {
    if Below(hosts, host, p) {
      if StartsWithDot(p) { DottedReach(host, p); } else { BareReach(host, p); }
      assert false;
    }
  }

  lemma SuffixTestsSuffice(hosts: HostTable, c: Cookie, p: string)
    requires Readable(c) && IsDomainCookie(c) && Canon(Host(c)) == Host(c) != "" && Core(p) == p
    requires DropDot(p) != Host(c) && !EndsWith(p, Domain(c)) && !EndsWith(Host(c), p)
    ensures !ReachesBelow(hosts, Host(c), p)
  {
    TestsKeepOut(hosts, Host(c), p);
    ProbeName(Host(c));
    SubdomainMatch(hosts, "probe", Host(c), p);
    DomainIsDotted(c);
  }

  lemma DomainIsDotted(c: Cookie)
    requires Readable(c) && IsDomainCookie(c)
    ensures Domain(c) == "." + Host(c)
  {
  }

  function DomainCookie(host: string): Cookie {
    Cookie(Text("sid"), Text("v"), Text("." + host), Text("/"), false, None)
  }

  /** A scope that allows a host and excludes one name below it, written with a final dot. */
  function DottedExclusion(host: string, name: string): Scope {
    Scope([host], [name + "." + host + "."], None, None)
  }

  lemma DomainCookieParts(host: string)
    requires Label(host) && Canon(host) == host
    ensures Readable(DomainCookie(host)) && IsDomainCookie(DomainCookie(host))
    ensures Domain(DomainCookie(host)) == "." + host && Host(DomainCookie(host)) == host
  {
    CanonIsStable(host);
    LowerAppend(".", host);
    assert Lower(".") == "." + Lower("");
  }

  lemma BareHostCoversProbe(hosts: HostTable, host: string)
    requires Label(host) && Canon(host) == host && CoversSubtrees(hosts, host)
    ensures HostMatches(hosts, host, host) && HostMatches(hosts, "probe." + host, host)
  {
    BareMatch(hosts, host, host);
    assert EndsWith("." + host, "." + host);
    assert Below(hosts, host, host);
    BareSubdomainMatch(hosts, "probe", host, host);
    ProbeName(host);
  }

  lemma ProbeName(host: string)
    ensures "probe" + "." + host == "probe." + host && Label("probe")
  {
  }

  /** The final dot changes what the suffix tests see, not what the pattern matches. */
  lemma DottedExclusionExcludes(hosts: HostTable, host: string, name: string)
    requires Label(host) && Canon(host) == host && Label(name) && Canon(name) == name
    ensures HostMatches(hosts, name + "." + host, name + "." + host + ".")
    ensures CoversSubtrees(hosts, host) ==> !HostMatches(hosts, host, name + "." + host + ".")
  {
    var excluded := name + "." + host + ".";
    ExcludedCanon(name, host);
    CanonIsStable(name);
    CanonOfSubdomain(name, host);
    BareMatch(hosts, name + "." + host, excluded);
    BareMatch(hosts, host, excluded);
  }

  lemma DottedExclusionIsUntouched(host: string, name: string)
    requires Label(host) && Canon(host) == host && Label(name)
    ensures Readable(DomainCookie(host)) && !TouchesExclusion(DottedExclusion(host, name), DomainCookie(host))
  {
    DomainCookieParts(host);
    var excluded := name + "." + host + ".";
    var domain := "." + host;
    StripIsStable(Lower(host));
    assert host[|host| - 1] != '.';
    assert excluded[|excluded| - |domain|..][|domain| - 1] == '.';
    assert domain[|domain| - 1] != '.';
  }

  lemma DottedExclusionKeeps(w: World, origins: seq<string>, host: string, name: string)
    requires Label(host) && Canon(host) == host && CoversSubtrees(w.hosts, host)
    requires Label(name) && Canon(name) == name
    requires exists o | o in origins :: w.parse(o).Some? && w.parse(o).value.hostname == host
    ensures Readable(DomainCookie(host)) && Keeps(w, DottedExclusion(host, name), origins, DomainCookie(host))
  {
    DomainCookieParts(host);
    BareHostCoversProbe(w.hosts, host);
    DottedExclusionExcludes(w.hosts, host, name);
    DottedExclusionIsUntouched(host, name);
    DottedExclusionAllows(w.hosts, host, name);
  }

  /** The scope allows the host, and a probe below it. */
  lemma DottedExclusionAllows(hosts: HostTable, host: string, name: string)
    requires HostMatches(hosts, host, host) && HostMatches(hosts, "probe." + host, host)
    requires !HostMatches(hosts, host, name + "." + host + ".")
    ensures var scope := DottedExclusion(host, name);
      && HostAllowed(hosts, host, scope)
      && exists p | p in scope.allowedHosts :: HostMatches(hosts, host, p) && HostMatches(hosts, "probe." + host, p)
  {
    var scope := DottedExclusion(host, name);
    assert scope.allowedHosts[0] == host;
    assert forall p | p in scope.excludeHosts :: p == name + "." + host + ".";
  }

  lemma ReachedExclusionIsUnsafe(hosts: HostTable, scope: Scope, c: Cookie, name: string, p: string)
    requires Readable(c) && IsDomainCookie(c) && Label(name)
    requires p in scope.excludeHosts && HostMatches(hosts, name + "." + Host(c), p)
    ensures Reaches(c, name + "." + Host(c)) && !ReachIsSafe(hosts, scope, c)
  {
    assert Reaches(c, name + "." + Host(c));
    assert !ReachAvoids(hosts, p, c);
  }

  /** The tests read an exclusion as written: one ending in a dot slips through, though it excludes. */
  lemma TrailingDotSlipsThrough(w: World, origins: seq<string>, host: string, name: string)
    requires Label(host) && Canon(host) == host && CoversSubtrees(w.hosts, host)
    requires Label(name) && Canon(name) == name
    requires exists o | o in origins :: w.parse(o).Some? && w.parse(o).value.hostname == host
    ensures Readable(DomainCookie(host)) && Keeps(w, DottedExclusion(host, name), origins, DomainCookie(host))
    ensures HostMatches(w.hosts, name + "." + host, name + "." + host + ".")
    ensures Reaches(DomainCookie(host), name + "." + host)
    ensures !ReachIsSafe(w.hosts, DottedExclusion(host, name), DomainCookie(host))
  {
    DottedExclusionKeeps(w, origins, host, name);
    DomainCookieParts(host);
    DottedExclusionExcludes(w.hosts, host, name);
    var scope := DottedExclusion(host, name);
    assert scope.excludeHosts[0] == name + "." + host + ".";
    ReachedExclusionIsUnsafe(w.hosts, scope, DomainCookie(host), name, name + "." + host + ".");
  }

  lemma ExcludedCanon(name: string, host: string)
    requires Label(host) && Canon(host) == host && Label(name) && Canon(name) == name
    ensures Canon(name + "." + host + ".") == name + "." + host
  {
    CanonIsStable(host);
    CanonIsStable(name);
    CanonOfSubdomain(name, host);
    LowerAppend(name + "." + host, ".");
    assert Lower(".") == "." + Lower("");
    StripIsStable(Lower(name + "." + host));
    var s := Lower(name + "." + host) + ".";
    assert s[..|s| - 1] == Lower(name + "." + host);
  }

  // --- The whole filter ---------------------------------------------------------------------------------

  /** `part` is `whole` with some elements left out, in the same order. */
  predicate Subsequence<T(==)>(part: seq<T>, whole: seq<T>) {
    if part == [] then true
    else if whole == [] then false
    else if part[0] == whole[0] then Subsequence(part[1..], whole[1..])
    else Subsequence(part, whole[1..])
  }

  lemma {:induction false} SkippingFirst<T>(part: seq<T>, whole: seq<T>)
    requires whole != [] && Subsequence(part, whole[1..])
    ensures Subsequence(part, whole)
    decreases |whole|, 0
  {
    if part != [] && part[0] == whole[0] {
      DroppingFirst(part, whole[1..]);
    }
  }

  lemma {:induction false} DroppingFirst<T>(part: seq<T>, whole: seq<T>)
    requires part != [] && Subsequence(part, whole)
    ensures Subsequence(part[1..], whole)
    decreases |whole|, 1
  {
    if part[0] == whole[0] {
      SkippingFirst(part[1..], whole);
    } else {
      DroppingFirst(part, whole[1..]);
      SkippingFirst(part[1..], whole);
    }
  }

  /** The kept cookies are those the rules keep, in their order; one unreadable cookie refuses them all. */
  lemma {:induction false} CookiesAreFiltered(w: World, scope: Scope, origins: seq<string>, cookies: seq<Cookie>)
    ensures var r := FilterCookies(w, scope, origins, cookies);
      r.Ok? <==> forall c | c in cookies :: Readable(c)
    ensures var r := FilterCookies(w, scope, origins, cookies);
      r.Ok? ==>
        && Subsequence(r.value, cookies)
        && forall c :: c in r.value <==> c in cookies && Readable(c) && Keeps(w, scope, origins, c)
  {
    if cookies != [] {
      CookiesAreFiltered(w, scope, origins, cookies[1..]);
      var rest := FilterCookies(w, scope, origins, cookies[1..]);
      assert forall c :: c in cookies <==> c == cookies[0] || c in cookies[1..];
      if Readable(cookies[0]) && rest.Ok? {
        if Keeps(w, scope, origins, cookies[0]) {
          assert ([cookies[0]] + rest.value)[1..] == rest.value;
        } else {
          SkippingFirst(rest.value, cookies);
        }
      }
    }
  }

  lemma {:induction false} StorageIsFiltered(selected: set<string>, entries: seq<Storage>)
    ensures var r := FilterStorage(selected, entries);
      r.Ok? <==> forall s | s in entries && s.origin in selected :: StorageFits(s)
    ensures var r := FilterStorage(selected, entries);
      r.Ok? ==> Subsequence(r.value, entries) && forall s :: s in r.value <==> s in entries && s.origin in selected
  {
    if entries != [] {
      StorageIsFiltered(selected, entries[1..]);
      var rest := FilterStorage(selected, entries[1..]);
      assert forall s :: s in entries <==> s == entries[0] || s in entries[1..];
      if rest.Ok? {
        if entries[0].origin in selected {
          assert ([entries[0]] + rest.value)[1..] == rest.value;
        } else {
          SkippingFirst(rest.value, entries);
        }
      }
    }
  }

  /** A transfer succeeds exactly when every origin is authorized and everything captured is in bounds;
    * what moves is an ordered part of what was captured, and each cookie applies to a selected origin. */
  lemma TransferIsExact(w: World, state: Captured, scope: Scope, origins: seq<string>)
    ensures var r := FilterEvidenceState(w, state, scope, origins);
      r.Ok? <==>
        && 1 <= |origins| <= MAX_ORIGINS
        && (forall o | o in origins :: w.parse(o).Some? && OriginAuthorized(w.hosts, o, w.parse(o).value, scope))
        && WithinBounds(state)
        && (forall c | c in state.cookies.value :: Readable(c))
        && (forall s | s in state.origins.value && s.origin in origins :: StorageFits(s))
    ensures var r := FilterEvidenceState(w, state, scope, origins);
      r.Ok? ==>
        && Subsequence(r.value.cookies, state.cookies.value)
        && Subsequence(r.value.origins, state.origins.value)
        && (forall s :: s in r.value.origins <==> s in state.origins.value && s.origin in origins)
        && (forall c | c in r.value.cookies ::
          && Readable(c) && Unexpired(c, w.now)
          && (exists o | o in origins :: w.parse(o).Some? && AppliesTo(c, w.parse(o).value.hostname)))
  {
    AcceptedOriginsAreAuthorized(w, origins, scope);
    var selected := EvidenceOrigins(w, origins, scope);
    if selected.Ok? && WithinBounds(state) {
      CookiesAreFiltered(w, scope, origins, state.cookies.value);
      StorageIsFiltered(selected.value, state.origins.value);
    }
  }

  /** Every cookie that moves is safe for its whole reach, under exclusions written in normal form. */
  lemma TransferredCookiesAreSafe(w: World, state: Captured, scope: Scope, origins: seq<string>)
    requires forall p | p in scope.excludeHosts :: Core(p) == p
    ensures var r := FilterEvidenceState(w, state, scope, origins);
      r.Ok? ==> forall c | c in r.value.cookies ::
        Readable(c) && (Canon(Host(c)) == Host(c) ==> ReachIsSafe(w.hosts, scope, c))
  {
    var r := FilterEvidenceState(w, state, scope, origins);
    if r.Ok? {
      CookiesAreFiltered(w, scope, origins, state.cookies.value);
      forall c | c in r.value.cookies
        ensures Readable(c) && (Canon(Host(c)) == Host(c) ==> ReachIsSafe(w.hosts, scope, c))
      {
        if Canon(Host(c)) == Host(c) { NormalExclusionsAreRespected(w, scope, origins, c); }
      }
    }
  }
}
