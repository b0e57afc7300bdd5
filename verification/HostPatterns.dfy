/** Which hosts a scope pattern covers (core/domain-matcher.ts).
  *
  * `.suffix` covers subdomains only; a bare bounded domain covers its subtree; a public suffix, an IP or
  * an unlisted name covers exactly itself.  The public suffix list and the IP test are parameters.
  */
module HostPatterns {
  import opened Options

  /** What the public suffix list says about a name. */
  datatype Parsed = Parsed(domain: Option<string>, hostname: Option<string>, isIcann: bool, isPrivate: bool)

  datatype HostTable = HostTable(parse: string -> Parsed, isIP: string -> bool)

  // --- Strings -----------------------------------------------------------------------------------

  function LowerChar(c: char): char {
    if 'A' <= c <= 'Z' then c + ('a' - 'A') else c
  }

  function Lower(s: string): (r: string)
    ensures |r| == |s|
  {
    if s == "" then "" else [LowerChar(s[0])] + Lower(s[1..])
  }

  function StripDots(s: string): string {
    if s != "" && s[|s| - 1] == '.' then StripDots(s[..|s| - 1]) else s
  }

  predicate StartsWithDot(s: string) { s != "" && s[0] == '.' }

  function DropDot(s: string): string {
    if StartsWithDot(s) then s[1..] else s
  }

  predicate EndsWith(s: string, t: string) {
    |t| <= |s| && s[|s| - |t|..] == t
  }

  // --- The relation ----------------------------------------------------------------------------------

  predicate UsableHost(table: HostTable, host: string) {
    var bare := DropDot(Lower(host));
    var parsed := table.parse(bare);
    && bare != ""
    && !table.isIP(bare)
    && !(bare[0] == '[' && bare[|bare| - 1] == ']')
    && parsed.domain.Some?
    && (parsed.isIcann || parsed.isPrivate)
    && (parsed.hostname.Some? ==> parsed.hostname.value == bare)
  }

  predicate CoversSubtrees(table: HostTable, m: string) {
    var parsed := table.parse(m);
    || (parsed.domain == Some(m) && (parsed.isIcann || parsed.isPrivate))
    || UsableHost(table, m)
  }

  predicate IsSubdomainOf(host: string, domain: string) {
    EndsWith(host, "." + domain) && |host| > |domain| + 1
  }

  predicate Covers(table: HostTable, matcher: string, host: string) {
    var m := DropDot(Lower(matcher));
    var h := DropDot(Lower(host));
    && CoversSubtrees(table, m)
    && (if m == h then !StartsWithDot(matcher) else IsSubdomainOf(h, m))
  }

  predicate HostMatches(table: HostTable, hostname: string, pattern: string) {
    var p := StripDots(Lower(pattern));
    var h := StripDots(Lower(hostname));
    if StartsWithDot(pattern) then EndsWith(h, Lower(pattern))
    else Covers(table, p, h) || h == p
  }

  // --- Facts about the strings -----------------------------------------------------------------------

  lemma {:induction false} LowerAppend(a: string, b: string)
    ensures Lower(a + b) == Lower(a) + Lower(b)
  {
    if a == "" {
      assert a + b == b;
    } else {
      LowerAppend(a[1..], b);
      LowerCons(a[0], a[1..]);
      LowerCons(a[0], a[1..] + b);
      assert a == [a[0]] + a[1..];
      assert a + b == [a[0]] + (a[1..] + b);
      JoinLeft([LowerChar(a[0])], Lower(a[1..]), Lower(b));
    }
  }

  lemma LowerCons(c: char, s: string)
    ensures Lower([c] + s) == [LowerChar(c)] + Lower(s)
  {
    assert ([c] + s)[1..] == s;
  }

  lemma JoinLeft(a: string, b: string, c: string)
    ensures a + (b + c) == a + b + c
  {
  }

  lemma {:induction false} LowerIsStable(s: string)
    ensures Lower(Lower(s)) == Lower(s)
    ensures StartsWithDot(Lower(s)) <==> StartsWithDot(s)
  {
    if s != "" {
      LowerIsStable(s[1..]);
      assert Lower(s)[1..] == Lower(s[1..]);
    }
  }

  lemma {:induction false} StripIsStable(s: string)
    ensures StripDots(s) != "" ==> StripDots(s)[|StripDots(s)| - 1] != '.'
    ensures |StripDots(s)| <= |s| && StripDots(s) == s[..|StripDots(s)|]
    ensures StripDots(StripDots(s)) == StripDots(s)
  {
    if s != "" && s[|s| - 1] == '.' { StripIsStable(s[..|s| - 1]); }
  }

  lemma {:induction false} StripAppend(a: string, b: string)
    ensures StripDots(b) != "" ==> StripDots(a + b) == a + StripDots(b)
    ensures StripDots(b) == "" ==> StripDots(a + b) == StripDots(a)
    decreases |b|
  {
    if b == "" {
      assert a + b == a;
    } else if b[|b| - 1] == '.' {
      StripAppend(a, b[..|b| - 1]);
      assert (a + b)[..|a + b| - 1] == a + b[..|b| - 1];
    }
  }

  lemma {:induction false} LowerStrip(s: string)
    ensures Lower(StripDots(s)) == StripDots(Lower(s))
  {
    if s != "" {
      var n := |s| - 1;
      LowerAppend(s[..n], [s[n]]);
      assert s == s[..n] + [s[n]];
      assert Lower([s[n]]) == [LowerChar(s[n])] + Lower([]);
      assert Lower(s)[..n] == Lower(s[..n]);
      if s[n] == '.' { LowerStrip(s[..n]); }
    }
  }

  /** Ending in a string, character by character. */
  predicate EndsAt(s: string, t: string) {
    |t| <= |s| && forall i :: 0 <= i < |t| ==> s[|s| - |t| + i] == t[i]
  }

  lemma EndsWithIsEndsAt(s: string, t: string)
    ensures EndsWith(s, t) <==> EndsAt(s, t)
  {
    if EndsAt(s, t) {
      assert forall i :: 0 <= i < |t| ==> s[|s| - |t|..][i] == t[i];
    }
  }

  lemma SuffixesCompare(s: string, a: string, b: string)
    requires EndsWith(s, a) && EndsWith(s, b) && |a| <= |b|
    ensures EndsWith(b, a)
  {
    assert s[|s| - |b|..][|b| - |a|..] == s[|s| - |a|..];
  }

  lemma SuffixOfSuffix(s: string, a: string, b: string)
    requires EndsWith(s, b) && EndsWith(b, a)
    ensures EndsWith(s, a)
  {
    assert s[|s| - |b|..][|b| - |a|..] == s[|s| - |a|..];
  }

  lemma AppendEnds(a: string, b: string)
    ensures EndsWith(a + b, b)
  {
  }

  /** Without its first character, what a dotted string ends in is all that, or what the rest ends in. */
  lemma EndOfDotted(s: string, t: string)
    ensures EndsWith("." + s, t) <==> t == "." + s || EndsWith(s, t)
  {
    EndsWithIsEndsAt("." + s, t);
    EndsWithIsEndsAt(s, t);
    if |t| == |s| + 1 {
      assert "." + s == t <==> forall i :: 0 <= i < |t| ==> ("." + s)[i] == t[i];
    }
  }

  // --- Normal form -------------------------------------------------------------------------------------

  /** The form a host takes inside the matcher. */
  function Canon(host: string): string { StripDots(Lower(host)) }

  lemma CanonIsStable(host: string)
    ensures Lower(Canon(host)) == Canon(host) && StripDots(Canon(host)) == Canon(host)
    ensures Canon(Canon(host)) == Canon(host)
  {
    LowerIsStable(host);
    LowerStrip(Lower(host));
    StripIsStable(Lower(host));
  }

  /** A bare pattern, said in normal forms only. */
  lemma BareMatch(table: HostTable, hostname: string, pattern: string)
    requires !StartsWithDot(pattern)
    ensures var p, h := Canon(pattern), Canon(hostname);
      HostMatches(table, hostname, pattern) <==>
        h == p || (CoversSubtrees(table, p) && (DropDot(h) == p || IsSubdomainOf(DropDot(h), p)))
  {
    var p, h := Canon(pattern), Canon(hostname);
    CanonIsStable(pattern);
    CanonIsStable(hostname);
    CanonKeepsDot(pattern);
    assert DropDot(p) == p;
  }

  lemma CanonKeepsDot(host: string)
    ensures StartsWithDot(Canon(host)) ==> StartsWithDot(host)
    ensures Canon(host) != "" ==> (StartsWithDot(Canon(host)) <==> StartsWithDot(host))
  {
    LowerIsStable(host);
    StripIsStable(Lower(host));
  }

  // --- Everything a domain reaches -----------------------------------------------------------------------

  /** What a pattern compares with: a dotted one keeps its trailing dots, and then matches nothing. */
  function Core(pattern: string): string {
    if StartsWithDot(pattern) then Lower(pattern) else Canon(pattern)
  }

  /** A name in front of a domain: not empty, and not itself starting with a dot. */
  predicate Label(s: string) { s != "" && s[0] != '.' }

  lemma LowerSubdomain(name: string, host: string)
    ensures Lower(name + "." + host) == Lower(name) + "." + Lower(host)
  {
    LowerAppend(name + ".", host);
    LowerAppend(name, ".");
    assert Lower(".") == "." + Lower("");
  }

  /** The normal form of a subdomain. */
  lemma CanonOfSubdomain(name: string, host: string)
    requires Label(name) && Canon(host) != ""
    ensures Canon(name + "." + host) == Lower(name) + "." + Canon(host)
    ensures Label(Lower(name))
    ensures !StartsWithDot(Canon(name + "." + host))
  {
    LowerSubdomain(name, host);
    StripAppend(Lower(name) + ".", Lower(host));
    LowerIsStable(name);
  }

  /** A subdomain of nothing is just its label. */
  lemma CanonOfBareLabel(name: string, host: string)
    requires Label(name) && Canon(host) == ""
    ensures Canon(name + "." + host) == Canon(name)
  {
    LowerSubdomain(name, host);
    StripAppend(Lower(name) + ".", Lower(host));
    StripAppend(Lower(name), ".");
    assert StripDots("") == "";
    var dot := ".";
    assert dot[..0] == "";
    assert StripDots(dot) == "";
  }

  /** What a pattern matching the subdomain of a host has in common with the host. */
  predicate Below(table: HostTable, host: string, pattern: string) {
    var h := "." + Canon(host);
    if StartsWithDot(pattern) then EndsWith(h, Lower(pattern))
    else CoversSubtrees(table, Canon(pattern)) && EndsWith(h, "." + Canon(pattern))
  }

  /** Two suffixes meet: the shorter one ends the longer. */
  lemma SuffixesMeet(front: string, tail: string, p: string)
    ensures EndsWith(tail, p) ==> EndsWith(front + tail, p)
    ensures EndsWith(front + tail, p) && !EndsWith(tail, p) ==> |p| > |tail| && EndsWith(p, tail)
  {
    var x := front + tail;
    AppendEnds(front, tail);
    if EndsWith(tail, p) {
      SuffixOfSuffix(x, p, tail);
    } else if EndsWith(x, p) {
      if |p| <= |tail| { SuffixesCompare(x, p, tail); } else { SuffixesCompare(x, tail, p); }
    }
  }

  lemma DottedSubdomainMatch(table: HostTable, name: string, host: string, pattern: string)
    requires StartsWithDot(pattern) && Label(name) && Canon(host) != ""
    ensures Below(table, host, pattern) ==> HostMatches(table, name + "." + host, pattern)
    ensures HostMatches(table, name + "." + host, pattern) && !Below(table, host, pattern)
      ==> EndsWith(Core(pattern), "." + Canon(host))
  {
    CanonOfSubdomain(name, host);
    var tail := "." + Canon(host);
    assert Canon(name + "." + host) == Lower(name) + tail;
    SuffixesMeet(Lower(name), tail, Lower(pattern));
  }

  /** The same for a bare domain, on strings. */
  lemma BareSuffixes(front: string, tail: string, p: string)
    requires front != ""
    ensures EndsWith(tail, "." + p) ==> IsSubdomainOf(front + tail, p)
    ensures IsSubdomainOf(front + tail, p) && !EndsWith(tail, "." + p) ==> EndsWith(p, tail)
    ensures front + tail == p ==> EndsWith(p, tail)
  {
    SuffixesMeet(front, tail, "." + p);
    AppendEnds(front, tail);
    EndOfDotted(p, tail);
  }

  lemma BareSubdomainMatch(table: HostTable, name: string, host: string, pattern: string)
    requires !StartsWithDot(pattern) && Label(name) && Canon(host) != ""
    ensures Below(table, host, pattern) ==> HostMatches(table, name + "." + host, pattern)
    ensures HostMatches(table, name + "." + host, pattern) && !Below(table, host, pattern)
      ==> EndsWith(Core(pattern), "." + Canon(host))
  {
    CanonOfSubdomain(name, host);
    var x, tail := Canon(name + "." + host), "." + Canon(host);
    JoinLeft(Lower(name), ".", Canon(host));
    assert x == Lower(name) + tail;
    BareMatch(table, name + "." + host, pattern);
    BareSuffixes(Lower(name), tail, Canon(pattern));
  }

  /** A subdomain matches a pattern when the pattern reaches below the host, or names it in particular. */
  lemma SubdomainMatch(table: HostTable, name: string, host: string, pattern: string)
    requires Label(name) && Canon(host) != ""
    ensures Below(table, host, pattern) ==> HostMatches(table, name + "." + host, pattern)
    ensures HostMatches(table, name + "." + host, pattern) && !Below(table, host, pattern)
      ==> EndsWith(Core(pattern), "." + Canon(host))
  {
    if StartsWithDot(pattern) {
      DottedSubdomainMatch(table, name, host, pattern);
    } else {
      BareSubdomainMatch(table, name, host, pattern);
    }
  }

  /** One probe decides every subdomain: a pattern that covers a host and `probe.` under it covers all. */
  lemma ProbeDecidesSubtree(table: HostTable, host: string, pattern: string)
    ensures HostMatches(table, host, pattern) && HostMatches(table, "probe." + host, pattern)
      <==> (HostMatches(table, host, pattern)
        && forall name | Label(name) :: HostMatches(table, name + "." + host, pattern))
  {
    assert Label("probe");
    assert "probe" + "." + host == "probe." + host;
    if HostMatches(table, host, pattern) && HostMatches(table, "probe." + host, pattern) {
      if Canon(host) == "" { EmptyHostFailsProbe(table, host, pattern); }
      SubdomainMatch(table, "probe", host, pattern);
      MatchIsNoLonger(table, host, pattern);
      forall name | Label(name) ensures HostMatches(table, name + "." + host, pattern) {
        SubdomainMatch(table, name, host, pattern);
      }
    }
  }

  /** A pattern that matches a host does not name one below it. */
  lemma MatchIsNoLonger(table: HostTable, host: string, pattern: string)
    requires HostMatches(table, host, pattern)
    ensures !EndsWith(Core(pattern), "." + Canon(host))
  {
    if !StartsWithDot(pattern) { BareMatch(table, host, pattern); }
  }

  /** No pattern matches both an empty name and a label under it. */
  lemma EmptyHostFailsProbe(table: HostTable, host: string, pattern: string)
    requires Canon(host) == "" && HostMatches(table, host, pattern)
    ensures !HostMatches(table, "probe." + host, pattern)
  {
    CanonOfBareLabel("probe", host);
    assert "probe" + "." + host == "probe." + host;
    assert Lower("probe") == "probe";
    if !StartsWithDot(pattern) {
      BareMatch(table, host, pattern);
      BareMatch(table, "probe." + host, pattern);
    }
  }
}
