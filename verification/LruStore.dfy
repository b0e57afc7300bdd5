/** A bounded, insertion-ordered map of per-key meters, as the rate limiter keeps its buckets.
  *
  * What a meter is does not matter here: a key's meter starts at its first take, each take spends
  * from it, and a full map gives up its first key to make room.
  */
module LruStore {

  datatype Meter<!B> = Meter(maxKeys: nat, initial: int -> B, spend: (B, int) -> B, admits: (B, int) -> bool)

  datatype Draw = Draw(key: string, now: int)

  // --- One meter -----------------------------------------------------------------------------

  /** The state of a meter used by one key alone, from its first take on. */
  function Solo<B>(m: Meter<B>, times: seq<int>): B
    requires times != []
  {
    var last := |times| - 1;
    m.spend(if last == 0 then m.initial(times[0]) else Solo(m, times[..last]), times[last])
  }

  function SoloAdmits<B>(m: Meter<B>, times: seq<int>, now: int): bool {
    m.admits(if times == [] then m.initial(now) else Solo(m, times), now)
  }

  /** A meter continued from a given state. */
  function After<B>(m: Meter<B>, b: B, times: seq<int>): B
    decreases |times|
  {
    if times == [] then b else After(m, m.spend(b, times[0]), times[1..])
  }

  function Admitted<B>(m: Meter<B>, b: B, times: seq<int>): nat
    decreases |times|
  {
    if times == [] then 0
    else (if m.admits(b, times[0]) then 1 else 0) + Admitted(m, m.spend(b, times[0]), times[1..])
  }

  // --- The store ----------------------------------------------------------------------------

  /** The insertion-ordered map: keys from least to most recently taken. */
  datatype Store<B> = Store(order: seq<string>, buckets: map<string, B>)

  function Without(keys: seq<string>, key: string): seq<string> {
    if keys == [] then []
    else if keys[0] == key then Without(keys[1..], key)
    else [keys[0]] + Without(keys[1..], key)
  }

  function Evict<B>(m: Meter<B>, s: Store<B>): Store<B> {
    if |s.order| < m.maxKeys || s.order == [] then s
    else Store(s.order[1..], s.buckets - {s.order[0]})
  }

  function Touched<B>(m: Meter<B>, s: Store<B>, take: Draw): Store<B> {
    if take.key in s.buckets then Store(Without(s.order, take.key) + [take.key], s.buckets)
    else
      var room := Evict(m, s);
      Store(room.order + [take.key], room.buckets[take.key := m.initial(take.now)])
  }

  function TakeFrom<B>(m: Meter<B>, s: Store<B>, take: Draw): Store<B>
  {
    var touched := Touched(m, s, take);
    if take.key in touched.buckets then
      touched.(buckets := touched.buckets[take.key := m.spend(touched.buckets[take.key], take.now)])
    else touched
  }

  function Decides<B>(m: Meter<B>, s: Store<B>, take: Draw): bool
  {
    m.admits(if take.key in s.buckets then s.buckets[take.key] else m.initial(take.now), take.now)
  }

  function Run<B>(m: Meter<B>, takes: seq<Draw>): Store<B>
  {
    if takes == [] then Store([], map[]) else TakeFrom(m, Run(m, takes[..|takes| - 1]), takes[|takes| - 1])
  }

  // --- Recency -------------------------------------------------------------------------------

  /** The keys taken so far, each once, by last use: the reference for the map's order. */
  function Recency(takes: seq<Draw>): seq<string> {
    if takes == [] then []
    else
      var last := |takes| - 1;
      Without(Recency(takes[..last]), takes[last].key) + [takes[last].key]
  }

  predicate Distinct(keys: seq<string>) {
    forall i, j :: 0 <= i < j < |keys| ==> keys[i] != keys[j]
  }

  lemma {:induction false} WithoutAbsent(keys: seq<string>, key: string)
    requires key !in keys
    ensures Without(keys, key) == keys
  {
    if keys != [] {
      assert keys[0] in keys;
      assert forall k :: k in keys[1..] ==> k in keys;
      WithoutAbsent(keys[1..], key);
    }
  }

  /** Dropping a key from a duplicate-free list: split at its place. */
  lemma {:induction false} WithoutAt(keys: seq<string>, key: string, i: nat)
    requires Distinct(keys) && i < |keys| && keys[i] == key
    ensures Without(keys, key) == keys[..i] + keys[i + 1..]
  {
    if i == 0 {
      WithoutAbsent(keys[1..], key);
    } else {
      WithoutAt(keys[1..], key, i - 1);
      assert keys[..i] == [keys[0]] + keys[1..][..i - 1];
    }
  }

  lemma {:induction false} RecencyIsDistinct(takes: seq<Draw>)
    ensures Distinct(Recency(takes))
  {
    if takes != [] {
      var last := |takes| - 1;
      var before, key := Recency(takes[..last]), takes[last].key;
      RecencyIsDistinct(takes[..last]);
      if key in before {
        var i :| 0 <= i < |before| && before[i] == key;
        WithoutAt(before, key, i);
      } else {
        WithoutAbsent(before, key);
      }
    }
  }

  /** The last `n` keys of a list, or all of them. */
  function Tail(keys: seq<string>, n: nat): seq<string> {
    if |keys| <= n then keys else keys[|keys| - n..]
  }

  lemma TailIsDistinct(keys: seq<string>, n: nat)
    requires Distinct(keys)
    ensures Distinct(Tail(keys, n))
  {
  }

  /** Moving one element to the end commutes with dropping a prefix before it. */
  lemma MoveToEnd(keys: seq<string>, p: nat, off: nat)
    requires off <= p < |keys|
    ensures (keys[..p] + keys[p + 1..] + [keys[p]])[off..]
         == keys[off..][..p - off] + keys[off..][p - off + 1..] + [keys[p]]
  {
  }

  /** Touching a key commutes with keeping the last `n`, when the touched key is among them. */
  lemma TouchKept(keys: seq<string>, key: string, n: nat)
    requires Distinct(keys) && key in Tail(keys, n)
    ensures Tail(Without(keys, key) + [key], n) == Without(Tail(keys, n), key) + [key]
  {
    var tail := Tail(keys, n);
    var off := |keys| - |tail|;
    assert tail == keys[off..];
    var i :| 0 <= i < |tail| && tail[i] == key;
    TouchKeptAt(keys, off, i);
    var touched := Without(keys, key) + [key];
    assert Tail(touched, n) == touched[off..];
  }

  lemma TouchKeptAt(keys: seq<string>, off: nat, i: nat)
    requires Distinct(keys) && off + i < |keys|
    ensures var key := keys[off + i];
            var touched := Without(keys, key) + [key];
            |touched| == |keys| && touched[off..] == Without(keys[off..], key) + [key]
  {
    var key := keys[off + i];
    WithoutAt(keys, key, off + i);
    WithoutAt(keys[off..], key, i);
    MoveToEnd(keys, off + i, off);
  }

  /** Touching a key that is not among the last `n` puts the oldest of them out. */
  lemma TouchNew(keys: seq<string>, key: string, n: nat)
    requires Distinct(keys) && key !in Tail(keys, n) && n > 0
    ensures Tail(Without(keys, key) + [key], n)
         == (if |Tail(keys, n)| < n then Tail(keys, n) else Tail(keys, n)[1..]) + [key]
  {
    if key in keys {
      TouchOld(keys, key, n);
    } else {
      WithoutAbsent(keys, key);
      AppendToTail(keys, key, n);
    }
  }

  lemma TouchOld(keys: seq<string>, key: string, n: nat)
    requires Distinct(keys) && key in keys && key !in Tail(keys, n) && n > 0
    ensures |Tail(keys, n)| == n && Tail(Without(keys, key) + [key], n) == Tail(keys, n)[1..] + [key]
  {
    var i := PlaceBefore(keys, key, n);
    DropBefore(keys, i, |keys| - n, key);
  }

  lemma AppendToTail(keys: seq<string>, key: string, n: nat)
    requires n > 0
    ensures Tail(keys + [key], n) == (if |keys| < n then keys else keys[|keys| - n..][1..]) + [key]
  {
  }

  lemma PlaceBefore(keys: seq<string>, key: string, n: nat) returns (i: nat)
    requires Distinct(keys) && key in keys && key !in Tail(keys, n)
    ensures |keys| > n && i < |keys| - n
    ensures Without(keys, key) == keys[..i] + keys[i + 1..]
  {
    i :| 0 <= i < |keys| && keys[i] == key;
    WithoutAt(keys, key, i);
    assert forall j :: |keys| - n <= j < |keys| && |keys| > n ==> Tail(keys, n)[j - (|keys| - n)] == keys[j];
  }

  lemma DropBefore(keys: seq<string>, i: nat, off: nat, key: string)
    requires i < off < |keys|
    ensures var moved := keys[..i] + keys[i + 1..] + [key];
            |moved| == |keys| && moved[off..] == keys[off..][1..] + [key]
  {
  }

  ghost predicate KeysAgree<B>(s: Store<B>) {
    forall k :: k in s.buckets <==> k in s.order
  }

  lemma TouchKeepsKeys<B>(m: Meter<B>, s: Store<B>, take: Draw)
    requires m.maxKeys > 0 && KeysAgree(s) && Distinct(s.order)
    ensures KeysAgree(TakeFrom(m, s, take))
  {
    WithoutHolds(s.order, take.key);
    if take.key !in s.buckets && |s.order| >= m.maxKeys { FirstGoes(s.order); }
  }

  lemma {:induction false} WithoutHolds(keys: seq<string>, key: string)
    ensures forall k :: k in Without(keys, key) <==> k in keys && k != key
  {
    if keys != [] { WithoutHolds(keys[1..], key); }
  }

  lemma FirstGoes(keys: seq<string>)
    requires keys != [] && Distinct(keys)
    ensures forall k :: k in keys[1..] <==> k in keys && k != keys[0]
  {
    assert keys == [keys[0]] + keys[1..];
  }

  /** The map's order is exactly recency of last take, cut to the last `maxTenants` keys, so what is
    * evicted is always the least recently taken key; the size never exceeds the bound. */
  lemma {:induction false} OrderIsRecency<B>(m: Meter<B>, takes: seq<Draw>)
    requires m.maxKeys > 0
    ensures var s := Run(m, takes);
            && s.order == Tail(Recency(takes), m.maxKeys)
            && KeysAgree(s)
            && Distinct(s.order)
            && |s.order| <= m.maxKeys
  {
    RecencyIsDistinct(takes);
    TailIsDistinct(Recency(takes), m.maxKeys);
    if takes != [] {
      var last := |takes| - 1;
      var before, take := takes[..last], takes[last];
      OrderIsRecency(m, before);
      RecencyIsDistinct(before);
      TouchKeepsKeys(m, Run(m, before), take);
      if take.key in Run(m, before).buckets {
        TouchKept(Recency(before), take.key, m.maxKeys);
      } else {
        TouchNew(Recency(before), take.key, m.maxKeys);
      }
    }
  }

  // --- The limiter against independent buckets ------------------------------------------------

  function TimesOf(takes: seq<Draw>, key: string): seq<int> {
    if takes == [] then []
    else
      var last := |takes| - 1;
      TimesOf(takes[..last], key) + (if takes[last].key == key then [takes[last].now] else [])
  }

  lemma RecencyGrows(takes: seq<Draw>, take: Draw)
    ensures |Recency(takes + [take])| == |Recency(takes)| + (if take.key in Recency(takes) then 0 else 1)
  {
    assert (takes + [take])[..|takes|] == takes;
    var before := Recency(takes);
    RecencyIsDistinct(takes);
    if take.key in before {
      var i :| 0 <= i < |before| && before[i] == take.key;
      WithoutAt(before, take.key, i);
    } else {
      WithoutAbsent(before, take.key);
    }
  }

  /** A take spends from its own bucket and leaves every other bucket that stays as it was. */
  lemma TakeTouchesOneBucket<B>(m: Meter<B>, s: Store<B>, take: Draw, key: string)
    requires m.maxKeys > 0 && key in s.buckets && key in TakeFrom(m, s, take).buckets
    ensures TakeFrom(m, s, take).buckets[key]
         == if take.key == key then m.spend(s.buckets[key], take.now) else s.buckets[key]
  {
  }

  /** With room for its key, a take changes that key's meter and nothing else. */
  lemma TakeWithRoom<B>(m: Meter<B>, s: Store<B>, take: Draw)
    requires take.key in s.buckets || |s.order| < m.maxKeys
    ensures TakeFrom(m, s, take).buckets
         == s.buckets[take.key := m.spend(if take.key in s.buckets then s.buckets[take.key] else m.initial(take.now), take.now)]
  {
  }

  /** As long as no more than `maxKeys` keys are in use, every meter is what its key alone, with a
    * map of its own, would have made of it. */
  lemma {:induction false} MeterRunsAlone<B>(m: Meter<B>, takes: seq<Draw>, key: string)
    requires |Recency(takes)| <= m.maxKeys && m.maxKeys > 0
    ensures key in Run(m, takes).buckets <==> TimesOf(takes, key) != []
    ensures key in Run(m, takes).buckets ==> Run(m, takes).buckets[key] == Solo(m, TimesOf(takes, key))
  {
    if takes != [] {
      var last := |takes| - 1;
      var before, take := takes[..last], takes[last];
      assert before + [take] == takes;
      RecencyGrows(before, take);
      MeterRunsAlone(m, before, key);
      RoomForNext(m, before, take);
      TakeWithRoom(m, Run(m, before), take);
      var times := TimesOf(before, key);
      assert (times + [take.now])[..|times|] == times;
      assert times + [] == times;
    }
  }

  lemma RoomForNext<B>(m: Meter<B>, takes: seq<Draw>, take: Draw)
    requires |Recency(takes)| + (if take.key in Recency(takes) then 0 else 1) <= m.maxKeys
    ensures take.key in Run(m, takes).buckets || |Run(m, takes).order| < m.maxKeys
  {
    if m.maxKeys > 0 { OrderIsRecency(m, takes); }
  }

  /** So on any run with at most `maxKeys` keys the limiter decides every take exactly as unbounded,
    * independent meters would. */
  lemma DecidesLikeIndependentMeters<B>(m: Meter<B>, takes: seq<Draw>, take: Draw)
    requires |Recency(takes + [take])| <= m.maxKeys
    ensures Decides(m, Run(m, takes), take) == SoloAdmits(m, TimesOf(takes, take.key), take.now)
  {
    RecencyGrows(takes, take);
    MeterRunsAlone(m, takes, take.key);
  }

  // --- The bound for a key that stays --------------------------------------------------------

  /** How often the limiter admits `key` among the takes of `rest`, which follow `first`. */
  function AdmittedAfter<B>(m: Meter<B>, first: seq<Draw>, rest: seq<Draw>, key: string): nat {
    if rest == [] then 0
    else
      var before, take := rest[..|rest| - 1], rest[|rest| - 1];
      AdmittedAfter(m, first, before, key)
      + (if take.key == key && Decides(m, Run(m, first + before), take) then 1 else 0)
  }

  /** From `first` on, or from its first take in `rest` if it has no meter yet, `key` keeps its meter: it is
    * not evicted. */
  predicate Kept<B>(m: Meter<B>, first: seq<Draw>, rest: seq<Draw>, key: string) {
    && (key in Run(m, first).buckets || TimesOf(rest, key) != [] ==> key in Run(m, first + rest).buckets)
    && (rest == [] || Kept(m, first, rest[..|rest| - 1], key))
  }

  /** The meter the takes of `rest` begin with: the one left by `first`, or a new one. */
  function Beginning<B>(m: Meter<B>, first: seq<Draw>, times: seq<int>, key: string): B
    requires key in Run(m, first).buckets || times != []
  {
    if key in Run(m, first).buckets then Run(m, first).buckets[key] else m.initial(times[0])
  }

  lemma {:induction false} AfterSnoc<B>(m: Meter<B>, b: B, times: seq<int>, t: int)
    ensures After(m, b, times + [t]) == m.spend(After(m, b, times), t)
    ensures Admitted(m, b, times + [t]) == Admitted(m, b, times) + (if m.admits(After(m, b, times), t) then 1 else 0)
    decreases |times|
  {
    var longer := times + [t];
    if times == [] {
      assert longer[1..] == [];
    } else {
      assert longer[1..] == times[1..] + [t];
      AfterSnoc(m, m.spend(b, times[0]), times[1..], t);
    }
  }

  /** Only its own takes give a key a meter. */
  lemma OthersGiveNoMeter<B>(m: Meter<B>, s: Store<B>, take: Draw, key: string)
    requires key !in s.buckets && take.key != key
    ensures key !in TakeFrom(m, s, take).buckets
  {
  }

  /** What `rest` makes of a key: nothing while it has no meter, and else what its own takes make of it. */
  ghost predicate RunsAlone<B(!new)>(m: Meter<B>, first: seq<Draw>, rest: seq<Draw>, key: string) {
    var times := TimesOf(rest, key);
    var s := Run(m, first + rest);
    if key !in Run(m, first).buckets && times == [] then key !in s.buckets && AdmittedAfter(m, first, rest, key) == 0
    else
      var b := Beginning(m, first, times, key);
      && key in s.buckets && s.buckets[key] == After(m, b, times)
      && AdmittedAfter(m, first, rest, key) == Admitted(m, b, times)
  }

  /** A key that is not evicted is metered, and admitted, as if it were alone. */
  lemma {:induction false} KeptKeyRunsAlone<B(!new)>(m: Meter<B>, first: seq<Draw>, rest: seq<Draw>, key: string)
    requires m.maxKeys > 0 && Kept(m, first, rest, key)
    ensures RunsAlone(m, first, rest, key)
    decreases |rest|
  {
    if rest == [] {
      assert first + rest == first;
    } else {
      var before, take := rest[..|rest| - 1], rest[|rest| - 1];
      KeptKeyRunsAlone(m, first, before, key);
      RunLast(m, first, rest);
      if take.key == key { OwnTakeRunsAlone(m, first, rest, key); } else { OtherTakeRunsAlone(m, first, rest, key); }
    }
  }

  lemma OwnTakeRunsAlone<B(!new)>(m: Meter<B>, first: seq<Draw>, rest: seq<Draw>, key: string)
    requires m.maxKeys > 0 && rest != [] && rest[|rest| - 1].key == key && key in Run(m, first + rest).buckets
    requires RunsAlone(m, first, rest[..|rest| - 1], key)
    ensures RunsAlone(m, first, rest, key)
  {
    var before, take := rest[..|rest| - 1], rest[|rest| - 1];
    var times := TimesOf(before, key);
    RunLast(m, first, rest);
    assert TimesOf(rest, key) == times + [take.now];
    var b := Beginning(m, first, times + [take.now], key);
    AfterSnoc(m, b, times, take.now);
  }

  lemma OtherTakeRunsAlone<B(!new)>(m: Meter<B>, first: seq<Draw>, rest: seq<Draw>, key: string)
    requires m.maxKeys > 0 && rest != [] && rest[|rest| - 1].key != key && Kept(m, first, rest, key)
    requires RunsAlone(m, first, rest[..|rest| - 1], key)
    ensures RunsAlone(m, first, rest, key)
  {
    var before, take := rest[..|rest| - 1], rest[|rest| - 1];
    var s := Run(m, first + before);
    RunLast(m, first, rest);
    assert TimesOf(rest, key) == TimesOf(before, key);
    if key in s.buckets { TakeTouchesOneBucket(m, s, take, key); } else { OthersGiveNoMeter(m, s, take, key); }
  }

  /** The next take of a key with a meter is decided by that meter, run on alone. */
  lemma KeptKeyDecides<B(!new)>(m: Meter<B>, first: seq<Draw>, rest: seq<Draw>, take: Draw)
    requires RunsAlone(m, first, rest, take.key)
    requires take.key in Run(m, first).buckets || TimesOf(rest, take.key) != []
    ensures var times := TimesOf(rest, take.key);
      Decides(m, Run(m, first + rest), take) == m.admits(After(m, Beginning(m, first, times, take.key), times), take.now)
  {
  }

  lemma RunSnoc<B>(m: Meter<B>, takes: seq<Draw>, take: Draw)
    ensures Run(m, takes + [take]) == TakeFrom(m, Run(m, takes), take)
  {
    assert (takes + [take])[..|takes|] == takes;
  }

  lemma RunLast<B>(m: Meter<B>, first: seq<Draw>, rest: seq<Draw>)
    requires rest != []
    ensures var before, take := rest[..|rest| - 1], rest[|rest| - 1];
            Run(m, first + rest) == TakeFrom(m, Run(m, first + before), take)
  {
    var before, take := rest[..|rest| - 1], rest[|rest| - 1];
    assert first + rest == first + before + [take];
    RunSnoc(m, first + before, take);
  }
}
