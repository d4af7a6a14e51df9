/**
 Admission limits: the fixed-window rate limiter, the in-flight gate and the per-IP
 connection tracker with their permits. Each lock-protected section is one call; the
 clock reading taken under the lock is a parameter (nanoseconds).
 */
module Limits {
  import opened Prelude

  const SECOND := 1_000_000_000
  const WINDOW: int := 60_000_000_000

  // ---- Rate limiter ----------------------------------------------------------------------

  datatype Bucket = Bucket(windowStart: int, count: nat)

  type Buckets = map<string, Bucket>

  /** The bucket a call works on: a missing one opens now, an expired one starts over. */
  function CurrentBucket(buckets: Buckets, key: string, now: int): Bucket {
    if key !in buckets then Bucket(now, 0)
    else if now - buckets[key].windowStart >= WINDOW then Bucket(now, 0)
    else buckets[key]
  }

  function Decide(buckets: Buckets, key: string, rpm: nat, now: int): (Buckets, bool) {
    if rpm == 0 then (buckets, true)
    else
      var b := CurrentBucket(buckets, key, now);
      if b.count >= rpm then (buckets[key := b], false)
      else (buckets[key := b.(count := b.count + 1)], true)
  }

  class RateLimiter {
    const rpm: nat
    var buckets: Buckets

    constructor (rpm: nat)
      ensures this.rpm == rpm && buckets == map[]
    {
      this.rpm := rpm;
      buckets := map[];
    }

    method Check(key: string, now: int) returns (ok: bool)
      modifies this
      ensures (buckets, ok) == Decide(old(buckets), key, rpm, now)
    {
      ok := CheckWithRpm(key, rpm, now);
    }

    method CheckWithRpm(key: string, rpm: nat, now: int) returns (ok: bool)
      modifies this
      ensures (buckets, ok) == Decide(old(buckets), key, rpm, now)
    {
      if rpm == 0 {
        return true;
      }
      var bucket := if key in buckets then buckets[key] else Bucket(now, 0);
      var elapsed := if now >= bucket.windowStart then now - bucket.windowStart else 0;
      if elapsed >= WINDOW {
        bucket := Bucket(now, 0);
      }
      if bucket.count >= rpm {
        buckets := buckets[key := bucket];
        return false;
      }
      buckets := buckets[key := bucket.(count := bucket.count + 1)];
      return true;
    }
  }

  /** A rate of zero is no limit: such calls are admitted in any state and count for nothing. */
  lemma {:induction false} ZeroIsUnlimited(calls: seq<Call>, key: string, now: int, more: seq<Call>)
    ensures LastAdmitted(calls + [Call(key, 0, now)])
    ensures After(calls + [Call(key, 0, now)] + more) == After(calls + more)
    decreases |more|
  {
    var c := Call(key, 0, now);
    assert (calls + [c])[..|calls|] == calls;
    if more == [] {
      assert calls + [c] + more == calls + [c] && calls + more == calls;
    } else {
      var init := more[..|more| - 1];
      ZeroIsUnlimited(calls, key, now, init);
      assert (calls + [c] + more)[..|calls| + |more|] == calls + [c] + init;
      assert (calls + more)[..|calls| + |more| - 1] == calls + init;
    }
  }

  // ---- Traces of calls -------------------------------------------------------------------

  datatype Call = Call(key: string, rpm: nat, now: int)

  function After(calls: seq<Call>): Buckets {
    if calls == [] then map[]
    else
      var c := calls[|calls| - 1];
      Decide(After(calls[..|calls| - 1]), c.key, c.rpm, c.now).0
  }

  /** The last call of the trace was admitted. */
  predicate LastAdmitted(calls: seq<Call>)
    requires calls != []
  {
    var c := calls[|calls| - 1];
    Decide(After(calls[..|calls| - 1]), c.key, c.rpm, c.now).1
  }

  /** How many calls for `key` with a clock reading in [lo, hi) were admitted. */
  function Admitted(calls: seq<Call>, key: string, lo: int, hi: int): nat {
    if calls == [] then 0
    else
      var c := calls[|calls| - 1];
      var earlier := Admitted(calls[..|calls| - 1], key, lo, hi);
      if c.key == key && lo <= c.now < hi && LastAdmitted(calls) then earlier + 1 else earlier
  }

  predicate ClockNeverSteps(calls: seq<Call>) {
    forall i, j :: 0 <= i <= j < |calls| ==> calls[i].now <= calls[j].now
  }

  predicate RatesWithin(calls: seq<Call>, key: string, most: nat) {
    forall i :: 0 <= i < |calls| && calls[i].key == key ==> 0 < calls[i].rpm <= most
  }

  lemma {:induction false} AdmittedSplits(calls: seq<Call>, key: string, lo: int, mid: int, hi: int)
    requires lo <= mid <= hi
    ensures Admitted(calls, key, lo, hi) == Admitted(calls, key, lo, mid) + Admitted(calls, key, mid, hi)
  {
    if calls != [] {
      AdmittedSplits(calls[..|calls| - 1], key, lo, mid, hi);
    }
  }

  lemma {:induction false} AdmittedOutside(calls: seq<Call>, key: string, lo: int, hi: int)
    requires forall i :: 0 <= i < |calls| && calls[i].key == key ==> calls[i].now < lo || hi <= calls[i].now
    ensures Admitted(calls, key, lo, hi) == 0
  {
    if calls != [] {
      AdmittedOutside(calls[..|calls| - 1], key, lo, hi);
    }
  }

  /**
   What a key's bucket says about the calls so far. The window opened with an admitted call; its count is
   the number admitted since, in less than a window; just before it at most `most - 1` were admitted
   within any window's length.
   */
  ghost predicate BucketTells(calls: seq<Call>, key: string, most: nat) {
    if key !in After(calls) then
      forall i :: 0 <= i < |calls| ==> calls[i].key != key
    else
      var b := After(calls)[key];
      && 1 <= b.count <= most
      && calls != [] && b.windowStart <= calls[|calls| - 1].now
      && (forall i :: 0 <= i < |calls| && calls[i].key == key ==> calls[i].now < b.windowStart + WINDOW)
      && (forall hi :: hi >= b.windowStart + WINDOW ==> Admitted(calls, key, b.windowStart, hi) == b.count)
      && Admitted(calls, key, b.windowStart, b.windowStart + 1) >= 1
      && (forall lo :: b.windowStart - WINDOW < lo <= b.windowStart ==> Admitted(calls, key, lo, b.windowStart) < most)
  }

  lemma {:induction false} BucketAlwaysTells(calls: seq<Call>, key: string, most: nat)
    requires ClockNeverSteps(calls) && RatesWithin(calls, key, most)
    ensures BucketTells(calls, key, most)
  {
    if calls != [] {
      var earlier, c := calls[..|calls| - 1], calls[|calls| - 1];
      BucketAlwaysTells(earlier, key, most);
      if c.key != key {
        OtherKeyLeavesBucket(calls, key, most);
      } else if key !in After(earlier) {
        FirstCallOpensWindow(calls, key, most);
      } else if c.now - After(earlier)[key].windowStart >= WINDOW {
        ExpiredWindowRestarts(calls, key, most);
      } else {
        SameWindowCounts(calls, key, most);
      }
    }
  }

  lemma {:induction false} OtherKeyLeavesBucket(calls: seq<Call>, key: string, most: nat)
    requires calls != [] && calls[|calls| - 1].key != key && BucketTells(calls[..|calls| - 1], key, most)
    requires ClockNeverSteps(calls)
    ensures BucketTells(calls, key, most)
  {
    var earlier := calls[..|calls| - 1];
    assert forall lo, hi :: Admitted(calls, key, lo, hi) == Admitted(earlier, key, lo, hi);
    hide Admitted;
    assert key in After(calls) <==> key in After(earlier);
    if key in After(calls) {
      assert After(calls)[key] == After(earlier)[key];
    }
  }

  lemma {:induction false} FirstCallOpensWindow(calls: seq<Call>, key: string, most: nat)
    requires calls != [] && calls[|calls| - 1].key == key && 0 < calls[|calls| - 1].rpm <= most
    requires key !in After(calls[..|calls| - 1]) && BucketTells(calls[..|calls| - 1], key, most)
    ensures BucketTells(calls, key, most)
  {
    var earlier, c := calls[..|calls| - 1], calls[|calls| - 1];
    forall lo, hi
      ensures Admitted(calls, key, lo, hi) == if lo <= c.now < hi then 1 else 0
    {
      AdmittedOutside(earlier, key, lo, hi);
    }
  }

  lemma {:induction false} ExpiredWindowRestarts(calls: seq<Call>, key: string, most: nat)
    requires calls != [] && calls[|calls| - 1].key == key && 0 < calls[|calls| - 1].rpm <= most
    requires var earlier := calls[..|calls| - 1];
             && BucketTells(earlier, key, most)
             && key in After(earlier)
             && calls[|calls| - 1].now - After(earlier)[key].windowStart >= WINDOW
    ensures BucketTells(calls, key, most)
  {
    var earlier, c := calls[..|calls| - 1], calls[|calls| - 1];
    var was := After(earlier)[key];
    assert After(calls)[key] == Bucket(c.now, 1);
    forall hi | hi > c.now
      ensures Admitted(calls, key, c.now, hi) == 1
    {
      AdmittedOutside(earlier, key, c.now, hi);
    }
    forall lo | c.now - WINDOW < lo <= c.now
      ensures Admitted(calls, key, lo, c.now) < most
    {
      var hi := if c.now > was.windowStart + WINDOW then c.now else was.windowStart + WINDOW;
      AdmittedSplits(earlier, key, lo, c.now, hi);
      AdmittedSplits(earlier, key, was.windowStart, lo, hi);
      AdmittedSplits(earlier, key, was.windowStart, was.windowStart + 1, lo);
    }
  }

  lemma {:induction false} SameWindowCounts(calls: seq<Call>, key: string, most: nat)
    requires calls != [] && calls[|calls| - 1].key == key && 0 < calls[|calls| - 1].rpm <= most
    requires ClockNeverSteps(calls)
    requires var earlier := calls[..|calls| - 1];
             && BucketTells(earlier, key, most)
             && key in After(earlier)
             && calls[|calls| - 1].now - After(earlier)[key].windowStart < WINDOW
    ensures BucketTells(calls, key, most)
  {
    var earlier, c := calls[..|calls| - 1], calls[|calls| - 1];
    var start := After(earlier)[key].windowStart;
    assert forall lo :: Admitted(calls, key, lo, start) == Admitted(earlier, key, lo, start);
    assert Admitted(calls, key, start, start + 1) >= Admitted(earlier, key, start, start + 1);
  }

  /**
   In any half-open minute at most `2 * most - 1` calls of a key are admitted, when each call of that key asks for a
   rate between one and `most`. The calls of other keys are arbitrary.
   */
  lemma {:induction false} MinuteBound(calls: seq<Call>, key: string, most: nat, lo: int)
    requires ClockNeverSteps(calls) && RatesWithin(calls, key, most) && most > 0
    ensures Admitted(calls, key, lo, lo + 60 * SECOND) <= 2 * most - 1
  {
    assert 60 * SECOND == WINDOW;
    if calls != [] {
      var earlier := calls[..|calls| - 1];
      MinuteBound(earlier, key, most, lo);
      BucketAlwaysTells(calls, key, most);
      if key !in After(calls) {
        AdmittedOutside(calls, key, lo, lo + WINDOW);
      } else {
        MinuteAgainstWindow(calls, key, most, lo);
      }
    }
  }

  lemma {:induction false} MinuteAgainstWindow(calls: seq<Call>, key: string, most: nat, lo: int)
    requires ClockNeverSteps(calls) && most > 0 && calls != []
    requires BucketTells(calls, key, most) && key in After(calls)
    requires Admitted(calls[..|calls| - 1], key, lo, lo + WINDOW) <= 2 * most - 1
    ensures Admitted(calls, key, lo, lo + WINDOW) <= 2 * most - 1
  {
    var start := After(calls)[key].windowStart;
    var last := calls[|calls| - 1];
    if lo + WINDOW > start {
      hide After, LastAdmitted;
      if lo <= start {
        AdmittedSplits(calls, key, lo, start, lo + WINDOW);
        AdmittedSplits(calls, key, start, lo + WINDOW, start + WINDOW);
      } else {
        AdmittedSplits(calls, key, start, lo, lo + WINDOW);
      }
    } else {
      assert last.now >= lo + WINDOW;
    }
  }

  /** Window openings of a key are at least a minute apart. */
  lemma {:induction false} WindowsAreApart(calls: seq<Call>, n: nat, key: string)
    requires n <= |calls| && key in After(calls[..n])
    ensures key in After(calls)
    ensures var was, now := After(calls[..n])[key].windowStart, After(calls)[key].windowStart;
            now == was || now >= was + 60 * SECOND
    decreases |calls|
  {
    if n < |calls| {
      var earlier := calls[..|calls| - 1];
      assert earlier[..n] == calls[..n];
      WindowsAreApart(earlier, n, key);
    } else {
      assert calls[..n] == calls;
    }
  }

  function OnlyKey(calls: seq<Call>, key: string): seq<Call> {
    if calls == [] then []
    else
      var c := calls[|calls| - 1];
      OnlyKey(calls[..|calls| - 1], key) + if c.key == key then [c] else []
  }

  /** The calls of other keys never matter: without them every decision for this key is the same. */
  lemma {:induction false} OtherKeysNeverMatter(calls: seq<Call>, key: string)
    ensures var own := OnlyKey(calls, key);
            && (key in After(calls) <==> key in After(own))
            && (key in After(calls) ==> After(calls)[key] == After(own)[key])
            && (calls != [] && calls[|calls| - 1].key == key
               ==> own != [] && (LastAdmitted(calls) <==> LastAdmitted(own)))
  {
    if calls != [] {
      var earlier, c := calls[..|calls| - 1], calls[|calls| - 1];
      OtherKeysNeverMatter(earlier, key);
      var own := OnlyKey(calls, key);
      if c.key == key {
        assert own[..|own| - 1] == OnlyKey(earlier, key) && own[|own| - 1] == c;
      } else {
        assert own == OnlyKey(earlier, key);
      }
    }
  }

  // ---- The bound is reached --------------------------------------------------------------

  function Repeat(c: Call, n: nat): seq<Call> {
    seq(n, _ => c)
  }

  /** One call opens the window, `most - 1` come at its last instant, `most` in the next window. */
  function Burst(most: nat): seq<Call>
    requires most > 0
  {
    [Call("k", most, 0)] + Repeat(Call("k", most, WINDOW - 1), most - 1) + Repeat(Call("k", most, WINDOW), most)
  }

  lemma {:induction false} OneMore(calls: seq<Call>, c: Call, key: string, lo: int, hi: int)
    ensures var d := Decide(After(calls), c.key, c.rpm, c.now);
            && After(calls + [c]) == d.0
            && Admitted(calls + [c], key, lo, hi) ==
               Admitted(calls, key, lo, hi) + if c.key == key && lo <= c.now < hi && d.1 then 1 else 0
  {
    assert (calls + [c])[..|calls|] == calls;
  }

  lemma {:induction false} RepeatOneMore(calls: seq<Call>, c: Call, n: nat)
    requires n > 0
    ensures calls + Repeat(c, n) == (calls + Repeat(c, n - 1)) + [c]
  {
  }

  lemma {:induction false} OpeningCall(most: nat)
    requires most > 0
    ensures After([Call("k", most, 0)]) == map["k" := Bucket(0, 1)]
    ensures Admitted([Call("k", most, 0)], "k", WINDOW - 1, 2 * WINDOW - 1) == 0
  {
    OneMore([], Call("k", most, 0), "k", WINDOW - 1, 2 * WINDOW - 1);
    assert [] + [Call("k", most, 0)] == [Call("k", most, 0)];
  }

  lemma {:induction false} FirstBurst(most: nat, n: nat)
    requires n < most
    ensures var calls := [Call("k", most, 0)] + Repeat(Call("k", most, WINDOW - 1), n);
            && After(calls) == map["k" := Bucket(0, n + 1)]
            && Admitted(calls, "k", WINDOW - 1, 2 * WINDOW - 1) == n
  {
    hide After, Admitted;
    var opening := Call("k", most, 0);
    var c := Call("k", most, WINDOW - 1);
    if n == 0 {
      OpeningCall(most);
      assert [opening] + Repeat(c, 0) == [opening];
    } else {
      FirstBurst(most, n - 1);
      RepeatOneMore([opening], c, n);
      OneMore([opening] + Repeat(c, n - 1), c, "k", WINDOW - 1, 2 * WINDOW - 1);
    }
  }

  lemma {:induction false} SecondBurst(most: nat, n: nat)
    requires 0 < n <= most
    ensures var calls := [Call("k", most, 0)] + Repeat(Call("k", most, WINDOW - 1), most - 1)
            + Repeat(Call("k", most, WINDOW), n);
            && After(calls) == map["k" := Bucket(WINDOW, n)]
            && Admitted(calls, "k", WINDOW - 1, 2 * WINDOW - 1) == most - 1 + n
  {
    hide After, Admitted;
    var first := [Call("k", most, 0)] + Repeat(Call("k", most, WINDOW - 1), most - 1);
    var c := Call("k", most, WINDOW);
    RepeatOneMore(first, c, n);
    OneMore(first + Repeat(c, n - 1), c, "k", WINDOW - 1, 2 * WINDOW - 1);
    if n == 1 {
      FirstBurst(most, most - 1);
      assert first + Repeat(c, 0) == first;
    } else {
      SecondBurst(most, n - 1);
    }
  }

  /** For every rate there is a trace that admits `2 * most - 1` calls within one minute. */
  lemma {:induction false} BoundIsReached(most: nat)
    requires most > 0
    ensures ClockNeverSteps(Burst(most)) && RatesWithin(Burst(most), "k", most)
    ensures Admitted(Burst(most), "k", 60 * SECOND - 1, 60 * SECOND - 1 + 60 * SECOND) == 2 * most - 1
  {
    SecondBurst(most, most);
  }

  function SaturatingSub(a: nat, b: nat): nat {
    if a >= b then a - b else 0
  }

  // ---- In-flight gate --------------------------------------------------------------------

  datatype InflightPermit = InflightPermit(active: bool)

  class InflightGate {
    const max: nat
    var current: nat
    ghost var live: multiset<InflightPermit>

    /** The counter is the number of live permits that took a slot, never above the maximum. */
    ghost predicate Valid()
      reads this
    {
      && current == live[InflightPermit(true)]
      && current <= max
      && (max > 0 ==> InflightPermit(false) !in live)
    }

    constructor (max: nat)
      ensures Valid() && this.max == max && live == multiset{}
    {
      this.max := max;
      current := 0;
      live := multiset{};
    }

    method TryAcquire() returns (r: Option<InflightPermit>)
      requires Valid()
      modifies this
      ensures Valid()
      ensures r.None? <==> 0 < max == old(live)[InflightPermit(true)]
      ensures r.None? ==> live == old(live) && current == old(current)
      ensures r.Some? ==> r.value.active == (max > 0) && live == old(live) + multiset{r.value}
      ensures max == 0 ==> current == old(current)
    {
      if max == 0 {
        live := live + multiset{InflightPermit(false)};
        return Some(InflightPermit(false));
      }
      if current >= max {
        return None;
      }
      current := current + 1;
      live := live + multiset{InflightPermit(true)};
      return Some(InflightPermit(true));
    }

    method Drop(permit: InflightPermit)
      requires Valid() && permit in live
      modifies this
      ensures Valid() && live == old(live) - multiset{permit}
      ensures !permit.active ==> current == old(current)
    {
      live := live - multiset{permit};
      if !permit.active {
        return;
      }
      current := SaturatingSub(current, 1);
    }
  }

  // ---- Per-IP connections ----------------------------------------------------------------

  datatype IpConnPermit = IpConnPermit(ip: Option<string>)

  function CountOf(counts: map<string, nat>, ip: string): nat {
    if ip in counts then counts[ip] else 0
  }

  class IpConnTracker {
    const max: nat
    var counts: map<string, nat>
    ghost var live: multiset<IpConnPermit>

    /** Every address's count is its number of live permits; there is no zero entry and none above the maximum. */
    ghost predicate Valid()
      reads this
    {
      && (forall ip :: CountOf(counts, ip) == live[IpConnPermit(Some(ip))])
      && (forall ip :: ip in counts ==> 0 < counts[ip] <= max)
      && (max > 0 ==> IpConnPermit(None) !in live)
    }

    constructor (max: nat)
      ensures Valid() && this.max == max && live == multiset{}
    {
      this.max := max;
      counts := map[];
      live := multiset{};
    }

    method TryAcquire(ip: string) returns (r: Option<IpConnPermit>)
      requires Valid()
      modifies this
      ensures Valid()
      ensures var key := if ip == "" then "unknown" else ip;
              && (r.None? <==> 0 < max == old(live)[IpConnPermit(Some(key))])
              && (r.Some? ==> r.value == IpConnPermit(if max == 0 then None else Some(key)))
      ensures r.None? ==> live == old(live) && counts == old(counts)
      ensures r.Some? ==> live == old(live) + multiset{r.value}
      ensures max == 0 ==> counts == old(counts)
    {
      if max == 0 {
        live := live + multiset{IpConnPermit(None)};
        return Some(IpConnPermit(None));
      }
      var key := if ip == "" then "unknown" else ip;
      var entry := if key in counts then counts[key] else 0;
      assert entry == live[IpConnPermit(Some(key))];
      if entry >= max {
        counts := counts[key := entry];
        return None;
      }
      counts := counts[key := entry + 1];
      live := live + multiset{IpConnPermit(Some(key))};
      return Some(IpConnPermit(Some(key)));
    }

    method Drop(permit: IpConnPermit)
      requires Valid() && permit in live
      modifies this
      ensures Valid() && live == old(live) - multiset{permit}
      ensures permit.ip.None? ==> counts == old(counts)
    {
      live := live - multiset{permit};
      if permit.ip.None? {
        return;
      }
      var ip := permit.ip.value;
      if ip in counts {
        var n := SaturatingSub(counts[ip], 1);
        counts := counts[ip := n];
        if n == 0 {
          counts := counts - {ip};
        }
      }
    }
  }

  // ---- Runs of acquiring and dropping ----------------------------------------------------

  datatype ConnEvent = Open(ip: string) | Close(which: nat)

  function KeyOf(ip: string): string {
    if ip == "" then "unknown" else ip
  }

  function Without<T>(held: seq<T>, k: nat): seq<T> {
    if k < |held| then held[..k] + held[k + 1..] else held
  }

  /**
   The permits held after a run: an opening is admitted exactly when its address holds fewer than the maximum (always,
   without counting, when the maximum is zero); closing gives one of the held permits back.
   */
  function HeldAfter(max: nat, events: seq<ConnEvent>): seq<IpConnPermit> {
    if events == [] then [] else OneConn(max, HeldAfter(max, events[..|events| - 1]), events[|events| - 1])
  }

  function OneConn(max: nat, held: seq<IpConnPermit>, event: ConnEvent): seq<IpConnPermit> {
    match event
    case Close(k) => Without(held, k)
    case Open(ip) =>
      if max == 0 then held + [IpConnPermit(None)]
      else if multiset(held)[IpConnPermit(Some(KeyOf(ip)))] < max then held + [IpConnPermit(Some(KeyOf(ip)))]
      else held
  }

  lemma {:induction false} OneMoreConn(max: nat, events: seq<ConnEvent>, i: nat)
    requires i < |events|
    ensures var held, after := HeldAfter(max, events[..i]), HeldAfter(max, events[..i + 1]);
            match events[i]
            case Close(k) => after == Without(held, k)
            case Open(ip) =>
              var permit := IpConnPermit(if max == 0 then None else Some(KeyOf(ip)));
              after == if max == 0 || multiset(held)[permit] < max then held + [permit] else held
  {
    assert events[..i + 1][..i] == events[..i];
  }

  lemma {:induction false} TrackerTells(tracker: IpConnTracker)
    requires tracker.Valid()
    ensures forall ip :: CountOf(tracker.counts, ip) == tracker.live[IpConnPermit(Some(ip))]
    ensures forall ip :: ip in tracker.counts ==> 0 < tracker.counts[ip] <= tracker.max
  {
  }

  lemma {:induction false} WithinMax(tracker: IpConnTracker, ip: string)
    requires tracker.Valid()
    ensures tracker.live[IpConnPermit(Some(ip))] <= tracker.max
  {
    assert CountOf(tracker.counts, ip) == tracker.live[IpConnPermit(Some(ip))];
  }

  /** Any interleaving of opening connections and closing held ones, on one tracker. */
  method TrackConnections(max: nat, events: seq<ConnEvent>)
    returns (held: seq<IpConnPermit>, counts: map<string, nat>)
    ensures held == HeldAfter(max, events)
    ensures max > 0 ==>
              forall ip :: ip != "" ==>
                multiset(held)[IpConnPermit(Some(ip))] == |HeldAfter(max, OwnEvents(max, events, ip))|
    ensures forall ip :: CountOf(counts, ip) == multiset(held)[IpConnPermit(Some(ip))]
    ensures forall ip :: ip in counts ==> 0 < counts[ip] <= max
    ensures max == 0 ==> counts == map[]
  {
    hide HeldAfter, IpConnTracker.Valid, CountOf, OwnEvents;
    var tracker := new IpConnTracker(max);
    held := [];
    NothingHeld(max, events);
    for i := 0 to |events|
      invariant tracker.Valid() && tracker.max == max && fresh(tracker)
      invariant tracker.live == multiset(held) && held == HeldAfter(max, events[..i])
      invariant max == 0 ==> tracker.counts == map[]
    {
      OneMoreConn(max, events, i);
      match events[i] {
        case Open(ip) =>
          WithinMax(tracker, KeyOf(ip));
          var r := tracker.TryAcquire(ip);
          if r.Some? {
            held := held + [r.value];
          }
        case Close(k) =>
          if k < |held| {
            RemoveOne(held, k);
            tracker.Drop(held[k]);
            held := held[..k] + held[k + 1..];
          }
      }
    }
    assert events[..|events|] == events;
    TrackerTells(tracker);
    forall ip | max > 0 && ip != ""
      ensures multiset(held)[IpConnPermit(Some(ip))] == |HeldAfter(max, OwnEvents(max, events, ip))|
    {
      OtherAddressesNeverMatter(max, events, ip);
    }
    counts := tracker.counts;
  }

  lemma {:induction false} NothingHeld(max: nat, events: seq<ConnEvent>)
    ensures HeldAfter(max, events[..0]) == []
  {
  }

  /** The events of one address: its openings, and the closings that gave back one of its permits. */
  function OwnEvents(max: nat, events: seq<ConnEvent>, ip: string): seq<ConnEvent> {
    if events == [] then []
    else
      var init, last := events[..|events| - 1], events[|events| - 1];
      var mine := if last.Open? then Open(ip) else Close(0);
      OwnEvents(max, init, ip) + if IsOwn(HeldAfter(max, init), last, ip) then [mine] else []
  }

  /** The event is the address's own; connections without an address count as those of "unknown". */
  predicate IsOwn(held: seq<IpConnPermit>, event: ConnEvent, ip: string) {
    match event
    case Open(other) => other == ip || (ip == "unknown" && other == "")
    case Close(k) => k < |held| && held[k] == IpConnPermit(Some(ip))
  }

  /** Other addresses never matter: an address holds after a run what it would hold if only its own events had been. */
  lemma {:induction false} OtherAddressesNeverMatter(max: nat, events: seq<ConnEvent>, ip: string)
    requires max > 0 && ip != ""
    ensures var own := HeldAfter(max, OwnEvents(max, events, ip));
            && multiset(HeldAfter(max, events))[IpConnPermit(Some(ip))] == |own|
            && AllAre(own, IpConnPermit(Some(ip)))
  {
    hide OneConn, KeyOf;
    if events != [] {
      var n := |events| - 1;
      var init, last := events[..n], events[n];
      OtherAddressesNeverMatter(max, init, ip);
      var before := OwnEvents(max, init, ip);
      var own := HeldAfter(max, before);
      assert OneConn(max, HeldAfter(max, init), last) == HeldAfter(max, events);
      if IsOwn(HeldAfter(max, init), last, ip) {
        var mine := if last.Open? then Open(ip) else Close(0);
        assert (before + [mine])[..|before|] == before;
        assert OneConn(max, own, mine) == HeldAfter(max, before + [mine]);
        OwnStep(max, HeldAfter(max, init), own, last, mine, ip);
      } else {
        OtherStep(max, HeldAfter(max, init), last, ip);
        assert OwnEvents(max, events, ip) == before;
      }
    }
  }

  /** An address's own event moves its count in the whole run as it moves its own run. */
  lemma {:induction false} OwnStep(
    max: nat, held: seq<IpConnPermit>, own: seq<IpConnPermit>, event: ConnEvent, mine: ConnEvent, ip: string)
    requires max > 0 && ip != "" && IsOwn(held, event, ip)
    requires mine == if event.Open? then Open(ip) else Close(0)
    requires multiset(held)[IpConnPermit(Some(ip))] == |own| && AllAre(own, IpConnPermit(Some(ip)))
    ensures multiset(OneConn(max, held, event))[IpConnPermit(Some(ip))] == |OneConn(max, own, mine)|
    ensures AllAre(OneConn(max, own, mine), IpConnPermit(Some(ip)))
  {
    if event.Close? {
      OwnClose(held, own, event.which, IpConnPermit(Some(ip)));
    } else {
      OwnOpen(max, held, own, event.ip, ip);
    }
  }

  lemma {:induction false} OwnOpen(
    max: nat, held: seq<IpConnPermit>, own: seq<IpConnPermit>, asking: string, ip: string)
    requires max > 0 && ip != "" && (asking == ip || (ip == "unknown" && asking == ""))
    requires multiset(held)[IpConnPermit(Some(ip))] == |own| && AllAre(own, IpConnPermit(Some(ip)))
    ensures multiset(OneConn(max, held, Open(asking)))[IpConnPermit(Some(ip))] == |OneConn(max, own, Open(ip))|
    ensures AllAre(OneConn(max, own, Open(ip)), IpConnPermit(Some(ip)))
  {
    var p := IpConnPermit(Some(ip));
    CountSame(own, p);
    assert KeyOf(asking) == ip && KeyOf(ip) == ip;
    if |own| < max {
      assert OneConn(max, held, Open(asking)) == held + [p] && OneConn(max, own, Open(ip)) == own + [p];
    }
  }

  lemma {:induction false} OwnClose(held: seq<IpConnPermit>, own: seq<IpConnPermit>, k: nat, p: IpConnPermit)
    requires k < |held| && held[k] == p && multiset(held)[p] == |own| && AllAre(own, p)
    ensures multiset(Without(held, k))[p] == |Without(own, 0)| && AllAre(Without(own, 0), p)
  {
    RemoveOne(held, k);
    assert Without(own, 0) == own[1..];
  }

  lemma {:induction false} OtherStep(max: nat, held: seq<IpConnPermit>, event: ConnEvent, ip: string)
    requires max > 0 && ip != "" && !IsOwn(held, event, ip)
    ensures multiset(OneConn(max, held, event))[IpConnPermit(Some(ip))] == multiset(held)[IpConnPermit(Some(ip))]
  {
    if event.Close? && event.which < |held| {
      RemoveOne(held, event.which);
    }
  }

  predicate AllAre(held: seq<IpConnPermit>, p: IpConnPermit) {
    forall i :: 0 <= i < |held| ==> held[i] == p
  }

  lemma {:induction false} CountSame(held: seq<IpConnPermit>, p: IpConnPermit)
    requires AllAre(held, p)
    ensures multiset(held)[p] == |held|
  {
    if held != [] {
      CountSame(held[1..], p);
      assert held == [held[0]] + held[1..];
    }
  }

  datatype GateEvent = Enter | Leave(which: nat)

  /** The gate's permits held after a run: admitted exactly below a positive maximum, always for a zero one. */
  function InflightAfter(max: nat, events: seq<GateEvent>): seq<InflightPermit> {
    if events == [] then []
    else
      var held := InflightAfter(max, events[..|events| - 1]);
      match events[|events| - 1]
      case Leave(k) => Without(held, k)
      case Enter => if max == 0 || |held| < max then held + [InflightPermit(max > 0)] else held
  }

  lemma {:induction false} AllTheSame(max: nat, events: seq<GateEvent>)
    ensures multiset(InflightAfter(max, events))[InflightPermit(max > 0)] == |InflightAfter(max, events)|
    ensures max > 0 ==> |InflightAfter(max, events)| <= max
  {
    if events != [] {
      AllTheSame(max, events[..|events| - 1]);
      var held := InflightAfter(max, events[..|events| - 1]);
      match events[|events| - 1] {
        case Leave(k) =>
          if k < |held| {
            RemoveOne(held, k);
          }
        case Enter =>
      }
    }
  }

  lemma {:induction false} OneMoreEntry(max: nat, events: seq<GateEvent>, i: nat)
    requires i < |events|
    ensures var held, after := InflightAfter(max, events[..i]), InflightAfter(max, events[..i + 1]);
            match events[i]
            case Leave(k) => after == Without(held, k)
            case Enter => after == if max == 0 || |held| < max then held + [InflightPermit(max > 0)] else held
  {
    assert events[..i + 1][..i] == events[..i];
  }

  lemma {:induction false} NothingInflight(max: nat, events: seq<GateEvent>)
    ensures InflightAfter(max, events[..0]) == []
  {
  }

  /** Any interleaving of entering the gate and leaving it: the counter is the number of permits that took a slot. */
  method TrackInflight(max: nat, events: seq<GateEvent>) returns (held: seq<InflightPermit>, current: nat)
    ensures held == InflightAfter(max, events)
    ensures current == if max == 0 then 0 else |held|
    ensures max > 0 ==> current <= max
  {
    hide InflightAfter, InflightGate.Valid;
    var gate := new InflightGate(max);
    held := [];
    NothingInflight(max, events);
    for i := 0 to |events|
      invariant gate.Valid() && gate.max == max && fresh(gate)
      invariant gate.live == multiset(held) && held == InflightAfter(max, events[..i])
    {
      OneMoreEntry(max, events, i);
      AllTheSame(max, events[..i]);
      match events[i] {
        case Enter =>
          var r := gate.TryAcquire();
          if r.Some? {
            held := held + [r.value];
          }
        case Leave(k) =>
          if k < |held| {
            RemoveOne(held, k);
            gate.Drop(held[k]);
            held := held[..k] + held[k + 1..];
          }
      }
    }
    assert events[..|events|] == events;
    AllTheSame(max, events);
    GateTells(gate);
    current := gate.current;
  }

  lemma {:induction false} GateTells(gate: InflightGate)
    requires gate.Valid()
    ensures gate.current == gate.live[InflightPermit(true)] <= gate.max
  {
  }

  lemma {:induction false} RemoveOne<T>(held: seq<T>, k: nat)
    requires k < |held|
    ensures held[k] in multiset(held)
    ensures multiset(held[..k] + held[k + 1..]) == multiset(held) - multiset{held[k]}
  {
    assert held == held[..k] + [held[k]] + held[k + 1..];
  }
}
