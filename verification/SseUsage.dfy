/**
 The usage meter on a server-sent event stream: bytes are forwarded unchanged while a copy is cut
 into events at blank lines, and the last event that reports usage wins.

 Reading usage out of one event (UTF-8, `data:` lines, JSON) is a function parameter.
 */
module SseUsage {
  import opened Prelude

  const LF: byte := 10

  datatype Usage = Usage(prompt: nat, completion: nat)

  type UsageReader = seq<byte> -> Option<Usage>

  // ---- Cutting a stream at blank lines ---------------------------------------------------

  predicate BlankLineAt(s: seq<byte>, i: int) {
    0 <= i && i + 2 <= |s| && s[i] == LF && s[i + 1] == LF
  }

  /** The end of the first blank line. */
  function FindEventEnd(s: seq<byte>): (end: Option<nat>)
    ensures end.Some? ==> BlankLineAt(s, end.value - 2) && forall i :: i < end.value - 2 ==> !BlankLineAt(s, i)
    ensures end.None? ==> forall i :: !BlankLineAt(s, i)
  {
    if |s| < 2 then None
    else if s[0] == LF && s[1] == LF then Some(2)
    else
      var later := FindEventEnd(s[1..]);
      assert forall i :: 0 < i ==> BlankLineAt(s, i) == BlankLineAt(s[1..], i - 1);
      if later.Some? then Some(later.value + 1) else None
  }

  datatype Cut = Cut(events: seq<seq<byte>>, rest: seq<byte>)

  function Prepend(events: seq<seq<byte>>, c: Cut): Cut {
    Cut(events + c.events, c.rest)
  }

  /** The whole stream cut at once. */
  function CutEvents(s: seq<byte>): (c: Cut)
    decreases |s|
  {
    match FindEventEnd(s)
    case None => Cut([], s)
    case Some(end) => Prepend([s[..end]], CutEvents(s[end..]))
  }

  /** An event ends at its first blank line. */
  predicate IsEvent(e: seq<byte>) {
    FindEventEnd(e) == Some(|e|)
  }

  ghost predicate IsCut(c: Cut, s: seq<byte>) {
    && Concat(c.events) + c.rest == s
    && (forall i :: 0 <= i < |c.events| ==> IsEvent(c.events[i]))
    && FindEventEnd(c.rest) == None
  }

  lemma {:induction false} FirstEnd(s: seq<byte>, end: nat)
    requires BlankLineAt(s, end - 2) && forall i :: i < end - 2 ==> !BlankLineAt(s, i)
    ensures FindEventEnd(s) == Some(end)
  {
    hide FindEventEnd;
  }

  /** What follows an event does not move its end. */
  lemma {:induction false} EndIsStable(e: seq<byte>, more: seq<byte>)
    requires FindEventEnd(e).Some?
    ensures FindEventEnd(e + more) == FindEventEnd(e)
  {
    hide FindEventEnd;
    var end := FindEventEnd(e).value;
    assert forall i :: i + 2 <= |e| ==> BlankLineAt(e + more, i) == BlankLineAt(e, i);
    FirstEnd(e + more, end);
  }

  /** The cut is the only way to see the stream as events followed by an unfinished one. */
  lemma {:induction false} CutIsUnique(s: seq<byte>, c: Cut)
    ensures IsCut(c, s) <==> c == CutEvents(s)
    decreases |s|
  {
    if IsCut(c, s) {
      AnyCutIsTheCut(s, c);
    }
    CutEventsIsCut(s);
  }

  lemma {:induction false} CutEventsIsCut(s: seq<byte>)
    ensures IsCut(CutEvents(s), s)
    decreases |s|
  {
    hide FindEventEnd, CutEvents, IsEvent;
    if FindEventEnd(s).None? {
      NoEvent([], s);
      assert Prepend([], CutEvents(s)) == CutEvents(s);
    } else {
      var end := FindEventEnd(s).value;
      CutEventsIsCut(s[end..]);
      CutFirst(s, end);
      FirstEventAlone(s, end);
      CutWithEvent(s[..end], CutEvents(s[end..]), s[end..]);
      assert s[..end] + s[end..] == s;
    }
  }

  lemma {:induction false} FirstEventAlone(s: seq<byte>, end: nat)
    requires FindEventEnd(s) == Some(end)
    ensures end <= |s| && IsEvent(s[..end])
  {
    hide FindEventEnd;
    assert forall i :: i + 2 <= end ==> BlankLineAt(s[..end], i) == BlankLineAt(s, i);
    FirstEnd(s[..end], end);
  }

  lemma {:induction false} CutWithEvent(first: seq<byte>, later: Cut, tail: seq<byte>)
    requires IsEvent(first) && IsCut(later, tail)
    ensures IsCut(Prepend([first], later), first + tail)
  {
    hide FindEventEnd;
    var events := [first] + later.events;
    assert events[1..] == later.events && events[0] == first;
    assert Concat(events) == first + Concat(later.events);
    assert first + Concat(later.events) + later.rest == first + (Concat(later.events) + later.rest);
  }

  lemma {:induction false} AnyCutIsTheCut(s: seq<byte>, c: Cut)
    requires IsCut(c, s)
    ensures c == CutEvents(s)
    decreases |c.events|
  {
    hide FindEventEnd;
    if c.events == [] {
      assert s == c.rest;
    } else {
      var first := c.events[0];
      var later := Cut(c.events[1..], c.rest);
      var tail := Concat(later.events) + later.rest;
      assert s == first + tail;
      EndIsStable(first, tail);
      assert s[|first|..] == tail && s[..|first|] == first;
      assert IsCut(later, tail);
      AnyCutIsTheCut(tail, later);
      assert [first] + later.events == c.events;
    }
  }

  /** Cutting in instalments: only the unfinished rest matters for what comes next. */
  lemma {:induction false} CutInTwo(a: seq<byte>, b: seq<byte>)
    ensures CutEvents(a + b) == Prepend(CutEvents(a).events, CutEvents(CutEvents(a).rest + b))
    decreases |a|
  {
    hide FindEventEnd, CutEvents;
    if FindEventEnd(a).None? {
      NoEvent([], a);
      assert [] + CutEvents(a).events == CutEvents(a).events;
      assert Prepend([], CutEvents(a + b)) == CutEvents(a + b);
    } else {
      var end := FindEventEnd(a).value;
      EndIsStable(a, b);
      assert (a + b)[..end] == a[..end] && (a + b)[end..] == a[end..] + b;
      CutInTwo(a[end..], b);
      CutFirst(a, end);
      CutFirst(a + b, end);
      PrependTwice([a[..end]], CutEvents(a[end..]).events, CutEvents(CutEvents(a).rest + b));
    }
  }

  lemma {:induction false} CutFirst(s: seq<byte>, end: nat)
    requires FindEventEnd(s) == Some(end)
    ensures end <= |s| && CutEvents(s) == Prepend([s[..end]], CutEvents(s[end..]))
  {
  }

  lemma {:induction false} PrependTwice(a: seq<seq<byte>>, b: seq<seq<byte>>, c: Cut)
    ensures Prepend(a, Prepend(b, c)) == Prepend(a + b, c)
  {
    assert a + (b + c.events) == a + b + c.events;
  }

  lemma {:induction false} NextEvent(done: seq<seq<byte>>, buf: seq<byte>, end: nat)
    requires FindEventEnd(buf) == Some(end)
    ensures end <= |buf| && Prepend(done, CutEvents(buf)) == Prepend(done + [buf[..end]], CutEvents(buf[end..]))
  {
    hide CutEvents;
    CutFirst(buf, end);
    PrependTwice(done, [buf[..end]], CutEvents(buf[end..]));
  }

  lemma {:induction false} NoEvent(done: seq<seq<byte>>, buf: seq<byte>)
    requires FindEventEnd(buf).None?
    ensures Prepend(done, CutEvents(buf)) == Cut(done, buf)
  {
  }

  // ---- The last usage report -------------------------------------------------------------

  function LastUsage(events: seq<seq<byte>>, usageOf: UsageReader): Option<Usage> {
    if events == [] then None
    else
      var u := usageOf(events[|events| - 1]);
      if u.Some? then u else LastUsage(events[..|events| - 1], usageOf)
  }

  lemma {:induction false} LastUsageNext(done: seq<seq<byte>>, event: seq<byte>, usageOf: UsageReader)
    ensures LastUsage(done + [event], usageOf) ==
            if usageOf(event).Some? then usageOf(event) else LastUsage(done, usageOf)
  {
    assert (done + [event])[..|done|] == done;
  }

  // ---- What a writer takes ---------------------------------------------------------------

  /**
   A writer is given by what its k-th call takes: at most `accepts(k)` bytes, or a failure when that is negative.
   The outcome of one operation: bytes taken, the number of the next call, and success.
   */
  datatype Taken = Taken(n: nat, next: nat, ok: bool)

  function Least(a: nat, b: nat): nat {
    if a < b then a else b
  }

  /** One call. */
  function TakenOnce(data: seq<byte>, accepts: nat -> int, call: nat): (t: Taken)
    ensures t.n <= |data|
  {
    if accepts(call) < 0 then Taken(0, call + 1, false) else Taken(Least(accepts(call), |data|), call + 1, true)
  }

  /** Calls until everything is taken; a call that fails or takes nothing ends it. */
  function TakenFully(data: seq<byte>, accepts: nat -> int, call: nat): (t: Taken)
    ensures t.n <= |data| && (t.ok <==> t.n == |data|)
    decreases |data|
  {
    if data == [] then Taken(0, call, true)
    else if accepts(call) <= 0 then Taken(0, call + 1, false)
    else
      var k := Least(accepts(call), |data|);
      var rest := TakenFully(data[k..], accepts, call + 1);
      Taken(k + rest.n, rest.next, rest.ok)
  }

  lemma {:induction false} OneCall(data: seq<byte>, accepts: nat -> int, call: nat)
    ensures TakenOnce(data, accepts, call).next == call + 1
    ensures !TakenOnce(data, accepts, call).ok ==> TakenOnce(data, accepts, call).n == 0
  {
  }

  lemma {:induction false} NothingLeft(accepts: nat -> int, call: nat)
    ensures TakenFully([], accepts, call) == Taken(0, call, true)
  {
  }

  lemma {:induction false} FullStep(data: seq<byte>, accepts: nat -> int, call: nat)
    requires data != []
    ensures var once := TakenOnce(data, accepts, call);
            if !once.ok || once.n == 0 then TakenFully(data, accepts, call) == Taken(0, call + 1, false)
            else
              var rest := TakenFully(data[once.n..], accepts, call + 1);
              TakenFully(data, accepts, call) == Taken(once.n + rest.n, rest.next, rest.ok)
  {
  }

  // ---- The forwarding writer -------------------------------------------------------------

  class Inner {
    var bytes: seq<byte>
    var calls: nat
    const accepts: nat -> int

    constructor (accepts: nat -> int)
      ensures bytes == [] && calls == 0 && this.accepts == accepts
    {
      bytes := [];
      calls := 0;
      this.accepts := accepts;
    }

    method Write(data: seq<byte>) returns (n: Option<nat>)
      modifies this
      ensures var t := TakenOnce(data, accepts, old(calls));
              n == (if t.ok then Some(t.n) else None) && bytes == old(bytes) + data[..t.n] && calls == t.next
    {
      var most := accepts(calls);
      calls := calls + 1;
      if most < 0 {
        return None;
      }
      var k := if most < |data| then most else |data|;
      bytes := bytes + data[..k];
      return Some(k);
    }

    /** Repeats until everything is taken; failing half way leaves the bytes already taken. */
    method WriteAll(data: seq<byte>) returns (ok: bool)
      modifies this
      ensures var t := TakenFully(data, accepts, old(calls));
              ok == t.ok && bytes == old(bytes) + data[..t.n] && calls == t.next
    {
      hide TakenFully, TakenOnce;
      var done := 0;
      ghost var before := bytes;
      assert data[0..] == data;
      ghost var whole := TakenFully(data, accepts, calls);
      while done < |data|
        invariant 0 <= done <= |data|
        invariant bytes == before + data[..done]
        invariant var rest := TakenFully(data[done..], accepts, calls);
                  whole == Taken(done + rest.n, rest.next, rest.ok)
      {
        FullStep(data[done..], accepts, calls);
        OneCall(data[done..], accepts, calls);
        var n := Write(data[done..]);
        if n.None? || n.value == 0 {
          return false;
        }
        assert data[..done] + data[done..][..n.value] == data[..done + n.value];
        assert data[done..][n.value..] == data[done + n.value..];
        done := done + n.value;
      }
      assert data[done..] == [] && data[..done] == data;
      NothingLeft(accepts, calls);
      return true;
    }
  }

  class SseUsageAccumulator {
    const inner: Inner
    const usageOf: UsageReader
    var buf: seq<byte>
    var promptTokens: nat
    var completionTokens: nat
    var sawUsage: bool
    ghost var absorbed: seq<byte>

    /** The counters report this usage. */
    ghost predicate Reports(u: Option<Usage>)
      reads this
    {
      && sawUsage == u.Some?
      && promptTokens == (if u.Some? then u.value.prompt else 0)
      && completionTokens == (if u.Some? then u.value.completion else 0)
    }

    /** Buffer and counters are what cutting everything absorbed so far at once would give. */
    ghost predicate Valid()
      reads this
    {
      && buf == CutEvents(absorbed).rest
      && Reports(LastUsage(CutEvents(absorbed).events, usageOf))
    }

    /** Everything forwarded has been absorbed. */
    ghost predicate InStep()
      reads this, inner
    {
      absorbed == inner.bytes
    }

    constructor (inner: Inner, usageOf: UsageReader)
      ensures Valid() && this.inner == inner && this.usageOf == usageOf && absorbed == []
    {
      this.inner := inner;
      this.usageOf := usageOf;
      buf := [];
      promptTokens, completionTokens, sawUsage := 0, 0, false;
      absorbed := [];
    }

    method Absorb(chunk: seq<byte>)
      requires Valid()
      modifies this
      ensures Valid() && absorbed == old(absorbed) + chunk
    {
      hide FindEventEnd, CutEvents, LastUsage;
      CutInTwo(absorbed, chunk);
      ghost var done := CutEvents(absorbed).events;
      absorbed := absorbed + chunk;
      buf := buf + chunk;
      var end := FindEventEnd(buf);
      while end.Some?
        invariant end == FindEventEnd(buf)
        invariant absorbed == old(absorbed) + chunk
        invariant CutEvents(absorbed) == Prepend(done, CutEvents(buf))
        invariant Reports(LastUsage(done, usageOf))
        decreases |buf|
      {
        NextEvent(done, buf, end.value);
        var event := buf[..end.value];
        LastUsageNext(done, event, usageOf);
        buf := buf[end.value..];
        done := done + [event];
        var u := usageOf(event);
        if u.Some? {
          promptTokens := u.value.prompt;
          completionTokens := u.value.completion;
          sawUsage := true;
        }
        end := FindEventEnd(buf);
      }
      NoEvent(done, buf);
    }

    /** Absorbs exactly the part the inner writer took. */
    method Write(data: seq<byte>) returns (n: Option<nat>)
      requires Valid()
      modifies this, inner
      ensures Valid() && (InStep() <==> old(InStep()))
      ensures var t := TakenOnce(data, inner.accepts, old(inner.calls));
              && n == (if t.ok then Some(t.n) else None) && inner.calls == t.next
              && inner.bytes == old(inner.bytes) + data[..t.n] && absorbed == old(absorbed) + data[..t.n]
    {
      n := inner.Write(data);
      if n.Some? && n.value > 0 {
        Absorb(data[..n.value]);
        SameTail(old(absorbed), old(inner.bytes), data[..n.value]);
      }
    }

    /**
     Absorbs everything when everything was forwarded. A failed call absorbs nothing although part may have
     been forwarded, so absorbed and forwarded bytes stay equal exactly when the failure came before the first byte.
     */
    method WriteAll(data: seq<byte>) returns (ok: bool)
      requires Valid()
      modifies this, inner
      ensures Valid()
      ensures var t := TakenFully(data, inner.accepts, old(inner.calls));
              && ok == t.ok && inner.calls == t.next
              && inner.bytes == old(inner.bytes) + data[..t.n]
              && absorbed == old(absorbed) + if t.ok then data else []
      ensures ok ==> (InStep() <==> old(InStep()))
      ensures !ok && old(InStep()) ==> (InStep() <==> inner.bytes == old(inner.bytes))
    {
      ok := inner.WriteAll(data);
      if ok {
        Absorb(data);
        SameTail(old(absorbed), old(inner.bytes), data);
      }
    }
  }

  /** The unfinished event never holds a blank line. */
  lemma {:induction false} BufferHoldsNoBlankLine(acc: SseUsageAccumulator, i: int)
    requires acc.Valid()
    ensures !BlankLineAt(acc.buf, i)
  {
    hide FindEventEnd;
    CutEventsIsCut(acc.absorbed);
  }

  lemma {:induction false} SameTail(a: seq<byte>, b: seq<byte>, tail: seq<byte>)
    ensures a + tail == b + tail <==> a == b
  {
    if a + tail == b + tail {
      assert a == (a + tail)[..|a|] && b == (b + tail)[..|b|];
    }
  }

  // ---- Whole runs ------------------------------------------------------------------------

  /** A call on the metered writer. */
  datatype Op = PlainWrite(data: seq<byte>) | FullWrite(data: seq<byte>)

  function TakenBy(op: Op, accepts: nat -> int, call: nat): (t: Taken)
    ensures t.n <= |op.data|
  {
    if op.PlainWrite? then TakenOnce(op.data, accepts, call) else TakenFully(op.data, accepts, call)
  }

  /** The number of the call an operation starts with. */
  function CallsBefore(ops: seq<Op>, accepts: nat -> int): nat {
    if ops == [] then 0
    else TakenBy(ops[|ops| - 1], accepts, CallsBefore(ops[..|ops| - 1], accepts)).next
  }

  /** What the k-th operation of a run takes. */
  function TakenAt(ops: seq<Op>, accepts: nat -> int, k: nat): (t: Taken)
    requires k < |ops|
    ensures t.n <= |ops[k].data|
  {
    TakenBy(ops[k], accepts, CallsBefore(ops[..k], accepts))
  }

  /** What a run forwards. */
  function Forwarded(ops: seq<Op>, accepts: nat -> int): seq<byte> {
    if ops == [] then []
    else
      var k := |ops| - 1;
      Forwarded(ops[..k], accepts) + ops[k].data[..TakenAt(ops, accepts, k).n]
  }

  /** A full write that was taken in part. */
  predicate Torn(ops: seq<Op>, accepts: nat -> int, k: nat)
    requires k < |ops|
  {
    ops[k].FullWrite? && 0 < TakenAt(ops, accepts, k).n < |ops[k].data|
  }

  /** What a run absorbs: a torn write counts for nothing. */
  function Absorbed(ops: seq<Op>, accepts: nat -> int): seq<byte> {
    if ops == [] then []
    else
      var k := |ops| - 1;
      Absorbed(ops[..k], accepts) + if Torn(ops, accepts, k) then [] else ops[k].data[..TakenAt(ops, accepts, k).n]
  }

  lemma {:induction false} SameAt(ops: seq<Op>, accepts: nat -> int, k: nat, n: nat)
    requires k < n <= |ops|
    ensures TakenAt(ops[..n], accepts, k) == TakenAt(ops, accepts, k)
    ensures Torn(ops[..n], accepts, k) == Torn(ops, accepts, k)
  {
    assert ops[..n][..k] == ops[..k];
  }

  /** Everything forwarded is absorbed exactly when no full write was torn; otherwise fewer bytes are, for good. */
  lemma {:induction false} InStepUnlessTorn(ops: seq<Op>, accepts: nat -> int)
    ensures Absorbed(ops, accepts) == Forwarded(ops, accepts) <==> forall k: nat :: k < |ops| ==> !Torn(ops, accepts, k)
    ensures |Absorbed(ops, accepts)| <= |Forwarded(ops, accepts)|
    ensures (exists k: nat :: k < |ops| && Torn(ops, accepts, k))
            ==> |Absorbed(ops, accepts)| < |Forwarded(ops, accepts)|
  {
    hide Torn, TakenAt;
    if ops != [] {
      var n := |ops| - 1;
      InStepUnlessTorn(ops[..n], accepts);
      forall k: nat | k < n
        ensures Torn(ops[..n], accepts, k) == Torn(ops, accepts, k)
      {
        SameAt(ops, accepts, k, n);
      }
      TornTakesSome(ops, accepts, n);
    }
  }

  lemma {:induction false} TornTakesSome(ops: seq<Op>, accepts: nat -> int, k: nat)
    requires k < |ops|
    ensures Torn(ops, accepts, k) ==> TakenAt(ops, accepts, k).n > 0
  {
  }

  /** A writer that takes something on every call tears nothing, however little it takes. */
  lemma {:induction false} SteadyWriterTearsNothing(ops: seq<Op>, accepts: nat -> int, k: nat)
    requires k < |ops| && forall call: nat :: accepts(call) > 0
    ensures !Torn(ops, accepts, k)
    ensures ops[k].FullWrite? ==> TakenAt(ops, accepts, k).n == |ops[k].data|
  {
    if ops[k].FullWrite? {
      TakesEverything(ops[k].data, accepts, CallsBefore(ops[..k], accepts));
    }
  }

  lemma {:induction false} TakesEverything(data: seq<byte>, accepts: nat -> int, call: nat)
    requires forall c: nat :: accepts(c) > 0
    ensures TakenFully(data, accepts, call).ok
    decreases |data|
  {
    if data != [] {
      TakesEverything(data[Least(accepts(call), |data|)..], accepts, call + 1);
    }
  }

  function DataOf(ops: seq<Op>): seq<seq<byte>> {
    seq(|ops|, i requires 0 <= i < |ops| => ops[i].data)
  }

  /** With room for everything on every call, everything is forwarded. */
  lemma {:induction false} RoomyWriterForwardsAll(ops: seq<Op>, accepts: nat -> int, room: nat)
    requires room >= |Concat(DataOf(ops))| && forall call: nat :: accepts(call) >= room
    ensures Forwarded(ops, accepts) == Concat(DataOf(ops))
  {
    hide TakenAt, TakenBy;
    if ops != [] {
      var n := |ops| - 1;
      assert DataOf(ops) == DataOf(ops[..n]) + [ops[n].data];
      ConcatSnoc(DataOf(ops[..n]), ops[n].data);
      RoomyWriterForwardsAll(ops[..n], accepts, room);
      TakesItAll(ops, accepts, n, room);
    }
  }

  lemma {:induction false} TakesItAll(ops: seq<Op>, accepts: nat -> int, k: nat, room: nat)
    requires k < |ops| && |ops[k].data| <= room && forall call: nat :: accepts(call) >= room
    ensures TakenAt(ops, accepts, k).n == |ops[k].data|
  {
    var call := CallsBefore(ops[..k], accepts);
    if ops[k].FullWrite? && ops[k].data != [] {
      assert ops[k].data[|ops[k].data|..] == [];
      assert TakenFully([], accepts, call + 1) == Taken(0, call + 1, true);
    }
  }

  /**
   Any sequence of both kinds of write on a writer that may take each in part or refuse it. What is forwarded and what
   is absorbed follow from the operations alone, and the meter ends with the last usage found by cutting all that was
   absorbed at once. That is all that was forwarded exactly when no full write was taken in part.
   */
  method MeterWrites(ops: seq<Op>, accepts: nat -> int, usageOf: UsageReader)
    returns (forwarded: seq<byte>, usage: Option<Usage>)
    ensures forwarded == Forwarded(ops, accepts)
    ensures usage == LastUsage(CutEvents(Absorbed(ops, accepts)).events, usageOf)
    ensures (forall k: nat :: k < |ops| ==> !Torn(ops, accepts, k))
            ==> usage == LastUsage(CutEvents(forwarded).events, usageOf)
  {
    hide CutEvents, LastUsage, FindEventEnd, TakenOnce, TakenFully, Torn;
    var inner := new Inner(accepts);
    var acc := new SseUsageAccumulator(inner, usageOf);
    for k := 0 to |ops|
      invariant acc.Valid() && fresh(acc) && fresh(inner) && acc.inner == inner && acc.usageOf == usageOf
      invariant inner.accepts == accepts && inner.calls == CallsBefore(ops[..k], accepts)
      invariant inner.bytes == Forwarded(ops[..k], accepts) && acc.absorbed == Absorbed(ops[..k], accepts)
    {
      OneMoreOp(ops, accepts, k);
      match ops[k] {
        case PlainWrite(data) =>
          var n := acc.Write(data);
        case FullWrite(data) =>
          var ok := acc.WriteAll(data);
      }
    }
    assert ops[..|ops|] == ops;
    InStepUnlessTorn(ops, accepts);
    forwarded := inner.bytes;
    usage := if acc.sawUsage then Some(Usage(acc.promptTokens, acc.completionTokens)) else None;
  }

  lemma {:induction false} OneMoreOp(ops: seq<Op>, accepts: nat -> int, k: nat)
    requires k < |ops|
    ensures var before, after := ops[..k], ops[..k + 1];
            var t := TakenBy(ops[k], accepts, CallsBefore(before, accepts));
            && CallsBefore(after, accepts) == t.next
            && Forwarded(after, accepts) == Forwarded(before, accepts) + ops[k].data[..t.n]
            && (ops[k].PlainWrite? ==> Absorbed(after, accepts) == Absorbed(before, accepts) + ops[k].data[..t.n])
            && (ops[k].FullWrite? ==>
                  Absorbed(after, accepts) == Absorbed(before, accepts) + if t.ok then ops[k].data else [])
  {
    hide TakenOnce, TakenFully;
    var after := ops[..k + 1];
    assert after[..k] == ops[..k] && after[k] == ops[k];
    assert ops[k].data[..|ops[k].data|] == ops[k].data;
  }

  /** A writer that takes `n` bytes on its first call and then fails. */
  function TakesThenFails(n: nat): nat -> int {
    (call: nat) => if call == 0 then n else -1
  }

  /**
   A full write of any event that reports usage and one byte more, refused after the event: the client was sent the
   event, and the meter saw nothing.
   */
  lemma {:induction false} TornWriteLosesUsage(usageOf: UsageReader, event: seq<byte>, last: byte)
    requires IsEvent(event) && usageOf(event).Some?
    ensures var ops, accepts := [FullWrite(event + [last])], TakesThenFails(|event|);
            && Torn(ops, accepts, 0)
            && LastUsage(CutEvents(Forwarded(ops, accepts)).events, usageOf) == usageOf(event)
            && LastUsage(CutEvents(Absorbed(ops, accepts)).events, usageOf) == None
  {
    hide FindEventEnd;
    var data, accepts := event + [last], TakesThenFails(|event|);
    var ops := [FullWrite(data)];
    assert |event| >= 2;
    assert ops[..0] == [] && data[|event|..] == [last] && data[..|event|] == event;
    assert TakenFully([last], accepts, 1) == Taken(0, 2, false);
    assert TakenAt(ops, accepts, 0) == Taken(|event|, 2, false);
    assert Forwarded(ops, accepts) == event && Absorbed(ops, accepts) == [];
    hide Forwarded, Absorbed, TakenFully;
    OneEvent(event);
    assert FindEventEnd([]).None?;
    NoEvent([], []);
    assert LastUsage([event], usageOf) == usageOf(event);
  }

  lemma {:induction false} OneEvent(event: seq<byte>)
    requires IsEvent(event)
    ensures CutEvents(event) == Cut([event], [])
  {
    hide FindEventEnd;
    CutFirst(event, |event|);
    assert event[|event|..] == [] && event[..|event|] == event;
    NoEvent([], []);
  }
}
