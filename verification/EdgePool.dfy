/**
 The edge's accept loop: a bounded queue feeding worker threads, and short-lived threads that answer
 429 when the queue is full, limited by a counter taken with compare-and-swap. Every channel, lock and
 atomic operation is one step and steps of all threads interleave freely. Connections are numbered
 in the order they were accepted; what a handler does, and whether it panics, is left open.
 */
module EdgePool {
  import opened Prelude

  type Conn = nat

  datatype Acceptor =
    | Ready
    | Offering(conn: Conn)               // about to try the queue
    | ShedLook(conn: Conn)               // about to load the shed counter
    | ShedSwap(conn: Conn, seen: nat)    // about to compare and swap it
    | ShedSpawn(conn: Conn)              // holds a permit, about to spawn the answering thread
    | Serving(conn: Conn)                // no workers: handled on the accept thread

  datatype Worker = Waiting | Receiving | Busy(conn: Conn)

  datatype Setup = Setup(depth: nat, shedMax: nat, workers: set<nat>)

  datatype State = State(
    accepted: nat, acceptor: Acceptor, queue: seq<Conn>, lock: Option<nat>, workers: map<nat, Worker>,
    shedding: set<Conn>, finishing: nat, counter: nat,
    served: set<Conn>, panicked: set<Conn>, answered: set<Conn>, closed: set<Conn>, dequeued: seq<Conn>)

  function Start(c: Setup): State {
    State(0, Ready, [], None, map w | w in c.workers :: Waiting, {}, 0, 0, {}, {}, {}, {}, [])
  }

  // ---- Steps -----------------------------------------------------------------------------

  datatype Action =
    | Accept
    | Offer
    | LoadShed
    | SwapShed
    | SpawnShed(ok: bool)
    | AnswerShed(conn: Conn, sent: bool)
    | ReleaseShed
    | TakeLock(w: nat)
    | Receive(w: nat)
    | Handled(w: nat, panicked: bool)
    | HandledSerially(panicked: bool)

  predicate CanHappen(s: State, a: Action) {
    match a
    case Accept => s.acceptor == Ready
    case Offer => s.acceptor.Offering?
    case LoadShed => s.acceptor.ShedLook?
    case SwapShed => s.acceptor.ShedSwap?
    case SpawnShed(_) => s.acceptor.ShedSpawn?
    case AnswerShed(c, _) => c in s.shedding
    case ReleaseShed => s.finishing > 0
    case TakeLock(w) => w in s.workers && s.workers[w] == Waiting && s.lock.None?
    case Receive(w) => w in s.workers && s.workers[w] == Receiving && s.queue != []
    case Handled(w, _) => w in s.workers && s.workers[w].Busy?
    case HandledSerially(_) => s.acceptor.Serving?
  }

  function Decrement(n: nat): nat {
    if n == 0 then 0xFFFF_FFFF else n - 1
  }

  function Happen(c: Setup, s: State, a: Action): State
    requires CanHappen(s, a)
  {
    match a
    case Accept =>
      s.(accepted := s.accepted + 1,
         acceptor := if s.workers == map[] then Serving(s.accepted) else Offering(s.accepted))
    case Offer =>
      if |s.queue| < c.depth then s.(queue := s.queue + [s.acceptor.conn], acceptor := Ready)
      else s.(acceptor := ShedLook(s.acceptor.conn))
    case LoadShed =>
      if s.counter >= c.shedMax then s.(closed := s.closed + {s.acceptor.conn}, acceptor := Ready)
      else s.(acceptor := ShedSwap(s.acceptor.conn, s.counter))
    case SwapShed =>
      if s.counter == s.acceptor.seen then s.(counter := s.counter + 1, acceptor := ShedSpawn(s.acceptor.conn))
      else s.(acceptor := ShedLook(s.acceptor.conn))
    case SpawnShed(ok) =>
      if ok then s.(shedding := s.shedding + {s.acceptor.conn}, acceptor := Ready)
      else s.(counter := Decrement(s.counter), closed := s.closed + {s.acceptor.conn}, acceptor := Ready)
    case AnswerShed(conn, sent) =>
      var s1 := s.(shedding := s.shedding - {conn}, finishing := s.finishing + 1);
      if sent then s1.(answered := s1.answered + {conn}) else s1.(closed := s1.closed + {conn})
    case ReleaseShed => s.(finishing := s.finishing - 1, counter := Decrement(s.counter))
    case TakeLock(w) => s.(lock := Some(w), workers := s.workers[w := Receiving])
    case Receive(w) =>
      s.(queue := s.queue[1..], lock := None, workers := s.workers[w := Busy(s.queue[0])],
         dequeued := s.dequeued + [s.queue[0]])
    case Handled(w, panicked) =>
      var conn := s.workers[w].conn;
      var s1 := s.(workers := s.workers[w := Waiting]);
      if panicked then s1.(panicked := s1.panicked + {conn}) else s1.(served := s1.served + {conn})
    case HandledSerially(panicked) =>
      var conn := s.acceptor.conn;
      var s1 := s.(acceptor := Ready);
      if panicked then s1.(panicked := s1.panicked + {conn}) else s1.(served := s1.served + {conn})
  }

  function After(c: Setup, s: State, run: seq<Action>): Option<State>
    decreases |run|
  {
    if run == [] then Some(s)
    else if CanHappen(s, run[0]) then After(c, Happen(c, s, run[0]), run[1..])
    else None
  }

  ghost predicate Reachable(c: Setup, s: State) {
    exists run :: After(c, Start(c), run) == Some(s)
  }

  // ---- Where a connection is -------------------------------------------------------------

  datatype Place = AtAcceptor | InQueue | AtWorker(w: nat) | AtShedThread | Served | Panicked | Answered429 | Closed

  predicate At(s: State, c: Conn, p: Place) {
    match p
    case AtAcceptor => !s.acceptor.Ready? && s.acceptor.conn == c
    case InQueue => c in s.queue
    case AtWorker(w) => w in s.workers && s.workers[w] == Busy(c)
    case AtShedThread => c in s.shedding
    case Served => c in s.served
    case Panicked => c in s.panicked
    case Answered429 => c in s.answered
    case Closed => c in s.closed
  }

  /** Every accepted connection is in exactly one place, and nothing else is anywhere. */
  ghost predicate ExactlyOnePlace(s: State) {
    && (forall c: Conn, p :: At(s, c, p) ==> c < s.accepted)
    && (forall c: Conn, p, q :: At(s, c, p) && At(s, c, q) ==> p == q)
    && (forall c: Conn :: c < s.accepted ==> Somewhere(s, c))
  }

  ghost predicate Somewhere(s: State, c: Conn) {
    exists p :: At(s, c, p)
  }

  /** One connection moved; all others stay where they are. */
  ghost predicate Moves(s: State, s': State, c: Conn, p: Place) {
    forall x: Conn, q :: At(s', x, q) <==> if x == c then q == p else At(s, x, q)
  }

  ghost predicate NobodyMoves(s: State, s': State) {
    forall x: Conn, q :: At(s', x, q) <==> At(s, x, q)
  }

  lemma {:induction false} MoveKeepsPlaces(s: State, s': State, c: Conn, p: Place)
    requires ExactlyOnePlace(s) && Moves(s, s', c, p) && c < s'.accepted
    requires s'.accepted == s.accepted || (s'.accepted == s.accepted + 1 && c == s.accepted)
    ensures ExactlyOnePlace(s')
  {
    hide At;
    forall x: Conn | x < s'.accepted
      ensures Somewhere(s', x)
    {
      if x == c {
        assert At(s', c, p);
      } else {
        assert Somewhere(s, x);
        var q :| At(s, x, q);
        assert At(s', x, q);
      }
    }
  }

  lemma {:induction false} StayKeepsPlaces(s: State, s': State)
    requires ExactlyOnePlace(s) && NobodyMoves(s, s') && s'.accepted == s.accepted
    ensures ExactlyOnePlace(s')
  {
    hide At;
    forall x: Conn | x < s'.accepted
      ensures Somewhere(s', x)
    {
      assert Somewhere(s, x);
      var q :| At(s, x, q);
      assert At(s', x, q);
    }
  }

  // ---- The invariant ---------------------------------------------------------------------

  ghost predicate Increasing(cs: seq<Conn>) {
    forall i, j :: 0 <= i < j < |cs| ==> cs[i] < cs[j]
  }

  /** Connections reach workers in accept order; the queue holds later ones in order; the acceptor holds the newest. */
  ghost predicate InOrder(c: Setup, s: State) {
    && Increasing(s.dequeued + s.queue)
    && (forall i :: 0 <= i < |s.dequeued + s.queue| ==> (s.dequeued + s.queue)[i] < s.accepted)
    && (!s.acceptor.Ready? ==>
          && s.acceptor.conn + 1 == s.accepted
          && forall i :: 0 <= i < |s.dequeued + s.queue| ==> (s.dequeued + s.queue)[i] < s.acceptor.conn)
    && |s.queue| <= c.depth
  }

  /** Threads holding a shed permit. */
  function Permits(s: State): nat {
    |s.shedding| + s.finishing + if s.acceptor.ShedSpawn? then 1 else 0
  }

  ghost predicate CounterOk(c: Setup, s: State) {
    && s.counter == Permits(s) <= c.shedMax
    && (s.acceptor.ShedSwap? ==> s.acceptor.seen < c.shedMax)
  }

  ghost predicate LockOk(c: Setup, s: State) {
    && s.workers.Keys == c.workers
    && (forall w :: w in s.workers ==> (s.workers[w] == Receiving <==> s.lock == Some(w)))
    && (s.lock.Some? ==> s.lock.value in s.workers)
  }

  ghost predicate Inv(c: Setup, s: State) {
    ExactlyOnePlace(s) && InOrder(c, s) && CounterOk(c, s) && LockOk(c, s)
  }

  // ---- Each part is kept by every step ---------------------------------------------------

  lemma {:induction false} PlacesKept(c: Setup, s: State, a: Action)
    requires Inv(c, s) && CanHappen(s, a)
    ensures ExactlyOnePlace(Happen(c, s, a))
  {
    var s' := Happen(c, s, a);
    match a {
      case AnswerShed(conn, sent) =>
        assert At(s, conn, AtShedThread);
        ShedAnswerMoves(c, s, conn, sent);
        MoveKeepsPlaces(s, s', conn, if sent then Answered429 else Closed);
      case Receive(w) =>
        assert At(s, s.queue[0], InQueue);
        ReceiveMoves(c, s, w);
        MoveKeepsPlaces(s, s', s.queue[0], AtWorker(w));
      case Handled(w, panicked) =>
        var conn := s.workers[w].conn;
        assert At(s, conn, AtWorker(w));
        HandledMoves(c, s, w, panicked);
        MoveKeepsPlaces(s, s', conn, if panicked then Panicked else Served);
      case ReleaseShed => StayKeepsPlaces(s, s');
      case TakeLock(w) => StayKeepsPlaces(s, s');
      case Accept =>
        AcceptMoves(c, s);
        MoveKeepsPlaces(s, s', s.accepted, AtAcceptor);
      case _ => AcceptorPlacesKept(c, s, a);
    }
  }

  lemma {:induction false} AcceptorPlacesKept(c: Setup, s: State, a: Action)
    requires Inv(c, s) && CanHappen(s, a)
    requires a.Offer? || a.LoadShed? || a.SwapShed? || a.SpawnShed? || a.HandledSerially?
    ensures ExactlyOnePlace(Happen(c, s, a))
  {
    var s' := Happen(c, s, a);
    var conn := s.acceptor.conn;
    assert At(s, conn, AtAcceptor);
    if !s'.acceptor.Ready? {
      StayKeepsPlaces(s, s');
    } else {
      var p :=
        match a
        case Offer => InQueue
        case LoadShed => Closed
        case SpawnShed(ok) => if ok then AtShedThread else Closed
        case HandledSerially(panicked) => if panicked then Panicked else Served
        case _ => Closed;
      LeavesAcceptor(c, s, a, p);
      MoveKeepsPlaces(s, s', conn, p);
    }
  }

  lemma {:induction false} LeavesAcceptor(c: Setup, s: State, a: Action, p: Place)
    requires ExactlyOnePlace(s) && CanHappen(s, a)
    requires a.Offer? || a.LoadShed? || a.SpawnShed? || a.HandledSerially?
    requires Happen(c, s, a).acceptor.Ready?
    requires p == match a
                  case Offer => InQueue
                  case LoadShed => Closed
                  case SpawnShed(ok) => if ok then AtShedThread else Closed
                  case HandledSerially(panicked) => if panicked then Panicked else Served
                  case _ => Closed
    ensures Moves(s, Happen(c, s, a), s.acceptor.conn, p)
  {
    assert At(s, s.acceptor.conn, AtAcceptor);
    var s' := Happen(c, s, a);
    forall x: Conn, q
      ensures At(s', x, q) <==> if x == s.acceptor.conn then q == p else At(s, x, q)
    {
      assert x == s.acceptor.conn && At(s, x, q) ==> q == AtAcceptor;
      match q {
        case AtWorker(v) =>
        case _ =>
      }
    }
  }

  lemma {:induction false} AcceptMoves(c: Setup, s: State)
    requires ExactlyOnePlace(s) && s.acceptor == Ready
    ensures Moves(s, Happen(c, s, Accept), s.accepted, AtAcceptor)
  {
    var s' := Happen(c, s, Accept);
    forall x: Conn, q
      ensures At(s', x, q) <==> if x == s.accepted then q == AtAcceptor else At(s, x, q)
    {
      assert !At(s, s.accepted, q);
      match q {
        case AtWorker(v) =>
        case _ =>
      }
    }
  }

  lemma {:induction false} ShedAnswerMoves(c: Setup, s: State, conn: Conn, sent: bool)
    requires ExactlyOnePlace(s) && conn in s.shedding
    ensures Moves(s, Happen(c, s, AnswerShed(conn, sent)), conn, if sent then Answered429 else Closed)
  {
    assert At(s, conn, AtShedThread);
    var s' := Happen(c, s, AnswerShed(conn, sent));
    forall x: Conn, q
      ensures At(s', x, q) <==> if x == conn then q == (if sent then Answered429 else Closed) else At(s, x, q)
    {
      assert x == conn && At(s, x, q) ==> q == AtShedThread;
      match q {
        case AtWorker(v) =>
        case _ =>
      }
    }
  }

  lemma {:induction false} ReceiveMoves(c: Setup, s: State, w: nat)
    requires ExactlyOnePlace(s) && InOrder(c, s) && CanHappen(s, Receive(w))
    ensures Moves(s, Happen(c, s, Receive(w)), s.queue[0], AtWorker(w))
  {
    var conn := s.queue[0];
    assert At(s, conn, InQueue);
    QueueHasNoRepeats(c, s);
    var s' := Happen(c, s, Receive(w));
    forall x: Conn, q
      ensures At(s', x, q) <==> if x == conn then q == AtWorker(w) else At(s, x, q)
    {
      assert x == conn && At(s, x, q) ==> q == InQueue;
      match q {
        case AtWorker(v) =>
        case _ =>
      }
    }
  }

  lemma {:induction false} QueueHasNoRepeats(c: Setup, s: State)
    requires InOrder(c, s) && s.queue != []
    ensures s.queue[0] !in s.queue[1..]
    ensures forall x :: x in s.queue[1..] <==> x in s.queue && x != s.queue[0]
  {
    var all, n := s.dequeued + s.queue, |s.dequeued|;
    assert forall i :: 0 <= i < |s.queue| ==> s.queue[i] == all[n + i];
    assert forall i :: 1 <= i < |s.queue| ==> s.queue[0] < s.queue[i];
  }

  lemma {:induction false} HandledMoves(c: Setup, s: State, w: nat, panicked: bool)
    requires ExactlyOnePlace(s) && CanHappen(s, Handled(w, panicked))
    ensures Moves(s, Happen(c, s, Handled(w, panicked)), s.workers[w].conn, if panicked then Panicked else Served)
  {
    var conn := s.workers[w].conn;
    assert At(s, conn, AtWorker(w));
    var s' := Happen(c, s, Handled(w, panicked));
    forall x: Conn, q
      ensures At(s', x, q) <==> if x == conn then q == (if panicked then Panicked else Served) else At(s, x, q)
    {
      assert x == conn && At(s, x, q) ==> q == AtWorker(w);
      match q {
        case AtWorker(v) =>
        case _ =>
      }
    }
  }

  lemma {:induction false} OrderKept(c: Setup, s: State, a: Action)
    requires Inv(c, s) && CanHappen(s, a)
    ensures InOrder(c, Happen(c, s, a))
  {
    hide ExactlyOnePlace, CounterOk, LockOk;
    var s' := Happen(c, s, a);
    if a.Receive? {
      ReceiveKeepsOrder(c, s, a.w);
    } else if a.Offer? && |s.queue| < c.depth {
      assert s'.dequeued + s'.queue == s.dequeued + s.queue + [s.acceptor.conn];
    } else {
      assert s'.dequeued + s'.queue == s.dequeued + s.queue;
      hide Increasing;
    }
  }

  lemma {:induction false} ReceiveKeepsOrder(c: Setup, s: State, w: nat)
    requires InOrder(c, s) && CanHappen(s, Receive(w))
    ensures InOrder(c, Happen(c, s, Receive(w)))
  {
    hide Increasing;
    var s' := Happen(c, s, Receive(w));
    assert s'.dequeued + s'.queue == s.dequeued + s.queue;
  }

  lemma {:induction false} CounterKept(c: Setup, s: State, a: Action)
    requires Inv(c, s) && CanHappen(s, a)
    ensures CounterOk(c, Happen(c, s, a))
  {
    if a.SpawnShed? {
      assert At(s, s.acceptor.conn, AtAcceptor);
      assert !At(s, s.acceptor.conn, AtShedThread);
      SpawnKeepsCounter(c, s, a.ok);
    } else if a.AnswerShed? {
      AnswerKeepsCounter(c, s, a.conn, a.sent);
    } else {
      hide ExactlyOnePlace, InOrder, LockOk;
    }
  }

  lemma {:induction false} SpawnKeepsCounter(c: Setup, s: State, ok: bool)
    requires CounterOk(c, s) && s.acceptor.ShedSpawn? && s.acceptor.conn !in s.shedding
    ensures CounterOk(c, Happen(c, s, SpawnShed(ok)))
  {
    assert |s.shedding + {s.acceptor.conn}| == |s.shedding| + 1;
  }

  lemma {:induction false} AnswerKeepsCounter(c: Setup, s: State, conn: Conn, sent: bool)
    requires CounterOk(c, s) && conn in s.shedding
    ensures CounterOk(c, Happen(c, s, AnswerShed(conn, sent)))
  {
    assert |s.shedding - {conn}| == |s.shedding| - 1;
  }

  lemma {:induction false} LockKept(c: Setup, s: State, a: Action)
    requires Inv(c, s) && CanHappen(s, a)
    ensures LockOk(c, Happen(c, s, a))
  {
    hide ExactlyOnePlace, InOrder, CounterOk;
  }

  lemma {:induction false} RunKeepsInv(c: Setup, s: State, run: seq<Action>)
    requires Inv(c, s) && After(c, s, run).Some?
    ensures Inv(c, After(c, s, run).value)
    decreases |run|
  {
    hide ExactlyOnePlace, InOrder, CounterOk, LockOk, Happen, CanHappen;
    if run != [] {
      PlacesKept(c, s, run[0]);
      OrderKept(c, s, run[0]);
      CounterKept(c, s, run[0]);
      LockKept(c, s, run[0]);
      RunKeepsInv(c, Happen(c, s, run[0]), run[1..]);
    }
  }

  lemma {:induction false} AlwaysInv(c: Setup, s: State)
    requires Reachable(c, s)
    ensures Inv(c, s)
  {
    var run :| After(c, Start(c), run) == Some(s);
    hide After;
    assert Inv(c, Start(c));
    RunKeepsInv(c, Start(c), run);
  }

  // ---- What every run guarantees ---------------------------------------------------------

  /** Conservation: in every reachable state each accepted connection is in exactly one place. */
  lemma {:induction false} NoConnectionLostOrDoubled(c: Setup, s: State, conn: Conn)
    requires Reachable(c, s)
    ensures conn < s.accepted ==> Somewhere(s, conn)
    ensures forall p, q :: At(s, conn, p) && At(s, conn, q) ==> p == q && conn < s.accepted
  {
    AlwaysInv(c, s);
    hide Reachable, At;
  }

  /** The queue never exceeds its depth, and workers get connections strictly in accept order. */
  lemma {:induction false} FirstComeFirstServed(c: Setup, s: State)
    requires Reachable(c, s)
    ensures |s.queue| <= c.depth && Increasing(s.dequeued) && Increasing(s.queue)
    ensures forall i, j :: 0 <= i < |s.dequeued| && 0 <= j < |s.queue| ==> s.dequeued[i] < s.queue[j]
  {
    AlwaysInv(c, s);
    hide Reachable, ExactlyOnePlace;
    var all, n := s.dequeued + s.queue, |s.dequeued|;
    assert forall i :: 0 <= i < n ==> all[i] == s.dequeued[i];
    assert forall j :: 0 <= j < |s.queue| ==> all[n + j] == s.queue[j];
  }

  /** The shed counter is the number of live permits and never exceeds its maximum, nor ever wraps. */
  lemma {:induction false} ShedCounterIsExact(c: Setup, s: State)
    requires Reachable(c, s)
    ensures s.counter == Permits(s) && s.counter <= c.shedMax
  {
    AlwaysInv(c, s);
    hide Reachable, ExactlyOnePlace;
  }

  /** No worker is ever lost, panicking handlers included, and at most one of them is receiving. */
  lemma {:induction false} WorkersSurvive(c: Setup, s: State)
    requires Reachable(c, s)
    ensures s.workers.Keys == c.workers
    ensures forall w, v ::
              w in s.workers && v in s.workers && s.workers[w] == Receiving && s.workers[v] == Receiving ==> w == v
  {
    AlwaysInv(c, s);
    hide Reachable, ExactlyOnePlace;
  }

  /** With a connection queued and some worker not busy, some worker can move: the pool never wedges. */
  lemma {:induction false} PoolNeverWedges(c: Setup, s: State, idle: nat) returns (next: Action)
    requires Reachable(c, s) && s.queue != [] && idle in s.workers && !s.workers[idle].Busy?
    ensures CanHappen(s, next) && (next.TakeLock? || next.Receive?)
  {
    AlwaysInv(c, s);
    hide Reachable, ExactlyOnePlace;
    next := if s.lock.Some? then Receive(s.lock.value) else TakeLock(idle);
  }

  /** Refusal needs a full queue: a connection offered to a queue with room is queued. */
  lemma {:induction false} ShedsOnlyWhenFull(c: Setup, s: State)
    requires Reachable(c, s) && s.acceptor.Offering?
    ensures At(Happen(c, s, Offer), s.acceptor.conn, InQueue) <==> |s.queue| < c.depth
  {
    AlwaysInv(c, s);
    hide Reachable;
    assert At(s, s.acceptor.conn, AtAcceptor);
    assert !At(s, s.acceptor.conn, InQueue);
  }

  // ---- Why a connection was refused --------------------------------------------------------

  lemma {:induction false} OneMoreAction(c: Setup, s: State, run: seq<Action>, a: Action)
    ensures After(c, s, run + [a]) ==
            if After(c, s, run).Some? && CanHappen(After(c, s, run).value, a)
            then Some(Happen(c, After(c, s, run).value, a)) else None
    decreases |run|
  {
    hide Happen, CanHappen;
    if run == [] {
      assert ([] + [a])[1..] == [];
    } else {
      assert (run + [a])[0] == run[0] && (run + [a])[1..] == run[1..] + [a];
      if CanHappen(s, run[0]) {
        OneMoreAction(c, Happen(c, s, run[0]), run[1..], a);
      }
    }
  }

  /** The step ends the connection without an answer: no permit was free, no thread started, or the answer failed. */
  predicate Closes(c: Setup, s: State, a: Action, conn: Conn) {
    match a
    case LoadShed => s.acceptor == ShedLook(conn) && Permits(s) == c.shedMax
    case SpawnShed(ok) => s.acceptor == ShedSpawn(conn) && !ok
    case AnswerShed(x, sent) => x == conn && !sent
    case _ => false
  }

  /** The step starts refusing the connection: it was offered to a full queue. */
  predicate Refuses(c: Setup, s: State, a: Action, conn: Conn) {
    a == Offer && s.acceptor == Offering(conn) && |s.queue| == c.depth
  }

  predicate BeingRefused(s: State, conn: Conn) {
    || conn in s.shedding || conn in s.answered || conn in s.closed
    || ((s.acceptor.ShedLook? || s.acceptor.ShedSwap? || s.acceptor.ShedSpawn?) && s.acceptor.conn == conn)
  }

  lemma {:induction false} LastStepRefuses(c: Setup, s: State, a: Action, conn: Conn)
    requires Inv(c, s) && CanHappen(s, a)
    ensures BeingRefused(Happen(c, s, a), conn) && !BeingRefused(s, conn) ==> Refuses(c, s, a, conn)
  {
    hide ExactlyOnePlace, LockOk, CounterOk, Increasing;
  }

  lemma {:induction false} LastStepCloses(c: Setup, s: State, a: Action, conn: Conn)
    requires Inv(c, s) && CanHappen(s, a)
    ensures conn in Happen(c, s, a).closed && conn !in s.closed ==> Closes(c, s, a, conn)
  {
    hide ExactlyOnePlace, LockOk, InOrder;
  }

  /** In every run, a connection closed without an answer was closed by such a step. */
  lemma {:induction false} ClosedForAReason(c: Setup, run: seq<Action>, conn: Conn) returns (i: nat)
    requires After(c, Start(c), run).Some? && conn in After(c, Start(c), run).value.closed
    ensures i < |run| && After(c, Start(c), run[..i]).Some?
    ensures Closes(c, After(c, Start(c), run[..i]).value, run[i], conn)
    decreases |run|
  {
    hide After, Happen, CanHappen, Closes, BeingRefused, Refuses;
    if run == [] {
      NothingYet(c);
    } else {
      var n := |run| - 1;
      var s := LastStep(c, run);
      if conn in s.closed {
        i := ClosedForAReason(c, run[..n], conn);
        assert run[..n][..i] == run[..i];
      } else {
        i := n;
        LastStepCloses(c, s, run[n], conn);
      }
    }
  }

  /** In every run, a connection that is answered 429, closed, or on its way there was offered to a full queue. */
  lemma {:induction false} RefusedWhenFull(c: Setup, run: seq<Action>, conn: Conn) returns (i: nat)
    requires After(c, Start(c), run).Some? && BeingRefused(After(c, Start(c), run).value, conn)
    ensures i < |run| && After(c, Start(c), run[..i]).Some?
    ensures Refuses(c, After(c, Start(c), run[..i]).value, run[i], conn)
    decreases |run|
  {
    hide After, Happen, CanHappen, Closes, BeingRefused, Refuses;
    if run == [] {
      NothingYet(c);
    } else {
      var n := |run| - 1;
      var s := LastStep(c, run);
      if BeingRefused(s, conn) {
        i := RefusedWhenFull(c, run[..n], conn);
        assert run[..n][..i] == run[..i];
      } else {
        i := n;
        LastStepRefuses(c, s, run[n], conn);
      }
    }
  }

  lemma {:induction false} NothingYet(c: Setup)
    ensures After(c, Start(c), []) == Some(Start(c))
    ensures forall conn :: !BeingRefused(Start(c), conn) && conn !in Start(c).closed
  {
  }

  lemma {:induction false} LastStep(c: Setup, run: seq<Action>) returns (s: State)
    requires run != [] && After(c, Start(c), run).Some?
    ensures var n := |run| - 1;
            && After(c, Start(c), run[..n]) == Some(s) && Inv(c, s) && CanHappen(s, run[n])
            && After(c, Start(c), run).value == Happen(c, s, run[n])
  {
    hide Happen, CanHappen, Inv;
    var n := |run| - 1;
    OneMoreAction(c, Start(c), run[..n], run[n]);
    assert run[..n] + [run[n]] == run;
    s := After(c, Start(c), run[..n]).value;
    assert Reachable(c, s);
    AlwaysInv(c, s);
  }

  /**
   Undisturbed, a connection offered to a full queue gets a thread that answers 429 when a permit is free, and is
   closed when none is; a thread that does not start, or an answer that fails, closes it and frees the permit.
   */
  lemma {:induction false} FullQueueAnswers(c: Setup, s: State, started: bool, sent: bool)
    requires Reachable(c, s) && s.acceptor.Offering? && |s.queue| == c.depth
    ensures Permits(s) == c.shedMax ==>
              var end := After(c, s, [Offer, LoadShed]);
              end.Some? && At(end.value, s.acceptor.conn, Closed) && Permits(end.value) == Permits(s)
    ensures Permits(s) < c.shedMax ==>
              var end := After(c, s, [Offer, LoadShed, SwapShed, SpawnShed(started)]);
              && end.Some? && At(end.value, s.acceptor.conn, if started then AtShedThread else Closed)
              && Permits(end.value) == Permits(s) + if started then 1 else 0
    ensures Permits(s) < c.shedMax && started ==>
              var shed := After(c, s, [Offer, LoadShed, SwapShed, SpawnShed(true)]).value;
              var end := After(c, shed, [AnswerShed(s.acceptor.conn, sent), ReleaseShed]);
              && end.Some? && At(end.value, s.acceptor.conn, if sent then Answered429 else Closed)
              && Permits(end.value) == Permits(s)
  {
    AlwaysInv(c, s);
    hide Reachable, InOrder, LockOk;
    assert At(s, s.acceptor.conn, AtAcceptor);
    assert !At(s, s.acceptor.conn, AtShedThread);
    FullQueueSteps(c, s, started, sent);
  }

  lemma {:induction false} Unfold(c: Setup, s: State, a: Action, more: seq<Action>)
    requires CanHappen(s, a)
    ensures After(c, s, [a] + more) == After(c, Happen(c, s, a), more)
    ensures After(c, Happen(c, s, a), []) == Some(Happen(c, s, a))
  {
    hide CanHappen, Happen;
    assert ([a] + more)[1..] == more;
  }

  lemma {:induction false} FullQueueSteps(c: Setup, s: State, started: bool, sent: bool)
    requires CounterOk(c, s) && s.acceptor.Offering? && |s.queue| == c.depth && s.acceptor.conn !in s.shedding
    ensures Permits(s) == c.shedMax ==>
              After(c, s, [Offer, LoadShed]) == Some(s.(acceptor := Ready, closed := s.closed + {s.acceptor.conn}))
    ensures Permits(s) < c.shedMax ==>
              var conn := s.acceptor.conn;
              var shed := s.(acceptor := Ready, shedding := s.shedding + {conn}, counter := s.counter + 1);
              && After(c, s, [Offer, LoadShed, SwapShed, SpawnShed(started)]) ==
                 Some(if started then shed else s.(acceptor := Ready, closed := s.closed + {conn}))
              && |shed.shedding| == |s.shedding| + 1
              && After(c, shed, [AnswerShed(conn, sent), ReleaseShed]) ==
                 Some(if sent then s.(acceptor := Ready, answered := s.answered + {conn})
                      else s.(acceptor := Ready, closed := s.closed + {conn}))
  {
    hide After;
    var conn := s.acceptor.conn;
    var s1 := s.(acceptor := ShedLook(conn));
    Unfold(c, s, Offer, [LoadShed]);
    Unfold(c, s1, LoadShed, []);
    assert [Offer] + [LoadShed] == [Offer, LoadShed] && [LoadShed] + [] == [LoadShed];
    if Permits(s) < c.shedMax {
      var s2 := s.(acceptor := ShedSwap(conn, s.counter));
      var s3 := s.(acceptor := ShedSpawn(conn), counter := s.counter + 1);
      Unfold(c, s, Offer, [LoadShed, SwapShed, SpawnShed(started)]);
      Unfold(c, s1, LoadShed, [SwapShed, SpawnShed(started)]);
      Unfold(c, s2, SwapShed, [SpawnShed(started)]);
      Unfold(c, s3, SpawnShed(started), []);
      assert [Offer] + [LoadShed, SwapShed, SpawnShed(started)] == [Offer, LoadShed, SwapShed, SpawnShed(started)];
      assert [LoadShed] + [SwapShed, SpawnShed(started)] == [LoadShed, SwapShed, SpawnShed(started)];
      assert [SwapShed] + [SpawnShed(started)] == [SwapShed, SpawnShed(started)];
      assert [SpawnShed(started)] + [] == [SpawnShed(started)];
      ShedThreadSteps(c, s, conn, sent);
    }
  }

  lemma {:induction false} ShedThreadSteps(c: Setup, s: State, conn: Conn, sent: bool)
    requires conn !in s.shedding && s.acceptor.Offering?
    ensures var shed := s.(acceptor := Ready, shedding := s.shedding + {conn}, counter := s.counter + 1);
            && |shed.shedding| == |s.shedding| + 1
            && After(c, shed, [AnswerShed(conn, sent), ReleaseShed]) ==
               Some(if sent then s.(acceptor := Ready, answered := s.answered + {conn})
                    else s.(acceptor := Ready, closed := s.closed + {conn}))
  {
    hide After;
    var shed := s.(acceptor := Ready, shedding := s.shedding + {conn}, counter := s.counter + 1);
    assert s.shedding + {conn} - {conn} == s.shedding;
    var s1 := Happen(c, shed, AnswerShed(conn, sent));
    Unfold(c, shed, AnswerShed(conn, sent), [ReleaseShed]);
    Unfold(c, s1, ReleaseShed, []);
    assert [AnswerShed(conn, sent)] + [ReleaseShed] == [AnswerShed(conn, sent), ReleaseShed];
    assert [ReleaseShed] + [] == [ReleaseShed];
  }

  // ---- Serial mode -------------------------------------------------------------------------

  ghost predicate ModeOk(c: Setup, s: State) {
    && s.workers.Keys == c.workers
    && (s.acceptor.Serving? ==> c.workers == {})
    && (!s.acceptor.Ready? && !s.acceptor.Serving? ==> c.workers != {})
    && (c.workers == {} ==> s.queue == [] && s.dequeued == [] && s.shedding == {} && s.answered == {} && s.closed == {})
  }

  lemma {:induction false} ModeKept(c: Setup, s: State, run: seq<Action>)
    requires ModeOk(c, s) && After(c, s, run).Some?
    ensures ModeOk(c, After(c, s, run).value)
    decreases |run|
  {
    if run != [] {
      OneActionKeepsMode(c, s, run[0]);
      hide Happen, CanHappen, ModeOk;
      ModeKept(c, Happen(c, s, run[0]), run[1..]);
    }
  }

  lemma {:induction false} OneActionKeepsMode(c: Setup, s: State, a: Action)
    requires ModeOk(c, s) && CanHappen(s, a)
    ensures ModeOk(c, Happen(c, s, a))
  {
    assert s.workers == map[] <==> s.workers.Keys == {};
  }

  /**
   Connections are handled on the accept thread exactly when no worker could be started, and then none is ever queued,
   answered 429 or closed unhandled.
   */
  lemma {:induction false} SerialExactlyWithoutWorkers(c: Setup, s: State)
    requires Reachable(c, s) && s.acceptor == Ready
    ensures At(Happen(c, s, Accept), s.accepted, AtAcceptor)
    ensures Happen(c, s, Accept).acceptor.Serving? <==> c.workers == {}
    ensures Happen(c, s, Accept).acceptor.Offering? <==> c.workers != {}
    ensures c.workers == {} ==>
              forall conn, p :: At(s, conn, p) ==> p == Served || p == Panicked
  {
    var run :| After(c, Start(c), run) == Some(s);
    hide After;
    assert ModeOk(c, Start(c));
    ModeKept(c, Start(c), run);
    assert s.workers == map[] <==> s.workers.Keys == {};
  }
}
