/**
 Replay nonces of the ACME client (section 6.5 of RFC 8555): every order keeps the nonce of its last response
 and gives it up when it sends the next request; without one, a fresh nonce is fetched first. Requests of all
 orders of an account interleave freely and any of them may fail at any point.

 A nonce is identified by the number of the server response it came in; `issued` holds the values, which the
 server chooses.
 */
module AcmeNonce {
  import opened Prelude

  /** What a request is for, hence where the nonce of its response goes. */
  datatype Purpose = ForOrder(order: nat) | OpensOrder(order: nat) | KeepsNothing

  /** A request under way: before it is sent it may hold a nonce; after that it waits for the response. */
  datatype Request = Preparing(purpose: Purpose, nonce: Option<nat>) | Waiting(purpose: Purpose)

  datatype State = State(
    issued: seq<string>, orders: map<nat, Option<nat>>, requests: map<nat, Request>, posted: seq<nat>)

  const START := State([], map[], map[], [])

  datatype Action =
    | Begin(r: nat, purpose: Purpose)
    | FetchNonce(r: nat, value: string)              // newNonce answers with a nonce
    | FetchFails(r: nat, unused: Option<string>)     // newNonce fails; a nonce in the answer is not used
    | GiveUp(r: nat)                                 // signing or encoding fails before anything is sent
    | Send(r: nat)
    | Respond(r: nat, nonce: Option<string>, keep: bool)  // keep: an order could be read from the response
    | TransportFails(r: nat)

  predicate CanHappen(s: State, a: Action) {
    match a
    case Begin(r, purpose) =>
      && r !in s.requests
      && (purpose.ForOrder? ==> purpose.order in s.orders)
      && (purpose.OpensOrder? ==> purpose.order !in s.orders)
    case FetchNonce(r, _) => r in s.requests && s.requests[r].Preparing? && s.requests[r].nonce.None?
    case FetchFails(r, _) => r in s.requests && s.requests[r].Preparing? && s.requests[r].nonce.None?
    case GiveUp(r) => r in s.requests && s.requests[r].Preparing?
    case Send(r) => r in s.requests && s.requests[r].Preparing? && s.requests[r].nonce.Some?
    case Respond(r, _, _) => r in s.requests && s.requests[r].Waiting?
    case TransportFails(r) => r in s.requests && s.requests[r].Waiting?
  }

  function Issue(s: State, value: Option<string>): State {
    if value.Some? then s.(issued := s.issued + [value.value]) else s
  }

  /** The number the next issued nonce will have, if there is one. */
  function IssuedAs(s: State, value: Option<string>): Option<nat> {
    if value.Some? then Some(|s.issued|) else None
  }

  function Drop(s: State, r: nat): State {
    s.(requests := s.requests - {r})
  }

  function Happen(s: State, a: Action): State
    requires CanHappen(s, a)
  {
    match a
    case Begin(r, purpose) =>
      if purpose.ForOrder? then
        s.(requests := s.requests[r := Preparing(purpose, s.orders[purpose.order])],
          orders := s.orders[purpose.order := None])
      else s.(requests := s.requests[r := Preparing(purpose, None)])
    case FetchNonce(r, value) =>
      Issue(s, Some(value)).(requests := s.requests[r := s.requests[r].(nonce := Some(|s.issued|))])
    case FetchFails(r, value) => Drop(Issue(s, value), r)
    case GiveUp(r) => Drop(s, r)
    case Send(r) =>
      s.(posted := s.posted + [s.requests[r].nonce.value], requests := s.requests[r := Waiting(s.requests[r].purpose)])
    case Respond(r, value, keep) =>
      var s1 := Drop(Issue(s, value), r);
      var purpose := s.requests[r].purpose;
      if purpose.ForOrder? then s1.(orders := s1.orders[purpose.order := IssuedAs(s, value)])
      else if purpose.OpensOrder? && keep then s1.(orders := s1.orders[purpose.order := IssuedAs(s, value)])
      else s1
    case TransportFails(r) => Drop(s, r)
  }

  function After(s: State, run: seq<Action>): Option<State>
    decreases |run|
  {
    if run == [] then Some(s)
    else if CanHappen(s, run[0]) then After(Happen(s, run[0]), run[1..])
    else None
  }

  ghost predicate Reachable(s: State) {
    exists run :: After(START, run) == Some(s)
  }

  // ---- Where a nonce is ------------------------------------------------------------------

  datatype Place = InOrder(o: nat) | InRequest(r: nat) | Posted(i: nat)

  predicate At(s: State, n: nat, p: Place) {
    match p
    case InOrder(o) => o in s.orders && s.orders[o] == Some(n)
    case InRequest(r) => r in s.requests && s.requests[r].Preparing? && s.requests[r].nonce == Some(n)
    case Posted(i) => i < |s.posted| && s.posted[i] == n
  }

  /** Every nonce held or sent came from a response, and is in one place only. */
  ghost predicate Inv(s: State) {
    && (forall n: nat, p :: At(s, n, p) ==> n < |s.issued|)
    && (forall n: nat, p, q :: At(s, n, p) && At(s, n, q) ==> p == q)
  }

  /** Nonces stay, disappear, or one of them (old or new) is now at `p` and nowhere else. */
  ghost predicate AtMostMoves(s: State, s': State, n: nat, p: Place) {
    forall x: nat, q :: At(s', x, q) ==> if x == n then q == p else At(s, x, q)
  }

  lemma {:induction false} MoveKeepsInv(s: State, s': State, n: nat, p: Place)
    requires Inv(s) && AtMostMoves(s, s', n, p)
    requires |s.issued| <= |s'.issued| && n < |s'.issued|
    ensures Inv(s')
  {
    hide At;
  }

  lemma {:induction false} ShrinkKeepsInv(s: State, s': State)
    requires Inv(s) && (forall x: nat, q :: At(s', x, q) ==> At(s, x, q)) && |s.issued| <= |s'.issued|
    ensures Inv(s')
  {
    hide At;
  }

  lemma {:induction false} HappenKeepsInv(s: State, a: Action)
    requires Inv(s) && CanHappen(s, a)
    ensures Inv(Happen(s, a))
  {
    var s' := Happen(s, a);
    match a {
      case Begin(r, purpose) =>
        if purpose.ForOrder? && s.orders[purpose.order].Some? {
          TakeMoves(s, r, purpose.order);
          assert At(s, s.orders[purpose.order].value, InOrder(purpose.order));
          MoveKeepsInv(s, s', s.orders[purpose.order].value, InRequest(r));
        } else {
          ShrinkKeepsInv(s, s');
        }
      case FetchNonce(r, value) =>
        FetchMoves(s, r, value);
        MoveKeepsInv(s, s', |s.issued|, InRequest(r));
      case Send(r) =>
        SendMoves(s, r);
        assert At(s, s.requests[r].nonce.value, InRequest(r));
        MoveKeepsInv(s, s', s.requests[r].nonce.value, Posted(|s.posted|));
      case Respond(r, value, keep) =>
        var purpose := s.requests[r].purpose;
        if value.Some? && !purpose.KeepsNothing? {
          RespondMoves(s, r, value.value, keep);
          MoveKeepsInv(s, s', |s.issued|, InOrder(purpose.order));
        } else {
          ShrinkKeepsInv(s, s');
        }
      case _ => ShrinkKeepsInv(s, s');
    }
  }

  lemma {:induction false} TakeMoves(s: State, r: nat, o: nat)
    requires Inv(s) && CanHappen(s, Begin(r, ForOrder(o))) && s.orders[o].Some?
    ensures AtMostMoves(s, Happen(s, Begin(r, ForOrder(o))), s.orders[o].value, InRequest(r))
  {
    var n := s.orders[o].value;
    assert At(s, n, InOrder(o));
    var s' := Happen(s, Begin(r, ForOrder(o)));
    forall x: nat, q | At(s', x, q)
      ensures if x == n then q == InRequest(r) else At(s, x, q)
    {
      assert q != InRequest(r) ==> At(s, x, q);
      assert At(s, n, q) ==> q == InOrder(o);
    }
  }

  lemma {:induction false} FetchMoves(s: State, r: nat, value: string)
    requires Inv(s) && CanHappen(s, FetchNonce(r, value))
    ensures AtMostMoves(s, Happen(s, FetchNonce(r, value)), |s.issued|, InRequest(r))
  {
    var s' := Happen(s, FetchNonce(r, value));
    forall x: nat, q | At(s', x, q)
      ensures if x == |s.issued| then q == InRequest(r) else At(s, x, q)
    {
      assert q != InRequest(r) ==> At(s, x, q);
    }
  }

  lemma {:induction false} SendMoves(s: State, r: nat)
    requires Inv(s) && CanHappen(s, Send(r))
    ensures AtMostMoves(s, Happen(s, Send(r)), s.requests[r].nonce.value, Posted(|s.posted|))
  {
    var n := s.requests[r].nonce.value;
    assert At(s, n, InRequest(r));
    var s' := Happen(s, Send(r));
    forall x: nat, q | At(s', x, q)
      ensures if x == n then q == Posted(|s.posted|) else At(s, x, q)
    {
      assert q != Posted(|s.posted|) ==> At(s, x, q);
      assert At(s, n, q) ==> q == InRequest(r);
    }
  }

  lemma {:induction false} RespondMoves(s: State, r: nat, value: string, keep: bool)
    requires Inv(s) && CanHappen(s, Respond(r, Some(value), keep)) && !s.requests[r].purpose.KeepsNothing?
    ensures AtMostMoves(s, Happen(s, Respond(r, Some(value), keep)), |s.issued|, InOrder(s.requests[r].purpose.order))
  {
    var o := s.requests[r].purpose.order;
    var s' := Happen(s, Respond(r, Some(value), keep));
    forall x: nat, q | At(s', x, q)
      ensures if x == |s.issued| then q == InOrder(o) else At(s, x, q)
    {
      assert q != InOrder(o) ==> At(s, x, q);
    }
  }

  lemma {:induction false} RunKeepsInv(s: State, run: seq<Action>)
    requires Inv(s) && After(s, run).Some?
    ensures Inv(After(s, run).value)
    decreases |run|
  {
    hide Inv, Happen, CanHappen;
    if run != [] {
      HappenKeepsInv(s, run[0]);
      RunKeepsInv(Happen(s, run[0]), run[1..]);
    }
  }

  // ---- No nonce is used twice ------------------------------------------------------------

  predicate PairwiseDistinct(values: seq<string>) {
    forall i, j :: 0 <= i < j < |values| ==> values[i] != values[j]
  }

  /** The value the i-th POST carried. */
  function PostedValue(s: State, i: nat): string
    requires i < |s.posted| && s.posted[i] < |s.issued|
  {
    s.issued[s.posted[i]]
  }

  lemma {:induction false} AlwaysInv(s: State)
    requires Reachable(s)
    ensures Inv(s)
  {
    var run :| After(START, run) == Some(s);
    hide After;
    assert Inv(START);
    RunKeepsInv(START, run);
  }

  /** Every POST carries a nonce that came in a response. */
  lemma {:induction false} NoncesComeFromResponses(s: State, i: nat)
    requires Reachable(s) && i < |s.posted|
    ensures s.posted[i] < |s.issued|
  {
    AlwaysInv(s);
    hide Reachable;
    assert At(s, s.posted[i], Posted(i));
  }

  /**
   No response's nonce is ever sent twice. So when the server's nonces are pairwise distinct, no two POSTs of the
   account carry the same value.
   */
  lemma {:induction false} NoncesAreUsedOnce(s: State, i: nat, j: nat)
    requires Reachable(s) && i < j < |s.posted|
    ensures s.posted[i] < |s.issued| && s.posted[j] < |s.issued| && s.posted[i] != s.posted[j]
    ensures PairwiseDistinct(s.issued) ==> PostedValue(s, i) != PostedValue(s, j)
  {
    AlwaysInv(s);
    hide Reachable;
    assert At(s, s.posted[i], Posted(i)) && At(s, s.posted[j], Posted(j));
  }

  /** Without the server's promise it can fail: a server that repeats a nonce makes two POSTs repeat it. */
  lemma {:induction false} RepeatingServerBreaksIt() returns (s: State)
    ensures Reachable(s) && |s.posted| == 2 && s.posted[0] < |s.issued| && s.posted[1] < |s.issued|
    ensures PostedValue(s, 0) == PostedValue(s, 1) && !PairwiseDistinct(s.issued)
  {
    var run := [
      Begin(0, KeepsNothing), FetchNonce(0, "n"), Send(0),
      Begin(1, KeepsNothing), FetchNonce(1, "n"), Send(1)];
    s := After(START, run).value;
    assert s.issued[0] == s.issued[1];
  }

  // ---- An order's next request carries the nonce of its last response ----------------------

  /** The step takes or replaces the nonce the order keeps. */
  predicate Touches(s: State, a: Action, o: nat) {
    match a
    case Begin(_, purpose) => purpose == ForOrder(o)
    case Respond(r, _, _) =>
      r in s.requests && (s.requests[r].purpose == ForOrder(o) || s.requests[r].purpose == OpensOrder(o))
    case _ => false
  }

  predicate Untouched(s: State, run: seq<Action>, o: nat)
    requires After(s, run).Some?
    decreases |run|
  {
    run == [] || (!Touches(s, run[0], o) && Untouched(Happen(s, run[0]), run[1..], o))
  }

  lemma {:induction false} UntouchedKeeps(s: State, run: seq<Action>, o: nat)
    requires After(s, run).Some? && o in s.orders && Untouched(s, run, o)
    ensures var end := After(s, run).value;
            o in end.orders && end.orders[o] == s.orders[o] && s.issued <= end.issued
    decreases |run|
  {
    if run != [] {
      OneActionKeeps(s, run[0], o);
      hide Happen, CanHappen, Touches;
      UntouchedKeeps(Happen(s, run[0]), run[1..], o);
    }
  }

  lemma {:induction false} OneActionKeeps(s: State, a: Action, o: nat)
    requires CanHappen(s, a) && o in s.orders && !Touches(s, a, o)
    ensures o in Happen(s, a).orders && Happen(s, a).orders[o] == s.orders[o] && s.issued <= Happen(s, a).issued
  {
  }

  /**
   When a response for an order came with a nonce, then whatever other orders do meanwhile, the order's next request is
   sent with that nonce; when it came without one, the next request cannot be sent before it has fetched a nonce, and
   is sent with the one fetched.
   */
  lemma {:induction false} NextRequestUsesLastNonce(
    s: State, r: nat, value: Option<string>, keep: bool, meanwhile: seq<Action>, next: nat, fetched: string)
    requires CanHappen(s, Respond(r, value, keep)) && !s.requests[r].purpose.KeepsNothing?
    requires s.requests[r].purpose.OpensOrder? ==> keep
    requires var s1 := Happen(s, Respond(r, value, keep));
             && After(s1, meanwhile).Some? && Untouched(s1, meanwhile, s.requests[r].purpose.order)
             && CanHappen(After(s1, meanwhile).value, Begin(next, ForOrder(s.requests[r].purpose.order)))
    ensures var s2 := After(Happen(s, Respond(r, value, keep)), meanwhile).value;
            var s3 := Happen(s2, Begin(next, ForOrder(s.requests[r].purpose.order)));
            if value.Some? then
              && CanHappen(s3, Send(next)) && var end := Happen(s3, Send(next));
                 && end.posted == s2.posted + [|s.issued|]
                 && |s.issued| < |end.issued| && end.issued[|s.issued|] == value.value
            else
              && !CanHappen(s3, Send(next)) && CanHappen(s3, FetchNonce(next, fetched))
              && var s4 := Happen(s3, FetchNonce(next, fetched));
                 && CanHappen(s4, Send(next)) && var end := Happen(s4, Send(next));
                    && end.posted == s2.posted + [|s2.issued|]
                    && |s2.issued| < |end.issued| && end.issued[|s2.issued|] == fetched
  {
    hide After, Untouched;
    var s1 := Happen(s, Respond(r, value, keep));
    UntouchedKeeps(s1, meanwhile, s.requests[r].purpose.order);
  }
}
