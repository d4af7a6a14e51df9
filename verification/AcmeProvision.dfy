/**
 One HTTP-01 provisioning run (sections 7.1.6 and 7.4 of RFC 8555) against any ACME server. The server may answer
 every request as it likes, knowing all that was exchanged before; the exchanges are logged. A response body is given
 by what it reads as. The pauses between attempts are left out.
 */
module AcmeProvision {
  import opened Prelude

  datatype OrderStatus = Pending | Ready | Processing | Valid | Invalid

  datatype OrderState = OrderState(
    status: OrderStatus, authorizations: seq<string>, hasError: bool, finalize: string, certificate: Option<string>)

  datatype AuthorizationStatus = AuthorizationPending | AuthorizationValid | AuthorizationOther

  datatype Challenge = Challenge(isHttp01: bool, url: string, token: string)

  datatype Authorization = Authorization(status: AuthorizationStatus, challenges: seq<Challenge>)

  datatype AcmeError = TransportFailed | BadNewNonce | CannotSign | ApiError
                     | NoOrderUrl | OrderInvalid | UnexpectedOrder
                     | UnexpectedAuthorization | NoHttp01 | SinkFailed | NotReady | BadKey
                     | InvalidOrderState | NoCertificateUrl | NotUtf8 | NoCertificate

  // ---- Exchanges -------------------------------------------------------------------------

  /** What a request is for, and where it goes. */
  datatype Ask =
    | NewNonce
    | NewOrder
    | GetAuthorization(url: string)
    | ChallengeReady(url: string)
    | Refresh(url: string)
    | Finalize(url: string, csr: string)
    | PollOrder(url: string)
    | Download(url: string)

  /** What a body reads as: as JSON of each kind, and as text. */
  datatype Body = Body(
    order: Option<OrderState>, authorization: Option<Authorization>, isChallenge: bool, text: Option<string>)

  datatype Reply = NoReply | Reply(status: nat, nonce: Option<string>, location: Option<string>, body: Body)

  datatype Exchange = Exchange(ask: Ask, nonce: Option<string>, reply: Reply)

  /** An account's way to the server: signing or encoding a request may fail, and the server answers as it likes. */
  class Connection {
    const signs: (seq<Exchange>, Ask, string) -> bool
    const behave: (seq<Exchange>, Ask, Option<string>) -> Reply
    var log: seq<Exchange>

    constructor (signs: (seq<Exchange>, Ask, string) -> bool, behave: (seq<Exchange>, Ask, Option<string>) -> Reply)
      ensures this.signs == signs && this.behave == behave && log == []
    {
      this.signs := signs;
      this.behave := behave;
      log := [];
    }

    method Request(ask: Ask, nonce: Option<string>) returns (reply: Reply)
      modifies this
      ensures log == old(log) + [Exchange(ask, nonce, reply)]
      ensures reply == behave(old(log), ask, nonce)
    {
      reply := behave(log, ask, nonce);
      log := log + [Exchange(ask, nonce, reply)];
    }
  }

  /** The order a reply shows, when the request is one that is answered with an order. */
  function ShownOrder(ask: Ask, reply: Reply): Option<OrderState> {
    if (ask.NewOrder? || ask.Refresh? || ask.Finalize? || ask.PollOrder?) && reply.Reply? && 200 <= reply.status < 300
    then reply.body.order else None
  }

  /** The last order the server has shown. */
  function LastOrder(log: seq<Exchange>): Option<OrderState> {
    if log == [] then None
    else
      var shown := ShownOrder(log[|log| - 1].ask, log[|log| - 1].reply);
      if shown.Some? then shown else LastOrder(log[..|log| - 1])
  }

  /** The POST requests, in order. */
  function Asks(log: seq<Exchange>): seq<Ask> {
    if log == [] then []
    else Asks(log[..|log| - 1]) + if log[|log| - 1].ask == NewNonce then [] else [log[|log| - 1].ask]
  }

  /** The authorizations the server has shown, in order. */
  function ShownAuthorizations(log: seq<Exchange>): seq<Authorization> {
    if log == [] then []
    else ShownAuthorizations(log[..|log| - 1]) + ShownAuthorization(log[|log| - 1].ask, log[|log| - 1].reply)
  }

  function ShownAuthorization(ask: Ask, reply: Reply): seq<Authorization> {
    if ask.GetAuthorization? && reply.Reply? && 200 <= reply.status < 300 && reply.body.authorization.Some?
    then [reply.body.authorization.value] else []
  }

  predicate EndsWith(log: seq<Exchange>, ask: Ask, reply: Reply) {
    log != [] && log[|log| - 1].ask == ask && log[|log| - 1].reply == reply
  }

  // ---- What must hold of every exchange --------------------------------------------------

  predicate ReadyOrValid(order: Option<OrderState>) {
    order.Some? && (order.value.status == Ready || order.value.status == Valid)
  }

  /** Finalizing needs an order last seen ready or valid; downloading one last seen valid and without error. */
  predicate Allowed(log: seq<Exchange>, ask: Ask) {
    var order := LastOrder(log);
    && (ask.Finalize? ==> ReadyOrValid(order) && ask.url == order.value.finalize)
    && (ask.Download? ==>
          && order.Some? && order.value.status == Valid && !order.value.hasError
          && order.value.certificate == Some(ask.url))
  }

  /** The last reply carried this nonce. */
  predicate Carried(log: seq<Exchange>, nonce: Option<string>) {
    log != [] && nonce.Some? && log[|log| - 1].reply.Reply? && log[|log| - 1].reply.nonce == nonce
  }

  /** The reply can be read as what was asked for. */
  predicate Readable(ask: Ask, reply: Reply) {
    && reply.Reply?
    && match ask
       case NewNonce => reply.status == 200 && reply.nonce.Some?
       case GetAuthorization(_) => ShownAuthorization(ask, reply) != []
       case ChallengeReady(_) => 200 <= reply.status < 300 && reply.body.isChallenge
       case Download(_) => 100 <= reply.status <= 399
       case _ => ShownOrder(ask, reply).Some?
  }

  /** The nonce at hand is the last reply's, which was readable; at the start there is none. */
  predicate Continues(log: seq<Exchange>, from: nat, nonce: Option<string>) {
    if |log| <= from then nonce.None?
    else
      var last := log[|log| - 1];
      Readable(last.ask, last.reply) && last.reply.nonce == nonce
  }

  predicate SoundNext(log: seq<Exchange>, from: nat, x: Exchange) {
    if x.ask == NewNonce then x.nonce.None? && Continues(log, from, None)
    else
      && Carried(log, x.nonce) && Continues(log, from, x.nonce)
      && Allowed(log, x.ask)
  }

  /**
   From a point on, a nonce is fetched exactly when the reply just before brought none, every POST carries the nonce of
   the reply just before it and is allowed by the order last shown, and nothing follows a reply that cannot be read.
   */
  predicate Sound(log: seq<Exchange>, from: nat) {
    from <= |log| && forall i: nat :: from <= i < |log| ==> SoundNext(log[..i], from, log[i])
  }

  lemma {:induction false} OneMoreExchange(log: seq<Exchange>, x: Exchange, from: nat)
    requires Sound(log, from)
    requires SoundNext(log, from, x)
    ensures Sound(log + [x], from)
    ensures Readable(x.ask, x.reply) ==> Continues(log + [x], from, x.reply.nonce)
    ensures LastOrder(log + [x]) ==
            if ShownOrder(x.ask, x.reply).Some? then ShownOrder(x.ask, x.reply) else LastOrder(log)
    ensures Asks(log + [x]) == Asks(log) + if x.ask == NewNonce then [] else [x.ask]
    ensures ShownAuthorizations(log + [x]) == ShownAuthorizations(log) + ShownAuthorization(x.ask, x.reply)
    ensures forall nonce :: Carried(log + [x], nonce) <==> nonce.Some? && x.reply.Reply? && x.reply.nonce == nonce
  {
    hide Carried, Allowed, ShownOrder, ShownAuthorization, SoundNext, Readable;
    var log' := log + [x];
    assert log'[..|log|] == log;
    forall i: nat | from <= i < |log'|
      ensures SoundNext(log'[..i], from, log'[i])
    {
      if i < |log| {
        assert SoundNext(log[..i], from, log[i]) && log'[..i] == log[..i];
      }
    }
    assert forall nonce :: Carried(log + [x], nonce) <==> nonce.Some? && x.reply.Reply? && x.reply.nonce == nonce by {
      CarriedByLast(log, x);
    }
  }

  lemma {:induction false} CarriedByLast(log: seq<Exchange>, x: Exchange)
    ensures forall nonce :: Carried(log + [x], nonce) <==> nonce.Some? && x.reply.Reply? && x.reply.nonce == nonce
  {
    assert (log + [x])[|log + [x]| - 1] == x;
  }

  // ---- The client ------------------------------------------------------------------------

  predicate WireError(e: AcmeError) {
    e == TransportFailed || e == BadNewNonce || e == CannotSign || e == ApiError
  }

  /** Why a call failed: signing failed, or the last exchange shows it. */
  ghost predicate Fault(conn: Connection, e: AcmeError)
    reads conn
  {
    && WireError(e)
    && (e == CannotSign ==> exists ask, nonce :: !conn.signs(conn.log, ask, nonce))
    && (e != CannotSign ==> conn.log != [] && FaultyExchange(conn.log[|conn.log| - 1], e))
  }

  predicate FaultyExchange(x: Exchange, e: AcmeError) {
    match e
    case TransportFailed => x.reply.NoReply?
    case BadNewNonce => x.ask == NewNonce && x.reply.Reply? && (x.reply.status != 200 || x.reply.nonce.None?)
    case _ => x.ask != NewNonce && x.reply.Reply? && !Readable(x.ask, x.reply)
  }

  lemma {:induction false} ApiFault(conn: Connection, ask: Ask, reply: Reply)
    requires EndsWith(conn.log, ask, reply) && ask != NewNonce && reply.Reply? && !Readable(ask, reply)
    ensures Fault(conn, ApiError)
  {
  }

  /** The log grew by the POSTs `sent` (and nonce requests), all of them sound. */
  ghost predicate Went(before: seq<Exchange>, after: seq<Exchange>, sent: seq<Ask>, from: nat) {
    && before <= after
    && Asks(after) == Asks(before) + sent
    && Sound(after, from)
  }

  /** Sends one POST with the nonce at hand, or with one fetched for it. */
  method Post(conn: Connection, ask: Ask, nonce: Option<string>, ghost from: nat)
    returns (r: Result<Reply, AcmeError>, ghost sent: seq<Ask>)
    requires ask != NewNonce && Sound(conn.log, from) && Allowed(conn.log, ask) && Continues(conn.log, from, nonce)
    modifies conn
    ensures Went(old(conn.log), conn.log, sent, from) && (sent == [ask] || (r.Err? && sent == []))
    ensures r.Ok? ==> r.value.Reply? && EndsWith(conn.log, ask, r.value) && LastSigned(conn) && |conn.log| > from
    ensures r.Ok? && r.value.nonce.Some? ==> Carried(conn.log, r.value.nonce)
    ensures r.Ok? && Readable(ask, r.value) ==> Continues(conn.log, from, r.value.nonce)
    ensures LastOrder(conn.log) ==
            if r.Ok? && ShownOrder(ask, r.value).Some? then ShownOrder(ask, r.value) else LastOrder(old(conn.log))
    ensures ShownAuthorizations(conn.log) ==
            ShownAuthorizations(old(conn.log)) + if r.Ok? then ShownAuthorization(ask, r.value) else []
    ensures r.Err? ==> Fault(conn, r.error)
  {
    hide LastOrder, Asks, ShownAuthorizations, Sound, Carried, Continues, Allowed;
    assert from <= |conn.log| by {
      SoundReaches(conn.log, from);
    }
    if nonce.Some? {
      ContinuesCarried(conn.log, from, nonce);
    }
    var n := nonce;
    sent := [];
    ghost var before := conn.log;
    if n.None? {
      var head := conn.Request(NewNonce, None);
      OneMoreExchange(before, Exchange(NewNonce, None, head), from);
      if head.NoReply? {
        return Err(TransportFailed), sent;
      }
      if head.status != 200 || head.nonce.None? {
        return Err(BadNewNonce), sent;
      }
      n := head.nonce;
      StillAllowed(before, Exchange(NewNonce, None, head), ask);
    }
    ghost var ready := conn.log;
    if !conn.signs(conn.log, ask, n.value) {
      return Err(CannotSign), sent;
    }
    var reply := conn.Request(ask, n);
    OneMoreExchange(ready, Exchange(ask, n, reply), from);
    sent := [ask];
    if reply.NoReply? {
      return Err(TransportFailed), sent;
    }
    return Ok(reply), sent;
  }

  /** The last request was signed before it was sent. */
  predicate LastSigned(conn: Connection)
    reads conn
  {
    conn.log != [] &&
    var n := |conn.log| - 1;
    conn.log[n].nonce.Some? && conn.signs(conn.log[..n], conn.log[n].ask, conn.log[n].nonce.value)
  }

  lemma {:induction false} ContinuesCarried(log: seq<Exchange>, from: nat, nonce: Option<string>)
    requires Continues(log, from, nonce) && nonce.Some?
    ensures Carried(log, nonce)
  {
  }

  lemma {:induction false} SoundReaches(log: seq<Exchange>, from: nat)
    requires Sound(log, from)
    ensures from <= |log| && (from == |log| ==> Continues(log, from, None))
  {
    hide SoundNext;
  }

  lemma {:induction false} StillAllowed(log: seq<Exchange>, x: Exchange, ask: Ask)
    requires x.ask == NewNonce && Allowed(log, ask)
    ensures Allowed(log + [x], ask)
  {
    assert (log + [x])[..|log|] == log;
  }

  function AsAsks(urls: seq<string>, kind: string -> Ask): (asks: seq<Ask>)
    ensures |asks| == |urls| && forall i :: 0 <= i < |urls| ==> asks[i] == kind(urls[i])
  {
    seq(|urls|, i requires 0 <= i < |urls| => kind(urls[i]))
  }

  class Order {
    const conn: Connection
    const url: string
    var nonce: Option<string>
    var state: OrderState

    /** The state is what the server showed last; a nonce kept is the one just received. */
    ghost predicate Current(from: nat)
      reads this, conn
    {
      LastOrder(conn.log) == Some(state) && (nonce.Some? ==> Carried(conn.log, nonce)) && Sound(conn.log, from)
    }

    /** And the last reply was readable and brought the nonce that is kept. */
    ghost predicate Going(from: nat)
      reads this, conn
    {
      Current(from) && |conn.log| > from && Continues(conn.log, from, nonce)
    }

    constructor (conn: Connection, url: string, nonce: Option<string>, state: OrderState)
      ensures this.conn == conn && this.url == url && this.nonce == nonce && this.state == state
    {
      this.conn := conn;
      this.url := url;
      this.nonce := nonce;
      this.state := state;
    }

    /** A request answered with an order, which becomes the state; on any error the state stays. */
    method Observe(ask: Ask, ghost from: nat) returns (r: Result<(), AcmeError>, ghost sent: seq<Ask>)
      requires Going(from) && (ask.Refresh? || ask.PollOrder? || ask.Finalize?) && Allowed(conn.log, ask)
      modifies this, conn
      ensures Current(from) && Went(old(conn.log), conn.log, sent, from)
      ensures sent == [ask] || (r.Err? && sent == [])
      ensures ShownAuthorizations(conn.log) == ShownAuthorizations(old(conn.log))
      ensures r.Err? ==> Fault(conn, r.error) && state == old(state)
      ensures r.Ok? ==> Going(from)
      ensures r.Ok? ==> conn.log != [] && ShownOrder(ask, conn.log[|conn.log| - 1].reply) == Some(state)
    {
      hide LastOrder, Asks, Sound, Carried, Continues, Allowed, ShownAuthorizations, Fault;
      var given := nonce;
      nonce := None;
      var rsp;
      rsp, sent := Post(conn, ask, given, from);
      if rsp.Err? {
        return Err(rsp.error), sent;
      }
      nonce := rsp.value.nonce;
      if !(200 <= rsp.value.status < 300) || rsp.value.body.order.None? {
        ApiFault(conn, ask, rsp.value);
        return Err(ApiError), sent;
      }
      state := rsp.value.body.order.value;
      return Ok(()), sent;
    }

    /** Asks for every authorization of the order, in order, up to the first failure. */
    method GetAuthorizations(ghost from: nat) returns (r: Result<seq<Authorization>, AcmeError>, ghost sent: seq<Ask>)
      requires Going(from)
      modifies this, conn
      ensures Current(from) && state == old(state) && Went(old(conn.log), conn.log, sent, from)
      ensures r.Ok? ==> Going(from)
      ensures sent <= AsAsks(state.authorizations, u => GetAuthorization(u))
      ensures r.Ok? ==> sent == AsAsks(state.authorizations, u => GetAuthorization(u))
      ensures r.Ok? ==> |r.value| == |state.authorizations|
      ensures r.Ok? ==> ShownAuthorizations(conn.log) == ShownAuthorizations(old(conn.log)) + r.value
      ensures r.Err? ==> Fault(conn, r.error)
    {
      hide LastOrder, Asks, Sound, Carried, Continues, ShownAuthorizations, Fault;
      var found: seq<Authorization> := [];
      ghost var all := AsAsks(state.authorizations, u => GetAuthorization(u));
      sent := [];
      for i := 0 to |state.authorizations|
        invariant Going(from) && state == old(state) && |found| == i && sent == all[..i]
        invariant Went(old(conn.log), conn.log, sent, from)
        invariant ShownAuthorizations(conn.log) == ShownAuthorizations(old(conn.log)) + found
      {
        var given := nonce;
        nonce := None;
        var rsp, one := Post(conn, GetAuthorization(state.authorizations[i]), given, from);
        assert all[..i + 1] == all[..i] + [GetAuthorization(state.authorizations[i])];
        sent := sent + one;
        if rsp.Err? {
          return Err(rsp.error), sent;
        }
        nonce := rsp.value.nonce;
        if !(200 <= rsp.value.status < 300) || rsp.value.body.authorization.None? {
          ApiFault(conn, GetAuthorization(state.authorizations[i]), rsp.value);
          return Err(ApiError), sent;
        }
        found := found + [rsp.value.body.authorization.value];
      }
      return Ok(found), sent;
    }

    method SetChallengeReady(challengeUrl: string, ghost from: nat)
      returns (r: Result<(), AcmeError>, ghost sent: seq<Ask>)
      requires Going(from)
      modifies this, conn
      ensures Current(from) && state == old(state) && Went(old(conn.log), conn.log, sent, from)
      ensures r.Ok? ==> Going(from)
      ensures sent == [ChallengeReady(challengeUrl)] || (r.Err? && sent == [])
      ensures ShownAuthorizations(conn.log) == ShownAuthorizations(old(conn.log))
      ensures r.Err? ==> Fault(conn, r.error)
    {
      hide LastOrder, Asks, Sound, Carried, Continues, ShownAuthorizations, Fault;
      var given := nonce;
      nonce := None;
      var rsp;
      rsp, sent := Post(conn, ChallengeReady(challengeUrl), given, from);
      if rsp.Err? {
        return Err(rsp.error), sent;
      }
      nonce := rsp.value.nonce;
      if !(200 <= rsp.value.status < 300) || !rsp.value.body.isChallenge {
        ApiFault(conn, ChallengeReady(challengeUrl), rsp.value);
        return Err(ApiError), sent;
      }
      return Ok(()), sent;
    }

    /**
     Looks at the order again if it was processing, and fetches the certificate if there is one. `Ok(None)` means that
     the order has just been seen processing, after one poll.
     */
    method Certificate(ghost from: nat) returns (r: Result<Option<string>, AcmeError>, ghost sent: seq<Ask>)
      requires Going(from)
      modifies this, conn
      ensures Current(from) && Went(old(conn.log), conn.log, sent, from)
      ensures r.Ok? ==> Going(from)
      ensures PollsThenDownload(sent, url, if old(state).status == Processing then 1 else 0)
      ensures ShownAuthorizations(conn.log) == ShownAuthorizations(old(conn.log))
      ensures r.Ok? && r.value.None?
              ==> old(state).status == Processing && state.status == Processing && sent == [PollOrder(url)]
      ensures r.Ok? && r.value.Some? ==> Issued(conn.log, r.value.value)
      ensures r.Ok? && r.value.Some? ==> |sent| == if old(state).status == Processing then 2 else 1
      ensures r.Err? ==> CertificateFault(conn, r.error)
    {
      hide LastOrder, Asks, Sound, Carried, Continues, ShownAuthorizations, Fault;
      sent := [];
      if state.status == Processing {
        var polled, polls := Observe(PollOrder(url), from);
        sent := polls;
        if polled.Err? {
          return Err(polled.error), sent;
        }
      }
      if state.hasError {
        return Err(ApiError), sent;
      } else if state.status == Processing {
        return Ok(None), sent;
      } else if state.status != Valid {
        return Err(InvalidOrderState), sent;
      }
      if state.certificate.None? {
        return Err(NoCertificateUrl), sent;
      }
      var given := nonce;
      nonce := None;
      var rsp, download := Post(conn, Download(state.certificate.value), given, from);
      sent := sent + download;
      if rsp.Err? {
        return Err(rsp.error), sent;
      }
      nonce := rsp.value.nonce;
      if !(100 <= rsp.value.status <= 399) {
        ApiFault(conn, Download(state.certificate.value), rsp.value);
        return Err(ApiError), sent;
      }
      if rsp.value.body.text.None? {
        return Err(NotUtf8), sent;
      }
      return Ok(Some(rsp.value.body.text.value)), sent;
    }
  }

  /** Up to `n` polls of the order, then perhaps, only after all of them, a download. */
  predicate PollsThenDownload(sent: seq<Ask>, url: string, n: nat) {
    && |sent| <= n + 1
    && (forall i :: 0 <= i < |sent| && i < n ==> sent[i] == PollOrder(url))
    && (|sent| == n + 1 ==> sent[n].Download?)
  }

  /** The text is what was just downloaded, from an order last shown valid and without error, at its certificate URL. */
  ghost predicate Issued(log: seq<Exchange>, pem: string) {
    log != [] &&
    var x, order := log[|log| - 1], LastOrder(log);
    && order.Some? && order.value.status == Valid && !order.value.hasError
    && x.ask.Download? && order.value.certificate == Some(x.ask.url)
    && x.reply.Reply? && 100 <= x.reply.status <= 399 && x.reply.body.text == Some(pem)
  }

  /** Why there is no certificate: a failed call, or what the order last shown or the download says. */
  ghost predicate CertificateFault(conn: Connection, e: AcmeError)
    reads conn
  {
    var order := LastOrder(conn.log);
    || Fault(conn, e)
    || (e == ApiError && order.Some? && order.value.hasError)
    || (e == InvalidOrderState && order.Some? && order.value.status != Valid && order.value.status != Processing)
    || (e == NoCertificateUrl && order.Some? && order.value.certificate.None?)
    || (e == NotUtf8 && conn.log != [] && NotText(conn.log[|conn.log| - 1]))
  }

  predicate NotText(x: Exchange) {
    x.ask.Download? && x.reply.Reply? && x.reply.body.text.None?
  }

  /** Opens an order; its URL is the Location of the reply. */
  method OpenOrder(conn: Connection, ghost from: nat) returns (r: Result<Order, AcmeError>, ghost sent: seq<Ask>)
    requires Sound(conn.log, from) && from == |conn.log|
    modifies conn
    ensures Went(old(conn.log), conn.log, sent, from)
    ensures sent == [NewOrder] || (r.Err? && sent == [])
    ensures ShownAuthorizations(conn.log) == ShownAuthorizations(old(conn.log))
    ensures r.Ok? ==> r.value.conn == conn && fresh(r.value) && r.value.Going(from)
    ensures r.Ok? ==> Opened(conn.log, |old(conn.log)|, r.value.state, r.value.url)
    ensures r.Err? ==> OpeningFault(conn, r.error)
  {
    hide LastOrder, Asks, Sound, Carried, Continues, ShownAuthorizations, Fault;
    SoundReaches(conn.log, from);
    var rsp;
    rsp, sent := Post(conn, NewOrder, None, from);
    if rsp.Err? {
      return Err(rsp.error), sent;
    }
    if !(200 <= rsp.value.status < 300) || rsp.value.body.order.None? {
      ApiFault(conn, NewOrder, rsp.value);
      return Err(ApiError), sent;
    }
    if rsp.value.location.None? {
      return Err(NoOrderUrl), sent;
    }
    var order := new Order(conn, rsp.value.location.value, rsp.value.nonce, rsp.value.body.order.value);
    assert |conn.log| > |old(conn.log)| by {
      assert conn.log == old(conn.log) ==> sent == [];
    }
    return Ok(order), sent;
  }

  ghost predicate OpeningFault(conn: Connection, e: AcmeError)
    reads conn
  {
    || Fault(conn, e)
    || (e == NoOrderUrl && conn.log != [] && NoLocation(conn.log[|conn.log| - 1]))
  }

  predicate NoLocation(x: Exchange) {
    x.ask == NewOrder && x.reply.Reply? && x.reply.location.None?
  }

  /** The server answered the order request with this order at this URL. */
  ghost predicate Opened(log: seq<Exchange>, from: nat, first: OrderState, url: string) {
    exists i :: from <= i < |log| && log[i].ask == NewOrder && ShownOrder(NewOrder, log[i].reply) == Some(first)
                && log[i].reply.Reply? && log[i].reply.location == Some(url)
  }

  // ---- Challenges ------------------------------------------------------------------------

  /** Publishes challenge answers. A call may fail, and then changes nothing. */
  class ChallengeSink {
    const fails: nat -> bool
    var calls: nat
    var entries: map<string, string>
    var placed: seq<string>
    var cleared: seq<string>

    constructor (fails: nat -> bool)
      ensures this.fails == fails && entries == map[] && placed == [] && cleared == []
    {
      this.fails := fails;
      calls := 0;
      entries := map[];
      placed := [];
      cleared := [];
    }

    method Place(token: string, keyAuthorization: string) returns (ok: bool)
      modifies this
      ensures cleared == old(cleared)
      ensures entries == if ok then old(entries)[token := keyAuthorization] else old(entries)
      ensures placed == if ok then old(placed) + [token] else old(placed)
      ensures !ok ==> fails(calls)
    {
      calls := calls + 1;
      ok := !fails(calls);
      if ok {
        entries := entries[token := keyAuthorization];
        placed := placed + [token];
      }
    }

    method Clear(token: string) returns (ok: bool)
      modifies this
      ensures placed == old(placed)
      ensures entries == if ok then old(entries) - {token} else old(entries)
      ensures cleared == if ok then old(cleared) + [token] else old(cleared)
      ensures !ok ==> fails(calls)
    {
      calls := calls + 1;
      ok := !fails(calls);
      if ok {
        entries := entries - {token};
        cleared := cleared + [token];
      }
    }
  }

  /** Of the challenges offered, the HTTP-01 one that comes first. */
  predicate IsFirstHttp01(challenges: seq<Challenge>, c: Challenge) {
    exists i ::
      && 0 <= i < |challenges| && challenges[i] == c && c.isHttp01
      && forall j :: 0 <= j < i ==> !challenges[j].isHttp01
  }

  method FindHttp01(challenges: seq<Challenge>) returns (c: Option<Challenge>)
    ensures c.Some? ==> IsFirstHttp01(challenges, c.value)
    ensures c.None? <==> forall j :: 0 <= j < |challenges| ==> !challenges[j].isHttp01
  {
    for i := 0 to |challenges|
      invariant forall j :: 0 <= j < i ==> !challenges[j].isHttp01
    {
      if challenges[i].isHttp01 {
        return Some(challenges[i]);
      }
    }
    return None;
  }

  /** `chosen` holds, in order, the first HTTP-01 challenge of every pending authorization; the others are valid. */
  ghost predicate Chosen(authorizations: seq<Authorization>, chosen: seq<Challenge>) {
    if authorizations == [] then chosen == []
    else
      var last, rest := authorizations[|authorizations| - 1], authorizations[..|authorizations| - 1];
      if last.status.AuthorizationValid? then Chosen(rest, chosen)
      else last.status.AuthorizationPending? && chosen != [] && IsFirstHttp01(last.challenges, chosen[|chosen| - 1])
           && Chosen(rest, chosen[..|chosen| - 1])
  }

  function Tokens(chosen: seq<Challenge>): (tokens: seq<string>)
    ensures |tokens| == |chosen| && forall i :: 0 <= i < |chosen| ==> tokens[i] == chosen[i].token
  {
    seq(|chosen|, i requires 0 <= i < |chosen| => chosen[i].token)
  }

  function Urls(chosen: seq<Challenge>): (urls: seq<string>)
    ensures |urls| == |chosen| && forall i :: 0 <= i < |chosen| ==> urls[i] == chosen[i].url
  {
    seq(|chosen|, i requires 0 <= i < |chosen| => chosen[i].url)
  }

  lemma {:induction false} ChoseNone()
    ensures Chosen([], []) && Tokens([]) == [] && Urls([]) == []
  {
  }

  lemma {:induction false} ChoseNoMore(authorizations: seq<Authorization>, a: Authorization, chosen: seq<Challenge>)
    requires Chosen(authorizations, chosen) && a.status.AuthorizationValid?
    ensures Chosen(authorizations + [a], chosen)
  {
    assert (authorizations + [a])[..|authorizations|] == authorizations;
  }

  lemma {:induction false} ChoseOneMore(authorizations: seq<Authorization>, a: Authorization,
    chosen: seq<Challenge>, c: Challenge)
    requires Chosen(authorizations, chosen) && a.status.AuthorizationPending? && IsFirstHttp01(a.challenges, c)
    ensures Chosen(authorizations + [a], chosen + [c])
    ensures Tokens(chosen + [c]) == Tokens(chosen) + [c.token] && Urls(chosen + [c]) == Urls(chosen) + [c.url]
  {
    hide IsFirstHttp01;
    assert (authorizations + [a])[..|authorizations|] == authorizations && (chosen + [c])[..|chosen|] == chosen;
  }

  function SetOf(tokens: seq<string>): set<string> {
    set i | 0 <= i < |tokens| :: tokens[i]
  }

  /** Besides what was there before, exactly the given tokens, each with its key authorization. */
  function Published(before: map<string, string>, tokens: seq<string>, keyAuthorization: string -> string)
    : map<string, string>
  {
    map t | t in before.Keys + SetOf(tokens) :: if t in SetOf(tokens) then keyAuthorization(t) else before[t]
  }

  lemma {:induction false} PublishOne(
    before: map<string, string>, tokens: seq<string>, keyAuthorization: string -> string, t: string)
    ensures Published(before, tokens + [t], keyAuthorization) ==
            Published(before, tokens, keyAuthorization)[t := keyAuthorization(t)]
  {
    hide SetOf;
    SetOfSnoc(tokens, t);
  }

  lemma {:induction false} PublishNone(before: map<string, string>, keyAuthorization: string -> string)
    ensures Published(before, [], keyAuthorization) == before
  {
    assert SetOf([]) == {};
  }

  /** Why challenges could not be placed. */
  ghost predicate PlacingFault(authorizations: seq<Authorization>, sink: ChallengeSink, e: AcmeError)
    reads sink
  {
    match e
    case UnexpectedAuthorization =>
      exists i :: 0 <= i < |authorizations| && authorizations[i].status.AuthorizationOther?
    case NoHttp01 => exists i :: 0 <= i < |authorizations| && LacksHttp01(authorizations[i])
    case SinkFailed => sink.fails(sink.calls)
    case _ => false
  }

  predicate LacksHttp01(a: Authorization) {
    a.status.AuthorizationPending? && forall j :: 0 <= j < |a.challenges| ==> !a.challenges[j].isHttp01
  }

  /** Publishes the answer to the first HTTP-01 challenge of every authorization still pending. */
  method PlaceChallenges(sink: ChallengeSink, authorizations: seq<Authorization>, keyAuthorization: string -> string)
    returns (r: Result<(seq<string>, seq<string>), AcmeError>, ghost chosen: seq<Challenge>)
    modifies sink
    ensures sink.cleared == old(sink.cleared)
    ensures sink.placed == old(sink.placed) + Tokens(chosen)
    ensures sink.entries == Published(old(sink.entries), Tokens(chosen), keyAuthorization)
    ensures r.Ok? ==> Chosen(authorizations, chosen) && r.value == (Tokens(chosen), Urls(chosen))
    ensures r.Err? ==> PlacingFault(authorizations, sink, r.error)
  {
    hide Published, IsFirstHttp01, Chosen, Tokens, Urls;
    ChoseNone();
    var tokens: seq<string>, urls: seq<string> := [], [];
    chosen := [];
    PublishNone(sink.entries, keyAuthorization);
    for i := 0 to |authorizations|
      invariant sink.cleared == old(sink.cleared) && sink.placed == old(sink.placed) + tokens
      invariant sink.entries == Published(old(sink.entries), tokens, keyAuthorization)
      invariant Chosen(authorizations[..i], chosen) && tokens == Tokens(chosen) && urls == Urls(chosen)
    {
      assert authorizations[..i + 1] == authorizations[..i] + [authorizations[i]];
      if authorizations[i].status.AuthorizationOther? {
        return Err(UnexpectedAuthorization), chosen;
      }
      if authorizations[i].status.AuthorizationPending? {
        var challenge := FindHttp01(authorizations[i].challenges);
        if challenge.None? {
          assert LacksHttp01(authorizations[i]);
          return Err(NoHttp01), chosen;
        }
        PublishOne(old(sink.entries), tokens, keyAuthorization, challenge.value.token);
        var ok := sink.Place(challenge.value.token, keyAuthorization(challenge.value.token));
        if !ok {
          return Err(SinkFailed), chosen;
        }
        tokens := tokens + [challenge.value.token];
        urls := urls + [challenge.value.url];
        ChoseOneMore(authorizations[..i], authorizations[i], chosen, challenge.value);
        chosen := chosen + [challenge.value];
      } else {
        ChoseNoMore(authorizations[..i], authorizations[i], chosen);
      }
    }
    assert authorizations[..|authorizations|] == authorizations;
    r := Ok((tokens, urls));
  }

  // ---- The run ---------------------------------------------------------------------------

  /** Declares every challenge ready, in order, up to the first failure. */
  method DeclareReady(order: Order, urls: seq<string>, ghost from: nat)
    returns (r: Result<(), AcmeError>, ghost sent: seq<Ask>)
    requires order.Going(from)
    modifies order, order.conn
    ensures r.Ok? ==> order.Going(from)
    ensures order.Current(from) && order.state == old(order.state)
            && Went(old(order.conn.log), order.conn.log, sent, from)
    ensures sent <= AsAsks(urls, u => ChallengeReady(u)) && (r.Ok? ==> sent == AsAsks(urls, u => ChallengeReady(u)))
    ensures ShownAuthorizations(order.conn.log) == ShownAuthorizations(old(order.conn.log))
    ensures r.Err? ==> Fault(order.conn, r.error)
  {
    hide LastOrder, Asks, Sound, Carried, Continues, ShownAuthorizations, Fault;
    ghost var all := AsAsks(urls, u => ChallengeReady(u));
    sent := [];
    for i := 0 to |urls|
      invariant order.Going(from) && order.state == old(order.state) && sent == all[..i]
      invariant Went(old(order.conn.log), order.conn.log, sent, from)
      invariant ShownAuthorizations(order.conn.log) == ShownAuthorizations(old(order.conn.log))
    {
      var done, one := order.SetChallengeReady(urls[i], from);
      assert all[..i + 1] == all[..i] + [ChallengeReady(urls[i])];
      sent := sent + one;
      if done.Err? {
        return Err(done.error), sent;
      }
    }
    return Ok(()), sent;
  }

  predicate AllRefresh(sent: seq<Ask>, url: string) {
    forall i :: 0 <= i < |sent| ==> sent[i] == Refresh(url)
  }

  /** Refreshes the order, at most four times, until it is ready or valid. */
  method AwaitReady(order: Order, ghost from: nat) returns (r: Result<(), AcmeError>, ghost sent: seq<Ask>)
    requires order.Going(from)
    modifies order, order.conn
    ensures order.Current(from) && Went(old(order.conn.log), order.conn.log, sent, from)
    ensures r.Ok? ==> order.Going(from)
    ensures |sent| <= 4 && AllRefresh(sent, order.url)
    ensures ShownAuthorizations(order.conn.log) == ShownAuthorizations(old(order.conn.log))
    ensures r.Ok? ==> sent != [] && ReadyOrValid(Some(order.state))
    ensures r.Err? ==> Fault(order.conn, r.error) || (r.error == OrderInvalid && order.state.status == Invalid)
                       || (r.error == NotReady && |sent| == 4 && order.state.status in {Pending, Processing})
  {
    hide LastOrder, Asks, Sound, Carried, Continues, ShownAuthorizations, Fault;
    var tries := 1;
    sent := [];
    while true
      invariant order.Going(from) && Went(old(order.conn.log), order.conn.log, sent, from)
      invariant |sent| == tries - 1 && 1 <= tries < 5 && AllRefresh(sent, order.url)
      invariant ShownAuthorizations(order.conn.log) == ShownAuthorizations(old(order.conn.log))
      decreases 5 - tries
    {
      var seen, one := order.Observe(Refresh(order.url), from);
      sent := sent + one;
      if seen.Err? {
        return Err(seen.error), sent;
      }
      if order.state.status == Invalid {
        return Err(OrderInvalid), sent;
      }
      if order.state.status == Ready || order.state.status == Valid {
        return Ok(()), sent;
      }
      tries := tries + 1;
      if tries >= 5 {
        return Err(NotReady), sent;
      }
    }
  }

  /** Clears the tokens, in order, up to the first failure: exactly the first `n` are withdrawn. */
  method ClearChallenges(sink: ChallengeSink, tokens: seq<string>) returns (ok: bool, ghost n: nat)
    modifies sink
    ensures n <= |tokens| && (ok <==> n == |tokens|) && (!ok ==> sink.fails(sink.calls))
    ensures sink.placed == old(sink.placed) && sink.cleared == old(sink.cleared) + tokens[..n]
    ensures sink.entries == old(sink.entries) - SetOf(tokens[..n])
  {
    n := 0;
    for i := 0 to |tokens|
      invariant n == i
      invariant sink.placed == old(sink.placed) && sink.cleared == old(sink.cleared) + tokens[..i]
      invariant sink.entries == old(sink.entries) - SetOf(tokens[..i])
    {
      ok := sink.Clear(tokens[i]);
      if !ok {
        return;
      }
      assert tokens[..i + 1] == tokens[..i] + [tokens[i]];
      SetOfSnoc(tokens[..i], tokens[i]);
      n := n + 1;
    }
    ok := true;
  }

  lemma {:induction false} SetOfSnoc(tokens: seq<string>, t: string)
    ensures SetOf(tokens + [t]) == SetOf(tokens) + {t}
  {
    assert forall i :: 0 <= i < |tokens| ==> (tokens + [t])[i] == tokens[i];
    assert (tokens + [t])[|tokens|] == t;
  }

  /** Asks for the certificate, at most eleven times. */
  method AwaitCertificate(order: Order, ghost from: nat)
    returns (r: Result<string, AcmeError>, ghost sent: seq<Ask>, ghost polls: nat)
    requires order.Going(from)
    modifies order, order.conn
    ensures Went(old(order.conn.log), order.conn.log, sent, from)
    ensures r.Ok? ==> order.Going(from)
    ensures polls <= 11 && PollsThenDownload(sent, order.url, polls)
    ensures ShownAuthorizations(order.conn.log) == ShownAuthorizations(old(order.conn.log))
    ensures r.Ok? ==> Issued(order.conn.log, r.value) && |sent| == polls + 1
    ensures r.Err? ==> IssuingFault(order.conn, |sent|, r.error)
    ensures r == Err(NoCertificate) ==> |sent| == polls
  {
    hide LastOrder, Asks, Sound, Carried, Continues, ShownAuthorizations, Issued, CertificateFault;
    var tries := 0;
    sent, polls := [], 0;
    while true
      invariant order.Going(from) && Went(old(order.conn.log), order.conn.log, sent, from)
      invariant |sent| == polls == tries <= 10 && PollsThenDownload(sent, order.url, polls)
      invariant tries > 0 ==> order.state.status == Processing
      invariant ShownAuthorizations(order.conn.log) == ShownAuthorizations(old(order.conn.log))
      decreases 11 - tries
    {
      if order.state.status == Processing {
        polls := polls + 1;
      }
      var answer, more := order.Certificate(from);
      sent := sent + more;
      if answer.Err? {
        assert answer.error != NoCertificate by {
          NotGivenUp(order.conn);
        }
        return Err(answer.error), sent, polls;
      }
      if answer.value.Some? {
        return Ok(answer.value.value), sent, polls;
      }
      tries := tries + 1;
      if tries > 10 {
        return Err(NoCertificate), sent, polls;
      }
    }
  }

  /** Why the last phase failed: as for the certificate, or eleven polls all found the order processing. */
  ghost predicate IssuingFault(conn: Connection, sent: nat, e: AcmeError)
    reads conn
  {
    || CertificateFault(conn, e)
    || (e == NoCertificate && sent == 11 && LastOrder(conn.log).Some? && LastOrder(conn.log).value.status == Processing)
  }

  lemma {:induction false} NotGivenUp(conn: Connection)
    ensures !CertificateFault(conn, NoCertificate) && !CertificateFault(conn, NotReady)
  {
  }

  /** Why the challenge phase failed. */
  ghost predicate ControlFault(conn: Connection, sink: ChallengeSink, refreshes: nat, e: AcmeError)
    reads conn, sink
  {
    var order := LastOrder(conn.log);
    || Fault(conn, e)
    || PlacingFault(ShownAuthorizations(conn.log), sink, e)
    || (e == OrderInvalid && order.Some? && order.value.status == Invalid)
    || (e == NotReady && refreshes == 4 && order.Some?
       && (order.value.status == Pending || order.value.status == Processing))
  }

  /** Why an order could not be opened or brought to ready. */
  ghost predicate ReachingFault(conn: Connection, sink: ChallengeSink, refreshes: nat, e: AcmeError)
    reads conn, sink
  {
    || OpeningFault(conn, e)
    || ControlFault(conn, sink, refreshes, e)
    || (e == UnexpectedOrder && LastOrder(conn.log).Some? && LastOrder(conn.log).value.status == Processing)
  }

  lemma {:induction false} PlacingFaultSeen(
    conn: Connection, before: seq<Authorization>, authorizations: seq<Authorization>, sink: ChallengeSink, e: AcmeError)
    requires ShownAuthorizations(conn.log) == before + authorizations && PlacingFault(authorizations, sink, e)
    ensures PlacingFault(ShownAuthorizations(conn.log), sink, e)
  {
    hide ShownAuthorizations, LacksHttp01;
    var all, n := before + authorizations, |before|;
    assert forall i :: 0 <= i < |authorizations| ==> all[n + i] == authorizations[i];
  }

  /**
   What the run did to the sink: the tokens were placed in order, the first `n` of them cleared in order, and what is
   published besides the former entries are exactly the tokens not cleared.
   */
  ghost predicate SinkMoved(
    sink: ChallengeSink, placed: seq<string>, cleared: seq<string>, entries: map<string, string>, tokens: seq<string>,
    n: nat, keyAuthorization: string -> string)
    reads sink
  {
    && n <= |tokens|
    && sink.placed == placed + tokens
    && sink.cleared == cleared + tokens[..n]
    && sink.entries == Published(entries, tokens, keyAuthorization) - SetOf(tokens[..n])
  }

  lemma {:induction false} MovedNothing(sink: ChallengeSink, keyAuthorization: string -> string)
    ensures SinkMoved(sink, sink.placed, sink.cleared, sink.entries, Tokens([]), 0, keyAuthorization)
  {
    PublishNone(sink.entries, keyAuthorization);
    assert SetOf([]) == {} && Tokens([]) == [];
    assert sink.entries - {} == sink.entries;
  }

  lemma {:induction false} MovedSo(
    sink: ChallengeSink, placed: seq<string>, cleared: seq<string>, entries: map<string, string>, tokens: seq<string>,
    n: nat, keyAuthorization: string -> string)
    requires n <= |tokens| && sink.placed == placed + tokens && sink.cleared == cleared + tokens[..n]
    requires sink.entries == (if n == 0 then Published(entries, tokens, keyAuthorization)
                              else Published(entries, tokens, keyAuthorization) - SetOf(tokens[..n]))
    ensures SinkMoved(sink, placed, cleared, entries, tokens, n, keyAuthorization)
  {
    hide Published;
    assert n == 0 ==> SetOf(tokens[..n]) == {};
    assert sink.entries - {} == sink.entries;
  }

  /** When all tokens were cleared none of them is published any more. */
  lemma {:induction false} AllCleared(
    sink: ChallengeSink, placed: seq<string>, cleared: seq<string>, entries: map<string, string>, tokens: seq<string>,
    keyAuthorization: string -> string)
    requires SinkMoved(sink, placed, cleared, entries, tokens, |tokens|, keyAuthorization)
    ensures Withdrawn(sink, placed, cleared, entries, tokens)
  {
    hide SetOf;
    assert tokens[..|tokens|] == tokens;
    assert sink.entries.Keys == (entries - SetOf(tokens)).Keys;
  }

  /** The POSTs of one run, phase by phase. */
  datatype Trace = Trace(
    opening: seq<Ask>, gets: seq<Ask>, readies: seq<Ask>, refreshes: seq<Ask>, finalizing: seq<Ask>,
    fetching: seq<Ask>, polls: nat)

  const NOTHING := Trace([], [], [], [], [], [], 0)

  function Spell(t: Trace): seq<Ask> {
    t.opening + t.gets + t.readies + t.refreshes + t.finalizing + t.fetching
  }

  predicate Shaped(t: Trace, url: string) {
    && |t.opening| <= 1 && (forall i :: 0 <= i < |t.opening| ==> t.opening[i].NewOrder?)
    && (forall i :: 0 <= i < |t.gets| ==> t.gets[i].GetAuthorization?)
    && (forall i :: 0 <= i < |t.readies| ==> t.readies[i].ChallengeReady?)
    && |t.refreshes| <= 4 && AllRefresh(t.refreshes, url)
    && |t.finalizing| <= 1 && (forall i :: 0 <= i < |t.finalizing| ==> t.finalizing[i].Finalize?)
    && t.polls <= 11 && PollsThenDownload(t.fetching, url, t.polls)
  }

  lemma {:induction false} WentOn(a: seq<Exchange>, b: seq<Exchange>, c: seq<Exchange>, sent: seq<Ask>,
    more: seq<Ask>, from: nat)
    requires Went(a, b, sent, from) && Went(b, c, more, from)
    ensures Went(a, c, sent + more, from) && b <= c
  {
    hide Sound, Asks;
  }

  ghost function ChallengePhase(gets: seq<Ask>, readies: seq<Ask>, refreshes: seq<Ask>, url: string,
    authorizations: seq<string>, challenges: seq<string>): (t: Trace)
    requires gets <= AsAsks(authorizations, u => GetAuthorization(u))
    requires readies <= AsAsks(challenges, u => ChallengeReady(u))
    requires |refreshes| <= 4 && AllRefresh(refreshes, url)
    ensures Spell(t) == gets + readies + refreshes && Spell(t) == gets + (readies + refreshes)
    ensures refreshes == [] ==> Spell(t) == gets + readies
    ensures readies == refreshes == [] ==> Spell(t) == gets
    ensures Shaped(t, url) && t.opening == t.finalizing == t.fetching == []
    ensures t.gets == gets && t.readies == readies && t.refreshes == refreshes
  {
    Trace([], gets, readies, refreshes, [], [], 0)
  }

  /** The challenge phase: publish, declare ready, await, and withdraw. */
  method ProveControl(order: Order, sink: ChallengeSink, keyAuthorization: string -> string, ghost from: nat)
    returns (r: Result<(), AcmeError>, ghost t: Trace,
             ghost authorizations: seq<Authorization>, ghost chosen: seq<Challenge>, ghost withdrawn: nat)
    requires order.Going(from)
    modifies order, order.conn, sink
    ensures r.Ok? ==> order.Going(from)
    ensures order.Current(from) && Went(old(order.conn.log), order.conn.log, Spell(t), from)
    ensures Shaped(t, order.url) && t.opening == t.finalizing == t.fetching == []
    ensures r.Ok? ==> ReadyOrValid(Some(order.state)) && t.refreshes != []
    ensures r.Ok? ==> ShownAuthorizations(order.conn.log) == ShownAuthorizations(old(order.conn.log)) + authorizations
    ensures r.Ok? ==> Challenged(t, old(order.state), authorizations, chosen)
    ensures SinkMoved(sink, old(sink.placed), old(sink.cleared), old(sink.entries), Tokens(chosen),
                      withdrawn, keyAuthorization)
    ensures r.Ok? ==> withdrawn == |chosen|
    ensures r == Err(NotReady) ==> withdrawn == 0
    ensures r.Err? ==> ControlFault(order.conn, sink, |t.refreshes|, r.error)
  {
    hide LastOrder, Asks, Sound, Carried, Continues, ShownAuthorizations, Published, Chosen, Went, Spell, Shaped,
         Challenged, SetOf, Tokens, Urls, AsAsks, ReadyOrValid, ChallengePhase, SinkMoved, Fault, PlacingFault;
    ghost var log0 := order.conn.log;
    withdrawn := 0;
    MovedNothing(sink, keyAuthorization);
    var found, gets := order.GetAuthorizations(from);
    t := ChallengePhase(gets, [], [], order.url, order.state.authorizations, []);
    if found.Err? {
      return Err(found.error), t, [], [], withdrawn;
    }
    authorizations := found.value;
    ghost var log1 := order.conn.log;
    var placed;
    placed, chosen := PlaceChallenges(sink, found.value, keyAuthorization);
    assert sink.cleared == old(sink.cleared) + Tokens(chosen)[..0];
    MovedSo(sink, old(sink.placed), old(sink.cleared), old(sink.entries), Tokens(chosen), 0, keyAuthorization);
    if placed.Err? {
      PlacingFaultSeen(order.conn, ShownAuthorizations(log0), authorizations, sink, placed.error);
      return Err(placed.error), t, authorizations, chosen, withdrawn;
    }
    var declared, readies := DeclareReady(order, placed.value.1, from);
    WentOn(log0, log1, order.conn.log, gets, readies, from);
    t := ChallengePhase(gets, readies, [], order.url, old(order.state).authorizations, placed.value.1);
    if declared.Err? {
      return Err(declared.error), t, authorizations, chosen, withdrawn;
    }
    ghost var log2 := order.conn.log;
    var ready, refreshes := AwaitReady(order, from);
    WentOn(log0, log2, order.conn.log, gets + readies, refreshes, from);
    t := ChallengePhase(gets, readies, refreshes, order.url, old(order.state).authorizations, placed.value.1);
    if ready.Err? {
      return Err(ready.error), t, authorizations, chosen, withdrawn;
    }
    var cleared, n := ClearChallenges(sink, placed.value.0);
    withdrawn := n;
    ClearedSo(old(sink.entries), Tokens(chosen), n, keyAuthorization);
    MovedSo(sink, old(sink.placed), old(sink.cleared), old(sink.entries), Tokens(chosen), n, keyAuthorization);
    if !cleared {
      SinkFault(ShownAuthorizations(order.conn.log), sink);
      return Err(SinkFailed), t, authorizations, chosen, withdrawn;
    }
    AreChallenged(t, old(order.state), authorizations, chosen);
    return Ok(()), t, authorizations, chosen, withdrawn;
  }

  lemma {:induction false} ClearedSo(
    entries: map<string, string>, tokens: seq<string>, n: nat, keyAuthorization: string -> string)
    requires n <= |tokens|
    ensures var all := Published(entries, tokens, keyAuthorization);
            all - SetOf(tokens[..n]) == if n == 0 then all else all - SetOf(tokens[..n])
  {
    hide Published;
    assert n == 0 ==> SetOf(tokens[..n]) == {};
    assert Published(entries, tokens, keyAuthorization) - {} == Published(entries, tokens, keyAuthorization);
  }

  lemma {:induction false} SinkFault(authorizations: seq<Authorization>, sink: ChallengeSink)
    requires sink.fails(sink.calls)
    ensures PlacingFault(authorizations, sink, SinkFailed)
  {
  }

  /** Every authorization was asked for, and the challenge chosen for each pending one declared ready. */
  ghost predicate Challenged(t: Trace, first: OrderState, authorizations: seq<Authorization>, chosen: seq<Challenge>) {
    && t.gets == AsAsks(first.authorizations, u => GetAuthorization(u)) && |authorizations| == |first.authorizations|
    && Chosen(authorizations, chosen)
    && t.readies == AsAsks(Urls(chosen), u => ChallengeReady(u))
  }

  /** Exactly the tokens were placed, the same were cleared, and none of them is published any more. */
  ghost predicate Withdrawn(sink: ChallengeSink, placed: seq<string>, cleared: seq<string>,
    entries: map<string, string>, tokens: seq<string>)
    reads sink
  {
    sink.placed == placed + tokens && sink.cleared == cleared + tokens && sink.entries == entries - SetOf(tokens)
  }

  lemma {:induction false} AreChallenged(t: Trace, first: OrderState, authorizations: seq<Authorization>,
    chosen: seq<Challenge>)
    requires t.gets == AsAsks(first.authorizations, u => GetAuthorization(u))
             && |authorizations| == |first.authorizations|
    requires Chosen(authorizations, chosen) && t.readies == AsAsks(Urls(chosen), u => ChallengeReady(u))
    ensures Challenged(t, first, authorizations, chosen)
  {
    hide Chosen, Urls;
  }

  datatype Outcome = Outcome(privateKeyPem: string, certificateChainPem: string)

  /** The leaf key and its signing request: for the existing key if there is one (renewal), else for a new one. */
  function KeyAndCsr(existing: Option<string>, csrOf: string -> Option<string>,
    generated: Option<(string, string)>): Option<(string, string)> {
    match existing
    case Some(pem) => if csrOf(pem).Some? then Some((pem, csrOf(pem).value)) else None
    case None => generated
  }

  /** Finalizes the order and waits for its certificate. */
  method FinalizeAndFetch(order: Order, csr: string, ghost from: nat)
    returns (r: Result<string, AcmeError>, ghost finalizing: seq<Ask>, ghost fetching: seq<Ask>, ghost polls: nat)
    requires order.Going(from) && ReadyOrValid(Some(order.state))
    modifies order, order.conn
    ensures r.Ok? ==> order.Going(from)
    ensures Went(old(order.conn.log), order.conn.log, finalizing + fetching, from)
    ensures finalizing == [] || (|finalizing| == 1 && finalizing[0].Finalize? && finalizing[0].csr == csr)
    ensures polls <= 11 && PollsThenDownload(fetching, order.url, polls)
    ensures ShownAuthorizations(order.conn.log) == ShownAuthorizations(old(order.conn.log))
    ensures r.Ok? ==> finalizing != [] && |fetching| == polls + 1 && Issued(order.conn.log, r.value)
    ensures r.Err? ==> IssuingFault(order.conn, |fetching|, r.error)
    ensures r == Err(NoCertificate) ==> finalizing != [] && |fetching| == polls == 11
  {
    hide LastOrder, Asks, Sound, Carried, Continues, ShownAuthorizations, ShownOrder, Issued, Allowed, Went,
         Order.Current, Order.Going, Fault;
    ghost var log0 := order.conn.log;
    MayFinalize(order, from, csr);
    var finalized;
    finalized, finalizing := order.Observe(Finalize(order.state.finalize, csr), from);
    fetching, polls := [], 0;
    if finalized.Err? {
      assert finalizing + [] == finalizing;
      NotGivenUp(order.conn);
      return Err(finalized.error), finalizing, fetching, polls;
    }
    ghost var log1 := order.conn.log;
    r, fetching, polls := AwaitCertificate(order, from);
    NotGivenUp(order.conn);
    WentOn(log0, log1, order.conn.log, finalizing, fetching, from);
  }

  /** Opens an order and brings it to where it can be finalized; a new order may already be there. */
  method ReachReady(conn: Connection, sink: ChallengeSink, keyAuthorization: string -> string, ghost from: nat)
    returns (r: Result<Order, AcmeError>, ghost t: Trace, ghost url: string, ghost first: OrderState,
             ghost authorizations: seq<Authorization>, ghost chosen: seq<Challenge>, ghost withdrawn: nat)
    requires Sound(conn.log, from) && from == |conn.log|
    modifies conn, sink
    ensures Went(old(conn.log), conn.log, Spell(t), from) && Shaped(t, url) && t.finalizing == t.fetching == []
    ensures r.Ok? ==> fresh(r.value) && r.value.conn == conn && r.value.url == url
    ensures r.Ok? ==> r.value.Going(from) && ReadyOrValid(Some(r.value.state))
    ensures r.Ok? ==> t.opening == [NewOrder] && Opened(conn.log, from, first, url)
    ensures r.Ok? ==>
              || first.status == Pending
              || (ReadyOrValid(Some(first)) && t.gets == t.readies == t.refreshes == [] && chosen == [])
    ensures r.Ok? && first.status == Pending ==>
              && Challenged(t, first, authorizations, chosen) && t.refreshes != []
              && ShownAuthorizations(conn.log) == ShownAuthorizations(old(conn.log)) + authorizations
    ensures SinkMoved(sink, old(sink.placed), old(sink.cleared), old(sink.entries), Tokens(chosen),
                      withdrawn, keyAuthorization)
    ensures r.Ok? ==> withdrawn == |chosen|
    ensures r == Err(NotReady) ==> withdrawn == 0
    ensures r.Err? ==> ReachingFault(conn, sink, |t.refreshes|, r.error)
  {
    hide LastOrder, Asks, Sound, Carried, Continues, ShownAuthorizations, Chosen, SetOf, Opened, ShownOrder, Went,
         Spell, Shaped, Challenged, Tokens, Urls, AsAsks, OpeningTrace, SinkMoved, Published, OpeningFault,
         ControlFault;
    ghost var log0 := conn.log;
    authorizations, chosen, url, withdrawn := [], [], "", 0;
    MovedNothing(sink, keyAuthorization);
    first := OrderState(Invalid, [], false, "", None);
    var found, opening := OpenOrder(conn, from);
    assert opening + [] == opening;
    if found.Err? {
      NothingSent("");
      t := OpeningTrace(opening, NOTHING, "");
      return Err(found.error), t, url, first, authorizations, chosen, withdrawn;
    }
    var order := found.value;
    url, first := order.url, order.state;
    OpenedBefore(conn.log, |log0|, from, first, url);
    NothingSent(url);
    t := OpeningTrace(opening, NOTHING, url);
    ghost var log1 := conn.log;
    match order.state.status {
      case Pending =>
        var proved;
        ghost var phase;
        proved, phase, authorizations, chosen, withdrawn := ProveControl(order, sink, keyAuthorization, from);
        WentOn(log0, log1, conn.log, opening, Spell(phase), from);
        StillOpened(log1, conn.log, from, first, url);
        t := OpeningTrace(opening, phase, url);
        if proved.Err? {
          return Err(proved.error), t, url, first, authorizations, chosen, withdrawn;
        }
        CarriedOver(phase, t, first, authorizations, chosen);
      case Ready =>
      case Valid =>
      case Invalid =>
        SeenInvalid(conn, sink);
        return Err(OrderInvalid), t, url, first, authorizations, chosen, withdrawn;
      case Processing =>
        return Err(UnexpectedOrder), t, url, first, authorizations, chosen, withdrawn;
    }
    return Ok(order), t, url, first, authorizations, chosen, withdrawn;
  }

  /**
   The whole run. Whatever the server does:
   every POST carries the nonce of the reply just before it, one is fetched only when that reply brought none, and
   nothing is sent after a reply that cannot be read; the order is finalized only when last shown ready or
   valid, and at its finalize URL; a certificate is downloaded only when the order was last shown valid and without
   error, at its certificate URL; and the requests come in phases, with at most four refreshes and eleven polls.
   On success the certificate is what was just downloaded, for the key asked for, and every challenge that was placed
   has been cleared.
   */
  method FinishProvision(conn: Connection, sink: ChallengeSink, keyAuthorization: string -> string,
                         existing: Option<string>, csrOf: string -> Option<string>, generated: Option<(string, string)>)
    returns (r: Result<Outcome, AcmeError>, ghost t: Trace, ghost url: string, ghost first: OrderState,
             ghost authorizations: seq<Authorization>, ghost chosen: seq<Challenge>, ghost withdrawn: nat)
    modifies conn, sink
    ensures Went(old(conn.log), conn.log, Spell(t), |old(conn.log)|) && Shaped(t, url)
    ensures r.Ok? ==> t.opening == [NewOrder] && Opened(conn.log, |old(conn.log)|, first, url)
    ensures r.Ok? ==>
              || first.status == Pending
              || (ReadyOrValid(Some(first)) && t.gets == t.readies == t.refreshes == [] && chosen == [])
    ensures r.Ok? && first.status == Pending ==>
              && Challenged(t, first, authorizations, chosen) && t.refreshes != []
              && ShownAuthorizations(conn.log) == ShownAuthorizations(old(conn.log)) + authorizations
    ensures SinkMoved(sink, old(sink.placed), old(sink.cleared), old(sink.entries), Tokens(chosen),
                      withdrawn, keyAuthorization)
    ensures r.Ok? ==> Withdrawn(sink, old(sink.placed), old(sink.cleared), old(sink.entries), Tokens(chosen))
    ensures r.Ok? ==>
              && |t.finalizing| == 1
              && (existing.Some? ==>
                    r.value.privateKeyPem == existing.value && csrOf(existing.value) == Some(t.finalizing[0].csr))
              && (existing.None? ==> generated == Some((r.value.privateKeyPem, t.finalizing[0].csr)))
    ensures r.Ok? ==> |t.fetching| == t.polls + 1 && Issued(conn.log, r.value.certificateChainPem)
    ensures r == Err(NotReady) ==> |t.refreshes| == 4 && t.finalizing == [] && sink.cleared == old(sink.cleared)
    ensures r == Err(NoCertificate) ==> |t.finalizing| == 1 && |t.fetching| == t.polls == 11
    ensures r.Err? ==> || ReachingFault(conn, sink, |t.refreshes|, r.error)
                       || IssuingFault(conn, |t.fetching|, r.error)
                       || (r.error == BadKey && if existing.Some? then csrOf(existing.value).None? else generated.None?)
  {
    hide LastOrder, Asks, Sound, Carried, Continues, ShownAuthorizations, Published, Chosen, Issued, SetOf,
         IsFirstHttp01, Opened, ShownOrder, Went, Spell, Shaped, Challenged, Withdrawn, Tokens, Urls, AsAsks,
         Order.Current, Order.Going, Allowed, RunTrace, SinkMoved, ReachingFault, CertificateFault;
    ghost var from, log0 := |conn.log|, conn.log;
    SoundFromEnd(log0);
    var order;
    ghost var phase;
    order, phase, url, first, authorizations, chosen, withdrawn := ReachReady(conn, sink, keyAuthorization, from);
    t := phase;
    if order.Err? {
      NotReadyMeans(conn, sink, |t.refreshes|);
      if order.error == NotReady {
        NothingCleared(sink, old(sink.placed), old(sink.cleared), old(sink.entries), Tokens(chosen), keyAuthorization);
      }
      return Err(order.error), t, url, first, authorizations, chosen, withdrawn;
    }
    var key := KeyAndCsr(existing, csrOf, generated);
    if key.None? {
      return Err(BadKey), t, url, first, authorizations, chosen, withdrawn;
    }
    ghost var log1 := conn.log;
    var chain, finalizing, fetching, polls := FinalizeAndFetch(order.value, key.value.1, from);
    WentOn(log0, log1, conn.log, Spell(phase), finalizing + fetching, from);
    StillOpened(log1, conn.log, from, first, url);
    t := RunTrace(phase, finalizing, fetching, polls, url);
    if chain.Err? {
      NotGivenUp(conn);
      return Err(chain.error), t, url, first, authorizations, chosen, withdrawn;
    }
    if first.status == Pending {
      CarriedOver(phase, t, first, authorizations, chosen);
    }
    TokenCount(chosen);
    AllCleared(sink, old(sink.placed), old(sink.cleared), old(sink.entries), Tokens(chosen), keyAuthorization);
    return Ok(Outcome(key.value.0, chain.value)), t, url, first, authorizations, chosen, withdrawn;
  }

  ghost function RunTrace(phase: Trace, finalizing: seq<Ask>, fetching: seq<Ask>, polls: nat, url: string): (t: Trace)
    requires Shaped(phase, url) && phase.finalizing == phase.fetching == []
    requires finalizing == [] || (|finalizing| == 1 && finalizing[0].Finalize?)
    requires polls <= 11 && PollsThenDownload(fetching, url, polls)
    ensures Shaped(t, url) && Spell(t) == Spell(phase) + (finalizing + fetching)
    ensures t == phase.(finalizing := finalizing, fetching := fetching, polls := polls)
  {
    var t := phase.(finalizing := finalizing, fetching := fetching, polls := polls);
    assert Spell(t) == Spell(phase) + (finalizing + fetching);
    t
  }

  /** Puts the opening request in front of the challenge phase. */
  ghost function OpeningTrace(opening: seq<Ask>, phase: Trace, url: string): (t: Trace)
    requires opening == [] || opening == [NewOrder]
    requires Shaped(phase, url) && phase.opening == phase.finalizing == phase.fetching == []
    ensures Shaped(t, url) && Spell(t) == opening + Spell(phase)
    ensures t == phase.(opening := opening)
  {
    var t := phase.(opening := opening);
    assert Spell(t) == opening + Spell(phase);
    t
  }

  lemma {:induction false} NothingSent(url: string)
    ensures Shaped(NOTHING, url) && Spell(NOTHING) == []
  {
  }

  lemma {:induction false} CarriedOver(phase: Trace, t: Trace, first: OrderState,
    authorizations: seq<Authorization>, chosen: seq<Challenge>)
    requires Challenged(phase, first, authorizations, chosen) && t.gets == phase.gets && t.readies == phase.readies
    ensures Challenged(t, first, authorizations, chosen)
  {
    hide Chosen;
  }

  lemma {:induction false} MayFinalize(order: Order, from: nat, csr: string)
    requires order.Going(from) && ReadyOrValid(Some(order.state))
    ensures Allowed(order.conn.log, Finalize(order.state.finalize, csr))
  {
    hide LastOrder, Sound, Continues;
  }

  lemma {:induction false} SoundFromEnd(log: seq<Exchange>)
    ensures Sound(log, |log|)
  {
  }

  lemma {:induction false} NotReadyMeans(conn: Connection, sink: ChallengeSink, refreshes: nat)
    ensures ReachingFault(conn, sink, refreshes, NotReady) ==> refreshes == 4
    ensures !ReachingFault(conn, sink, refreshes, NoCertificate)
  {
    hide LastOrder, ShownAuthorizations;
  }

  lemma {:induction false} NothingCleared(
    sink: ChallengeSink, placed: seq<string>, cleared: seq<string>, entries: map<string, string>, tokens: seq<string>,
    keyAuthorization: string -> string)
    requires SinkMoved(sink, placed, cleared, entries, tokens, 0, keyAuthorization)
    ensures sink.cleared == cleared
  {
    assert tokens[..0] == [];
  }

  lemma {:induction false} TokenCount(chosen: seq<Challenge>)
    ensures |Tokens(chosen)| == |chosen|
  {
  }

  lemma {:induction false} SeenInvalid(conn: Connection, sink: ChallengeSink)
    requires LastOrder(conn.log).Some? && LastOrder(conn.log).value.status == Invalid
    ensures ControlFault(conn, sink, 0, OrderInvalid)
  {
    hide LastOrder;
  }

  lemma {:induction false} OpenedBefore(log: seq<Exchange>, later: nat, from: nat, first: OrderState, url: string)
    requires Opened(log, later, first, url) && from <= later
    ensures Opened(log, from, first, url)
  {
    hide ShownOrder;
  }

  lemma {:induction false} StillOpened(before: seq<Exchange>, after: seq<Exchange>, from: nat, first: OrderState,
    url: string)
    requires Opened(before, from, first, url) && before <= after
    ensures Opened(after, from, first, url)
  {
    hide ShownOrder;
    var i :| from <= i < |before| && before[i].ask == NewOrder && ShownOrder(NewOrder, before[i].reply) == Some(first)
             && before[i].reply.Reply? && before[i].reply.location == Some(url);
    assert after[i] == before[i];
  }

  // ---- What the phases add up to ---------------------------------------------------------

  predicate IsRefresh(a: Ask) { a.Refresh? }

  predicate IsPollOrder(a: Ask) { a.PollOrder? }

  predicate IsFinalize(a: Ask) { a.Finalize? }

  predicate IsDownload(a: Ask) { a.Download? }

  function Count(asks: seq<Ask>, p: Ask -> bool): nat {
    if asks == [] then 0 else (if p(asks[0]) then 1 else 0) + Count(asks[1..], p)
  }

  lemma {:induction false} CountOfSum(a: seq<Ask>, b: seq<Ask>, p: Ask -> bool)
    ensures Count(a + b, p) == Count(a, p) + Count(b, p)
    decreases |a|
  {
    if a == [] {
      assert a + b == b;
    } else {
      assert (a + b)[1..] == a[1..] + b;
      CountOfSum(a[1..], b, p);
    }
  }

  lemma {:induction false} CountIsAtMost(a: seq<Ask>, p: Ask -> bool)
    ensures Count(a, p) <= |a|
    ensures (forall i :: 0 <= i < |a| ==> p(a[i])) ==> Count(a, p) == |a|
    ensures (forall i :: 0 <= i < |a| ==> !p(a[i])) ==> Count(a, p) == 0
    decreases |a|
  {
    if a != [] {
      CountIsAtMost(a[1..], p);
    }
  }

  lemma {:induction false} CountOfSpelling(t: Trace, p: Ask -> bool)
    ensures Count(Spell(t), p) == Count(t.opening, p) + Count(t.gets, p) + Count(t.readies, p) + Count(t.refreshes, p)
                                  + Count(t.finalizing, p) + Count(t.fetching, p)
  {
    CountOfSum(t.opening, t.gets, p);
    CountOfSum(t.opening + t.gets, t.readies, p);
    CountOfSum(t.opening + t.gets + t.readies, t.refreshes, p);
    CountOfSum(t.opening + t.gets + t.readies + t.refreshes, t.finalizing, p);
    CountOfSum(t.opening + t.gets + t.readies + t.refreshes + t.finalizing, t.fetching, p);
  }

  lemma {:induction false} CountEachPhase(t: Trace, p: Ask -> bool)
    ensures Count(t.opening, p) <= |t.opening| && Count(t.refreshes, p) <= |t.refreshes|
            && Count(t.finalizing, p) <= |t.finalizing|
    ensures (forall i :: 0 <= i < |t.opening| ==> !p(t.opening[i])) ==> Count(t.opening, p) == 0
    ensures (forall i :: 0 <= i < |t.gets| ==> !p(t.gets[i])) ==> Count(t.gets, p) == 0
    ensures (forall i :: 0 <= i < |t.readies| ==> !p(t.readies[i])) ==> Count(t.readies, p) == 0
    ensures (forall i :: 0 <= i < |t.refreshes| ==> !p(t.refreshes[i])) ==> Count(t.refreshes, p) == 0
    ensures (forall i :: 0 <= i < |t.finalizing| ==> !p(t.finalizing[i])) ==> Count(t.finalizing, p) == 0
    ensures (forall i :: 0 <= i < |t.fetching| ==> !p(t.fetching[i])) ==> Count(t.fetching, p) == 0
  {
    CountIsAtMost(t.opening, p);
    CountIsAtMost(t.gets, p);
    CountIsAtMost(t.readies, p);
    CountIsAtMost(t.refreshes, p);
    CountIsAtMost(t.finalizing, p);
    CountIsAtMost(t.fetching, p);
  }

  lemma {:induction false} CountOfFetching(t: Trace, url: string)
    requires Shaped(t, url)
    ensures Count(t.fetching, IsPollOrder) <= 11
    ensures Count(t.fetching, IsDownload) <= 1
  {
    var n := if |t.fetching| <= t.polls then |t.fetching| else t.polls;
    var polls, rest := t.fetching[..n], t.fetching[n..];
    assert t.fetching == polls + rest && |rest| <= 1;
    CountOfSum(polls, rest, IsPollOrder);
    CountOfSum(polls, rest, IsDownload);
    CountIsAtMost(polls, IsPollOrder);
    CountIsAtMost(polls, IsDownload);
    CountIsAtMost(rest, IsDownload);
    CountIsAtMost(rest, IsPollOrder);
  }

  /** No run sends more than four refreshes, eleven polls, one finalization and one download. */
  lemma {:induction false} TrafficIsBounded(t: Trace, url: string)
    requires Shaped(t, url)
    ensures Count(Spell(t), IsRefresh) <= 4
    ensures Count(Spell(t), IsPollOrder) <= 11
    ensures Count(Spell(t), IsFinalize) <= 1
    ensures Count(Spell(t), IsDownload) <= 1
  {
    hide Count, Spell;
    CountOfFetching(t, url);
    CountOfSpelling(t, IsRefresh);
    CountEachPhase(t, IsRefresh);
    CountOfSpelling(t, IsPollOrder);
    CountEachPhase(t, IsPollOrder);
    CountOfSpelling(t, IsFinalize);
    CountEachPhase(t, IsFinalize);
    CountOfSpelling(t, IsDownload);
    CountEachPhase(t, IsDownload);
  }
}
