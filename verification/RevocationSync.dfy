/**
 The remote authenticator under concurrency: any number of request threads, direct syncs, pushed
 revocations and a background poller share a revocation set, an authorization cache, an epoch and
 a poll deadline. Every lock-protected or atomic access is one step; steps interleave freely with
 each other and with the L0 server, which may answer any way its interface allows.

 Signatures, hashing, L0's answers and the wall clock are inputs; a poisoned lock does not occur.
 */
module RevocationSync {
  import opened Prelude

  datatype Revocation = Revocation(keyId: string, epoch: nat, signature: string)

  datatype Authz = Authz(keyId: string, keyHash: string, policy: string, expMs: nat, epoch: nat, signature: string)

  datatype ApiKey = ApiKey(keyId: string, fullKey: string)

  /** Signature checks under the configured key, the key hash, and the poll interval. */
  datatype Setup = Setup(
    revocationOk: Revocation -> bool, authzOk: Authz -> bool, hash: string -> string, interval: nat)

  datatype Delta = Delta(epoch: nat, frames: seq<Revocation>)

  // ---- The L0 server ---------------------------------------------------------------------

  datatype Entry = Entry(epoch: nat, key: string)

  /** Everything revoked so far, stamped with the epoch it was revoked in. */
  datatype L0 = L0(epoch: nat, revoked: set<Entry>)

  /** Local knowledge covers every revocation up to the epoch. */
  ghost predicate Covers(known: set<string>, l0: L0, epoch: nat) {
    forall e :: e in l0.revoked && e.epoch <= epoch ==> e.key in known
  }

  ghost predicate Announces(frames: seq<Revocation>, key: string) {
    exists i :: 0 <= i < |frames| && frames[i].keyId == key
  }

  /** An answer to "what was revoked after `since`": nothing up to the reported epoch is left out. */
  ghost predicate IsAnswer(l0: L0, since: nat, d: Delta) {
    && d.epoch <= l0.epoch
    && forall e :: e in l0.revoked && since < e.epoch <= d.epoch ==> Announces(d.frames, e.key)
  }

  // ---- Threads ---------------------------------------------------------------------------

  /** An authentication under way: its number, the presented key and the clock reading it took. */
  datatype Auth = Auth(op: nat, key: ApiKey, now: nat)

  /** Who runs a sync and what happens after it. */
  datatype Caller = Direct | Poller | Convoy(auth: Auth, authz: Authz)

  datatype Task =
    | Idle
    | ApplyInsert(rev: Revocation)
    | ApplyEvict(rev: Revocation)
    | SyncLoad(caller: Caller)
    | SyncFetch(since: nat, caller: Caller)
    | SyncInsert(since: nat, delta: Delta, i: nat, caller: Caller)
    | SyncEvict(since: nat, delta: Delta, i: nat, caller: Caller)
    | SyncStore(since: nat, delta: Delta, caller: Caller)
    | SyncReset(delta: Delta, caller: Caller)
    | PollWait
    | PollFailed
    | AuthCheck(op: nat, key: ApiKey)
    | AuthClock(op: nat, key: ApiKey)
    | AuthCache(auth: Auth)
    | AuthAsk(auth: Auth)
    | AuthStore(auth: Auth, authz: Authz)
    | AuthConvoy(auth: Auth, authz: Authz)
    | AuthReset(auth: Auth, authz: Authz)

  /** A returned success: which call, on the strength of which authorization. */
  datatype Success = Success(auth: Auth, authz: Authz, cached: bool)

  /**
   A postponed poll: the epoch reported by the response behind it (none after a failed poll) and what was known then.
   */
  datatype Reset = Reset(reported: Option<nat>, known: set<string>, l0: L0)

  datatype State = State(
    revocations: set<string>, cache: map<string, Authz>, localEpoch: nat, nextDue: int, clock: int,
    l0: L0, tasks: map<nat, Task>, nextOp: nat,
    issued: set<Authz>, successes: set<Success>, resets: set<Reset>)

  function Start(c: Setup): State {
    State({}, map[], 0, c.interval, 0, L0(0, {}), map[], 0, {}, {}, {})
  }

  // ---- Steps of one thread ---------------------------------------------------------------

  /** What the outside world contributes to a step. */
  datatype Input = Nothing | Answered(delta: Delta) | Granted(authz: Authz) | Failed | ClockReads(now: nat)

  function Put(s: State, t: nat, task: Task): State {
    s.(tasks := s.tasks[t := task])
  }

  /** Postpones the poll. */
  function ResetClock(c: Setup, s: State, reported: Option<nat>): State {
    s.(nextDue := s.clock + c.interval, resets := s.resets + {Reset(reported, s.revocations, s.l0)})
  }

  function Succeed(s: State, auth: Auth, authz: Authz, cached: bool): State {
    s.(successes := s.successes + {Success(auth, authz, cached)})
  }

  /** The end of a sync; an authentication ignores how its convoy went. */
  function AfterSync(s: State, t: nat, caller: Caller, ok: bool): State {
    match caller
    case Direct => Put(s, t, Idle)
    case Poller => Put(s, t, if ok then PollWait else PollFailed)
    case Convoy(auth, authz) => Put(Succeed(s, auth, authz, false), t, Idle)
  }

  function NextFrame(since: nat, delta: Delta, i: nat, caller: Caller): Task {
    if i < |delta.frames| then SyncInsert(since, delta, i, caller) else SyncStore(since, delta, caller)
  }

  /** The authorization answers this call: signed, for this key's hash, not expired. */
  predicate Answers(c: Setup, auth: Auth, authz: Authz) {
    c.authzOk(authz) && authz.keyHash == c.hash(auth.key.fullKey) && authz.expMs > auth.now
  }

  predicate CacheOffers(c: Setup, s: State, auth: Auth) {
    && auth.key.keyId in s.cache
    && s.cache[auth.key.keyId].expMs > auth.now
    && s.cache[auth.key.keyId].keyHash == c.hash(auth.key.fullKey)
  }

  ghost predicate Enabled(c: Setup, s: State, t: nat, input: Input) {
    && t in s.tasks
    && match s.tasks[t]
       case Idle => false
       case PollWait => s.clock >= s.nextDue
       case SyncFetch(since, _) => input == Failed || (input.Answered? && IsAnswer(s.l0, since, input.delta))
       case SyncInsert(_, delta, i, _) => i < |delta.frames|
       case SyncEvict(_, delta, i, _) => i < |delta.frames|
       case AuthClock(_, _) => input.ClockReads?
       case AuthAsk(_) => input == Failed || input.Granted?
       case _ => true
  }

  ghost function Step(c: Setup, s: State, t: nat, input: Input): State
    requires Enabled(c, s, t, input)
  {
    match s.tasks[t]
    case ApplyInsert(rev) =>
      if c.revocationOk(rev) then Put(s.(revocations := s.revocations + {rev.keyId}), t, ApplyEvict(rev))
      else Put(s, t, Idle)
    case ApplyEvict(rev) => Put(s.(cache := s.cache - {rev.keyId}), t, Idle)
    case SyncLoad(caller) => Put(s, t, SyncFetch(s.localEpoch, caller))
    case SyncFetch(since, caller) =>
      if input.Answered? then Put(s, t, NextFrame(since, input.delta, 0, caller)) else AfterSync(s, t, caller, false)
    case SyncInsert(since, delta, i, caller) =>
      if c.revocationOk(delta.frames[i]) then
        Put(s.(revocations := s.revocations + {delta.frames[i].keyId}), t, SyncEvict(since, delta, i, caller))
      else AfterSync(s, t, caller, false)
    case SyncEvict(since, delta, i, caller) =>
      Put(s.(cache := s.cache - {delta.frames[i].keyId}), t, NextFrame(since, delta, i + 1, caller))
    case SyncStore(since, delta, caller) =>
      Put(if delta.epoch > since then s.(localEpoch := delta.epoch) else s, t, SyncReset(delta, caller))
    case SyncReset(delta, caller) => AfterSync(ResetClock(c, s, Some(delta.epoch)), t, caller, true)
    case PollWait => Put(s, t, SyncLoad(Poller))
    case PollFailed => Put(ResetClock(c, s, None), t, PollWait)
    case AuthCheck(op, key) => Put(s, t, if key.keyId in s.revocations then Idle else AuthClock(op, key))
    case AuthClock(op, key) => Put(s, t, AuthCache(Auth(op, key, input.now)))
    case AuthCache(auth) =>
      if !CacheOffers(c, s, auth) then Put(s, t, AuthAsk(auth))
      else if !c.authzOk(s.cache[auth.key.keyId]) then Put(s, t, Idle)
      else Put(Succeed(s, auth, s.cache[auth.key.keyId], true), t, Idle)
    case AuthAsk(auth) =>
      if input == Failed then Put(s, t, Idle)
      else
        Put(s.(issued := s.issued + {input.authz}), t,
          if Answers(c, auth, input.authz) then AuthStore(auth, input.authz) else Idle)
    case AuthStore(auth, authz) =>
      if c.authzOk(authz) then Put(s.(cache := s.cache[authz.keyId := authz]), t, AuthConvoy(auth, authz))
      else Put(s, t, Idle)
    case AuthConvoy(auth, authz) =>
      Put(s, t, if authz.epoch > s.localEpoch then SyncLoad(Convoy(auth, authz)) else AuthReset(auth, authz))
    case AuthReset(auth, authz) => Put(Succeed(ResetClock(c, s, Some(authz.epoch)), auth, authz, false), t, Idle)
  }

  // ---- Everything that can happen --------------------------------------------------------

  datatype Action =
    | Revoke(ids: set<string>)
    | BumpEpoch
    | Tick(dt: nat)
    | BeginApply(t: nat, rev: Revocation)
    | BeginSync(t: nat)
    | BeginPoller(t: nat)
    | BeginAuth(t: nat, key: ApiKey)
    | Thread(t: nat, input: Input)

  ghost predicate CanHappen(c: Setup, s: State, a: Action) {
    match a
    case Thread(t, input) => Enabled(c, s, t, input)
    case BeginApply(t, _) => t !in s.tasks || s.tasks[t] == Idle
    case BeginSync(t) => t !in s.tasks || s.tasks[t] == Idle
    case BeginPoller(t) => t !in s.tasks || s.tasks[t] == Idle
    case BeginAuth(t, _) => t !in s.tasks || s.tasks[t] == Idle
    case _ => true
  }

  ghost function Happen(c: Setup, s: State, a: Action): State
    requires CanHappen(c, s, a)
  {
    match a
    case Revoke(ids) =>
      s.(l0 := L0(s.l0.epoch + 1, s.l0.revoked + (set id | id in ids :: Entry(s.l0.epoch + 1, id))))
    case BumpEpoch => s.(l0 := s.l0.(epoch := s.l0.epoch + 1))
    case Tick(dt) => s.(clock := s.clock + dt)
    case BeginApply(t, rev) => Put(s, t, ApplyInsert(rev))
    case BeginSync(t) => Put(s, t, SyncLoad(Direct))
    case BeginPoller(t) => Put(s, t, PollWait)
    case BeginAuth(t, key) => Put(s, t, AuthCheck(s.nextOp, key)).(nextOp := s.nextOp + 1)
    case Thread(t, input) => Step(c, s, t, input)
  }

  /** The state after a run, if every action of it could happen. */
  ghost function After(c: Setup, s: State, run: seq<Action>): Option<State>
    decreases |run|
  {
    if run == [] then Some(s)
    else if CanHappen(c, s, run[0]) then After(c, Happen(c, s, run[0]), run[1..])
    else None
  }

  ghost predicate Reachable(c: Setup, s: State) {
    exists run :: After(c, Start(c), run) == Some(s)
  }

  // ---- The invariant ---------------------------------------------------------------------

  ghost predicate AllIn(frames: seq<Revocation>, n: nat, known: set<string>) {
    forall i :: 0 <= i < n && i < |frames| ==> frames[i].keyId in known
  }

  predicate AllSigned(c: Setup, frames: seq<Revocation>, n: nat) {
    forall i :: 0 <= i < n && i < |frames| ==> c.revocationOk(frames[i])
  }

  /** An epoch L0 has already passed and whose revocations are all known. */
  ghost predicate Settled(s: State, epoch: nat) {
    epoch <= s.l0.epoch && Covers(s.revocations, s.l0, epoch)
  }

  ghost predicate Backed(c: Setup, s: State, auth: Auth, authz: Authz) {
    Answers(c, auth, authz) && authz in s.issued
  }

  ghost predicate CallerOk(c: Setup, s: State, caller: Caller) {
    caller.Convoy? ==> Backed(c, s, caller.auth, caller.authz)
  }

  ghost predicate SyncOk(c: Setup, s: State, since: nat, delta: Delta, done: nat, caller: Caller) {
    && Settled(s, since)
    && IsAnswer(s.l0, since, delta)
    && AllIn(delta.frames, done, s.revocations)
    && AllSigned(c, delta.frames, done)
    && CallerOk(c, s, caller)
  }

  ghost predicate TaskOk(c: Setup, s: State, task: Task) {
    match task
    case ApplyEvict(rev) => c.revocationOk(rev) && rev.keyId in s.revocations
    case SyncLoad(caller) => CallerOk(c, s, caller)
    case SyncFetch(since, caller) => Settled(s, since) && CallerOk(c, s, caller)
    case SyncInsert(since, delta, i, caller) => SyncOk(c, s, since, delta, i, caller)
    case SyncEvict(since, delta, i, caller) => SyncOk(c, s, since, delta, i + 1, caller)
    case SyncStore(since, delta, caller) => SyncOk(c, s, since, delta, |delta.frames|, caller)
    case SyncReset(delta, caller) => Settled(s, delta.epoch) && CallerOk(c, s, caller)
    case AuthStore(auth, authz) => Backed(c, s, auth, authz)
    case AuthConvoy(auth, authz) => Backed(c, s, auth, authz)
    case AuthReset(auth, authz) => Backed(c, s, auth, authz) && Settled(s, authz.epoch)
    case _ => true
  }

  ghost predicate CacheOk(c: Setup, s: State) {
    forall k :: k in s.cache ==> s.cache[k].keyId == k && s.cache[k] in s.issued && c.authzOk(s.cache[k])
  }

  ghost predicate ResetsOk(s: State) {
    forall r :: r in s.resets && r.reported.Some? ==> Covers(r.known, r.l0, r.reported.value)
  }

  ghost predicate SuccessesOk(c: Setup, s: State) {
    forall x :: x in s.successes ==> Backed(c, s, x.auth, x.authz) && (x.cached ==> x.authz.keyId == x.auth.key.keyId)
  }

  ghost predicate L0Ok(l0: L0) {
    forall e :: e in l0.revoked ==> e.epoch <= l0.epoch
  }

  ghost predicate Inv(c: Setup, s: State) {
    && L0Ok(s.l0)
    && Settled(s, s.localEpoch)
    && (forall t :: t in s.tasks ==> TaskOk(c, s, s.tasks[t]))
    && CacheOk(c, s)
    && ResetsOk(s)
    && SuccessesOk(c, s)
  }

  /** Knowledge and L0 only grow, and L0 never adds to an epoch it has passed. */
  ghost predicate Grows(s: State, s': State) {
    && s.revocations <= s'.revocations
    && s.issued <= s'.issued
    && s.l0.epoch <= s'.l0.epoch
    && s.l0.revoked <= s'.l0.revoked
    && forall e :: e in s'.l0.revoked && e !in s.l0.revoked ==> e.epoch > s.l0.epoch
  }

  lemma {:induction false} SettledGrows(s: State, s': State, epoch: nat)
    requires Grows(s, s') && Settled(s, epoch)
    ensures Settled(s', epoch)
  {
  }

  lemma {:induction false} TaskOkGrows(c: Setup, s: State, s': State, task: Task)
    requires Grows(s, s') && TaskOk(c, s, task)
    ensures TaskOk(c, s', task)
  {
    match task
    case SyncInsert(since, delta, i, caller) => SyncOkGrows(c, s, s', since, delta, i, caller);
    case SyncEvict(since, delta, i, caller) => SyncOkGrows(c, s, s', since, delta, i + 1, caller);
    case SyncStore(since, delta, caller) => SyncOkGrows(c, s, s', since, delta, |delta.frames|, caller);
    case SyncFetch(since, caller) => SettledGrows(s, s', since);
    case SyncReset(delta, caller) => SettledGrows(s, s', delta.epoch);
    case AuthReset(auth, authz) => SettledGrows(s, s', authz.epoch);
    case _ =>
  }

  lemma {:induction false} SyncOkGrows(
    c: Setup, s: State, s': State, since: nat, delta: Delta, done: nat, caller: Caller)
    requires Grows(s, s') && SyncOk(c, s, since, delta, done, caller)
    ensures SyncOk(c, s', since, delta, done, caller)
  {
    SettledGrows(s, s', since);
  }

  /** When every frame of a complete answer has been applied, the reported epoch is covered. */
  lemma {:induction false} AppliedAnswerCovers(c: Setup, s: State, since: nat, delta: Delta, caller: Caller)
    requires SyncOk(c, s, since, delta, |delta.frames|, caller)
    ensures Settled(s, delta.epoch)
  {
    forall e | e in s.l0.revoked && e.epoch <= delta.epoch
      ensures e.key in s.revocations
    {
      if e.epoch > since {
        assert Announces(delta.frames, e.key);
      }
    }
  }

  /** Changing one thread's task, with everything else only growing. */
  lemma {:induction false} OtherTasksStayOk(c: Setup, s: State, s': State, t: nat)
    requires Inv(c, s) && Grows(s, s') && t in s'.tasks
    requires s'.tasks == s.tasks[t := s'.tasks[t]] && TaskOk(c, s', s'.tasks[t])
    ensures forall u :: u in s'.tasks ==> TaskOk(c, s', s'.tasks[u])
  {
    hide TaskOk, Grows;
    forall u | u in s'.tasks
      ensures TaskOk(c, s', s'.tasks[u])
    {
      if u != t {
        TaskOkGrows(c, s, s', s.tasks[u]);
      }
    }
  }

  predicate IsSyncTask(task: Task) {
    || task.SyncLoad? || task.SyncFetch? || task.SyncInsert? || task.SyncEvict? || task.SyncStore? || task.SyncReset?
  }

  predicate IsAuthTask(task: Task) {
    || task.AuthCheck? || task.AuthClock? || task.AuthCache? || task.AuthAsk?
    || task.AuthStore? || task.AuthConvoy? || task.AuthReset?
  }

  // ---- The invariant holds in every run --------------------------------------------------

  /** A thread step that touches only its own task and grows knowledge: what remains to show. */
  lemma {:induction false} StepKeepsInv(c: Setup, s: State, t: nat, input: Input)
    requires Inv(c, s) && Enabled(c, s, t, input)
    ensures Inv(c, Step(c, s, t, input))
  {
    var task := s.tasks[t];
    if task.ApplyInsert? || task.ApplyEvict? || task.PollWait? || task.PollFailed? {
      PlainStepKeepsInv(c, s, t, input);
    } else if IsSyncTask(task) {
      SyncStepKeepsInv(c, s, t, input);
    } else {
      AuthStepKeepsInv(c, s, t, input);
    }
  }

  lemma {:induction false} PlainStepKeepsInv(c: Setup, s: State, t: nat, input: Input)
    requires Inv(c, s) && Enabled(c, s, t, input)
    requires var task := s.tasks[t]; task.ApplyInsert? || task.ApplyEvict? || task.PollWait? || task.PollFailed?
    ensures Inv(c, Step(c, s, t, input))
  {
    var s' := Step(c, s, t, input);
    assert Grows(s, s');
    SettledGrows(s, s', s.localEpoch);
    OtherTasksStayOk(c, s, s', t);
    hide TaskOk;
  }

  lemma {:induction false} AfterSyncKeepsInv(c: Setup, s: State, t: nat, caller: Caller, ok: bool)
    requires Inv(c, s) && t in s.tasks && CallerOk(c, s, caller)
    ensures Inv(c, AfterSync(s, t, caller, ok))
  {
    var s' := AfterSync(s, t, caller, ok);
    assert Grows(s, s');
    SettledGrows(s, s', s.localEpoch);
    OtherTasksStayOk(c, s, s', t);
    hide TaskOk;
  }

  lemma {:induction false} SyncStepKeepsInv(c: Setup, s: State, t: nat, input: Input)
    requires Inv(c, s) && Enabled(c, s, t, input)
    requires IsSyncTask(s.tasks[t])
    ensures Inv(c, Step(c, s, t, input))
  {
    var s' := Step(c, s, t, input);
    assert TaskOk(c, s, s.tasks[t]);
    match s.tasks[t] {
      case SyncFetch(since, caller) =>
        if input == Failed {
          AfterSyncKeepsInv(c, s, t, caller, false);
        } else {
          MoveKeepsInv(c, s, t, NextFrame(since, input.delta, 0, caller));
        }
      case SyncLoad(caller) =>
        MoveKeepsInv(c, s, t, SyncFetch(s.localEpoch, caller));
      case SyncInsert(since, delta, i, caller) =>
        if c.revocationOk(delta.frames[i]) {
          InsertKeepsInv(c, s, t, since, delta, i, caller);
        } else {
          AfterSyncKeepsInv(c, s, t, caller, false);
        }
      case SyncEvict(since, delta, i, caller) =>
        var evicted := s.(cache := s.cache - {delta.frames[i].keyId});
        EvictKeepsInv(c, s, delta.frames[i].keyId);
        MoveKeepsInv(c, evicted, t, NextFrame(since, delta, i + 1, caller));
      case SyncStore(since, delta, caller) =>
        AppliedAnswerCovers(c, s, since, delta, caller);
        var stored := if delta.epoch > since then s.(localEpoch := delta.epoch) else s;
        StoreKeepsInv(c, s, stored.localEpoch);
        MoveKeepsInv(c, stored, t, SyncReset(delta, caller));
      case SyncReset(delta, caller) =>
        ResetKeepsInv(c, s, Some(delta.epoch));
        AfterSyncKeepsInv(c, ResetClock(c, s, Some(delta.epoch)), t, caller, true);
    }
  }

  lemma {:induction false} MoveKeepsInv(c: Setup, s: State, t: nat, task: Task)
    requires Inv(c, s) && t in s.tasks && TaskOk(c, s, task)
    ensures Inv(c, Put(s, t, task))
  {
    var s' := Put(s, t, task);
    TaskOkGrows(c, s, s', task);
    OtherTasksStayOk(c, s, s', t);
    hide TaskOk;
  }

  lemma {:induction false} InsertKeepsInv(c: Setup, s: State, t: nat, since: nat, delta: Delta, i: nat, caller: Caller)
    requires Inv(c, s) && t in s.tasks && i < |delta.frames| && c.revocationOk(delta.frames[i])
    requires SyncOk(c, s, since, delta, i, caller)
    ensures Inv(c, Put(s.(revocations := s.revocations + {delta.frames[i].keyId}), t,
            SyncEvict(since, delta, i, caller)))
  {
    var s' := Put(s.(revocations := s.revocations + {delta.frames[i].keyId}), t, SyncEvict(since, delta, i, caller));
    assert Grows(s, s');
    SyncOkGrows(c, s, s', since, delta, i, caller);
    assert TaskOk(c, s', s'.tasks[t]);
    SettledGrows(s, s', s.localEpoch);
    OtherTasksStayOk(c, s, s', t);
    hide TaskOk, SyncOk;
  }

  /** Shrinking the cache, postponing the poll, and storing a settled epoch leave every task as it was. */
  lemma {:induction false} EvictKeepsInv(c: Setup, s: State, key: string)
    requires Inv(c, s)
    ensures Inv(c, s.(cache := s.cache - {key}))
  {
    SameKnowledge(c, s, s.(cache := s.cache - {key}));
    hide TaskOk;
  }

  lemma {:induction false} ResetKeepsInv(c: Setup, s: State, reported: Option<nat>)
    requires Inv(c, s) && (reported.Some? ==> Settled(s, reported.value))
    ensures Inv(c, ResetClock(c, s, reported))
  {
    SameKnowledge(c, s, ResetClock(c, s, reported));
    hide TaskOk;
  }

  lemma {:induction false} StoreKeepsInv(c: Setup, s: State, epoch: nat)
    requires Inv(c, s) && Settled(s, epoch)
    ensures Inv(c, s.(localEpoch := epoch))
  {
    SameKnowledge(c, s, s.(localEpoch := epoch));
    hide TaskOk;
  }

  lemma {:induction false} SameKnowledge(c: Setup, s: State, s': State)
    requires Grows(s, s') && s'.tasks == s.tasks
    requires forall t :: t in s.tasks ==> TaskOk(c, s, s.tasks[t])
    ensures forall t :: t in s'.tasks ==> TaskOk(c, s', s'.tasks[t])
  {
    hide TaskOk, Grows;
    forall t | t in s.tasks
      ensures TaskOk(c, s', s.tasks[t])
    {
      TaskOkGrows(c, s, s', s.tasks[t]);
    }
  }

  lemma {:induction false} AuthStepKeepsInv(c: Setup, s: State, t: nat, input: Input)
    requires Inv(c, s) && Enabled(c, s, t, input)
    requires IsAuthTask(s.tasks[t])
    ensures Inv(c, Step(c, s, t, input))
  {
    var task := s.tasks[t];
    hide Inv, Enabled, Step;
    if task.AuthStore? || task.AuthConvoy? || task.AuthReset? {
      GrantedStepKeepsInv(c, s, t, input);
    } else {
      AskingStepKeepsInv(c, s, t, input);
    }
  }

  lemma {:induction false} AskingStepKeepsInv(c: Setup, s: State, t: nat, input: Input)
    requires Inv(c, s) && Enabled(c, s, t, input)
    requires var task := s.tasks[t]; task.AuthCheck? || task.AuthClock? || task.AuthCache? || task.AuthAsk?
    ensures Inv(c, Step(c, s, t, input))
  {
    match s.tasks[t] {
      case AuthCheck(op, key) =>
        MoveKeepsInv(c, s, t, if key.keyId in s.revocations then Idle else AuthClock(op, key));
      case AuthClock(op, key) =>
        MoveKeepsInv(c, s, t, AuthCache(Auth(op, key, input.now)));
      case AuthCache(auth) =>
        if CacheOffers(c, s, auth) && c.authzOk(s.cache[auth.key.keyId]) {
          SucceedKeepsInv(c, s, auth, s.cache[auth.key.keyId], true);
          MoveKeepsInv(c, Succeed(s, auth, s.cache[auth.key.keyId], true), t, Idle);
        } else {
          MoveKeepsInv(c, s, t, if CacheOffers(c, s, auth) then Idle else AuthAsk(auth));
        }
      case AuthAsk(auth) =>
        if input == Failed {
          MoveKeepsInv(c, s, t, Idle);
        } else {
          IssueKeepsInv(c, s, input.authz);
          MoveKeepsInv(c, s.(issued := s.issued + {input.authz}), t,
                       if Answers(c, auth, input.authz) then AuthStore(auth, input.authz) else Idle);
        }
    }
  }

  lemma {:induction false} GrantedStepKeepsInv(c: Setup, s: State, t: nat, input: Input)
    requires Inv(c, s) && Enabled(c, s, t, input)
    requires var task := s.tasks[t]; task.AuthStore? || task.AuthConvoy? || task.AuthReset?
    ensures Inv(c, Step(c, s, t, input))
  {
    assert TaskOk(c, s, s.tasks[t]);
    match s.tasks[t] {
      case AuthStore(auth, authz) =>
        StoreCacheKeepsInv(c, s, authz);
        MoveKeepsInv(c, s.(cache := s.cache[authz.keyId := authz]), t, AuthConvoy(auth, authz));
      case AuthConvoy(auth, authz) =>
        MoveKeepsInv(c, s, t,
                     if authz.epoch > s.localEpoch then SyncLoad(Convoy(auth, authz)) else AuthReset(auth, authz));
      case AuthReset(auth, authz) =>
        ResetKeepsInv(c, s, Some(authz.epoch));
        var r := ResetClock(c, s, Some(authz.epoch));
        SucceedKeepsInv(c, r, auth, authz, false);
        MoveKeepsInv(c, Succeed(r, auth, authz, false), t, Idle);
    }
  }

  lemma {:induction false} SucceedKeepsInv(c: Setup, s: State, auth: Auth, authz: Authz, cached: bool)
    requires Inv(c, s) && Backed(c, s, auth, authz) && (cached ==> authz.keyId == auth.key.keyId)
    ensures Inv(c, Succeed(s, auth, authz, cached))
  {
    SameKnowledge(c, s, Succeed(s, auth, authz, cached));
    hide TaskOk;
  }

  lemma {:induction false} IssueKeepsInv(c: Setup, s: State, authz: Authz)
    requires Inv(c, s)
    ensures Inv(c, s.(issued := s.issued + {authz}))
  {
    SameKnowledge(c, s, s.(issued := s.issued + {authz}));
    hide TaskOk;
  }

  lemma {:induction false} StoreCacheKeepsInv(c: Setup, s: State, authz: Authz)
    requires Inv(c, s) && c.authzOk(authz) && authz in s.issued
    ensures Inv(c, s.(cache := s.cache[authz.keyId := authz]))
  {
    SameKnowledge(c, s, s.(cache := s.cache[authz.keyId := authz]));
    hide TaskOk;
  }

  lemma {:induction false} HappenKeepsInv(c: Setup, s: State, a: Action)
    requires Inv(c, s) && CanHappen(c, s, a)
    ensures Inv(c, Happen(c, s, a))
  {
    var s' := Happen(c, s, a);
    match a {
      case Thread(t, input) => StepKeepsInv(c, s, t, input);
      case Revoke(ids) => L0MoveKeepsInv(c, s, s'.l0);
      case BumpEpoch => L0MoveKeepsInv(c, s, s'.l0);
      case Tick(dt) =>
        SameKnowledge(c, s, s');
        hide TaskOk;
      case _ =>
        OtherTasksStayOk(c, s, s', a.t);
        hide TaskOk;
    }
  }

  lemma {:induction false} L0MoveKeepsInv(c: Setup, s: State, l0: L0)
    requires Inv(c, s) && Grows(s, s.(l0 := l0)) && L0Ok(l0)
    ensures Inv(c, s.(l0 := l0))
  {
    SettledGrows(s, s.(l0 := l0), s.localEpoch);
    SameKnowledge(c, s, s.(l0 := l0));
    hide TaskOk;
  }

  lemma {:induction false} RunKeepsInv(c: Setup, s: State, run: seq<Action>)
    requires Inv(c, s) && After(c, s, run).Some?
    ensures Inv(c, After(c, s, run).value)
    decreases |run|
  {
    hide Inv, Happen, CanHappen;
    if run != [] {
      HappenKeepsInv(c, s, run[0]);
      RunKeepsInv(c, Happen(c, s, run[0]), run[1..]);
    }
  }

  lemma {:induction false} AlwaysInv(c: Setup, s: State)
    requires Reachable(c, s)
    ensures Inv(c, s)
  {
    var run :| After(c, Start(c), run) == Some(s);
    hide After;
    assert Inv(c, Start(c));
    RunKeepsInv(c, Start(c), run);
  }

  // ---- What every run guarantees ---------------------------------------------------------

  /** Every revocation L0 made up to the local epoch is in the local set, at every moment of every run. */
  lemma {:induction false} LocalEpochIsCovered(c: Setup, s: State, e: Entry)
    requires Reachable(c, s) && e in s.l0.revoked && e.epoch <= s.localEpoch
    ensures e.key in s.revocations
  {
    AlwaysInv(c, s);
    hide TaskOk, Reachable;
  }

  /** The epoch only ever takes the value of an answer whose frames all verified and were all applied. */
  lemma {:induction false} EpochMovesOnlyOnVerifiedFrames(c: Setup, s: State, a: Action)
    requires Reachable(c, s) && CanHappen(c, s, a) && Happen(c, s, a).localEpoch != s.localEpoch
    ensures a.Thread? && s.tasks[a.t].SyncStore?
    ensures var d := s.tasks[a.t].delta;
            && Happen(c, s, a).localEpoch == d.epoch
            && (forall i :: 0 <= i < |d.frames| ==> c.revocationOk(d.frames[i]) && d.frames[i].keyId in s.revocations)
  {
    AlwaysInv(c, s);
    hide Reachable;
    assert TaskOk(c, s, s.tasks[a.t]);
  }

  /** Whenever the poll was postponed on L0's word, everything L0 had revoked up to the reported epoch was known. */
  lemma {:induction false} PostponingHidesNothing(c: Setup, s: State, r: Reset)
    requires Reachable(c, s) && r in s.resets && r.reported.Some?
    ensures Covers(r.known, r.l0, r.reported.value)
  {
    AlwaysInv(c, s);
    hide TaskOk, Reachable;
  }

  /** No postponement goes unrecorded: a step that moves the deadline records what was known and what L0 had revoked. */
  lemma {:induction false} PostponingIsRecorded(c: Setup, s: State, a: Action)
    requires CanHappen(c, s, a) && Happen(c, s, a).nextDue != s.nextDue
    ensures Happen(c, s, a).nextDue == s.clock + c.interval
    ensures exists reported :: Reset(reported, s.revocations, s.l0) in Happen(c, s, a).resets
  {
    var task := s.tasks[a.t];
    assert task.SyncReset? || task.PollFailed? || task.AuthReset?;
    var reported :=
      if task.SyncReset? then Some(task.delta.epoch) else if task.AuthReset? then Some(task.authz.epoch) else None;
    assert Reset(reported, s.revocations, s.l0) in Happen(c, s, a).resets;
  }

  /** The poll is postponed without L0's word only after a failed poll. */
  lemma {:induction false} UnreportedResetIsPollFailure(c: Setup, s: State, a: Action, r: Reset)
    requires CanHappen(c, s, a) && r in Happen(c, s, a).resets && r !in s.resets && r.reported.None?
    ensures a.Thread? && s.tasks[a.t] == PollFailed
  {
  }

  /**
   Every success, cached or fresh, rests on an authorization that L0 returned, whose signature verified, whose
   hash is that of the presented key and which was not expired at the call's clock reading.
   */
  lemma {:induction false} SuccessIsBacked(c: Setup, s: State, x: Success)
    requires Reachable(c, s) && x in s.successes
    ensures x.authz in s.issued && c.authzOk(x.authz)
    ensures x.authz.keyHash == c.hash(x.auth.key.fullKey) && x.authz.expMs > x.auth.now
    ensures x.cached ==> x.authz.keyId == x.auth.key.keyId
  {
    AlwaysInv(c, s);
    hide TaskOk, Reachable;
  }

  // ---- Revoked keys stay out -------------------------------------------------------------

  datatype Passed = Passed(op: nat, keyId: string)

  function CallerPassed(caller: Caller): Option<Passed> {
    if caller.Convoy? then Some(Passed(caller.auth.op, caller.auth.key.keyId)) else None
  }

  /** The authentication this task is carrying past the revocation check. */
  function PastCheck(task: Task): Option<Passed> {
    match task
    case AuthClock(op, key) => Some(Passed(op, key.keyId))
    case AuthCache(auth) => Some(Passed(auth.op, auth.key.keyId))
    case AuthAsk(auth) => Some(Passed(auth.op, auth.key.keyId))
    case AuthStore(auth, _) => Some(Passed(auth.op, auth.key.keyId))
    case AuthConvoy(auth, _) => Some(Passed(auth.op, auth.key.keyId))
    case AuthReset(auth, _) => Some(Passed(auth.op, auth.key.keyId))
    case SyncLoad(caller) => CallerPassed(caller)
    case SyncFetch(_, caller) => CallerPassed(caller)
    case SyncInsert(_, _, _, caller) => CallerPassed(caller)
    case SyncEvict(_, _, _, caller) => CallerPassed(caller)
    case SyncStore(_, _, caller) => CallerPassed(caller)
    case SyncReset(_, caller) => CallerPassed(caller)
    case _ => None
  }

  /** A step carries an authentication on, lets one past the check only if its key is not revoked, or ends one. */
  ghost predicate Flows(s: State, s': State, t: nat)
    requires t in s.tasks
  {
    && s.revocations <= s'.revocations && s'.nextOp == s.nextOp
    && t in s'.tasks && s'.tasks == s.tasks[t := s'.tasks[t]] && !s'.tasks[t].AuthCheck?
    && (PastCheck(s'.tasks[t]).Some? ==>
          || PastCheck(s'.tasks[t]) == PastCheck(s.tasks[t])
          || (&& s.tasks[t].AuthCheck? && s.tasks[t].key.keyId !in s.revocations
              && PastCheck(s'.tasks[t]) == Some(Passed(s.tasks[t].op, s.tasks[t].key.keyId))))
    && (forall x :: x in s'.successes && x !in s.successes ==>
          PastCheck(s.tasks[t]) == Some(Passed(x.auth.op, x.auth.key.keyId)))
  }

  lemma {:induction false} StepFlow(c: Setup, s: State, t: nat, input: Input)
    requires Enabled(c, s, t, input)
    ensures Flows(s, Step(c, s, t, input), t)
  {
    var task := s.tasks[t];
    if IsAuthTask(task) {
      AuthStepFlow(c, s, t, input);
    } else if IsSyncTask(task) {
      SyncStepFlow(c, s, t, input);
    } else {
      PlainStepFlow(c, s, t, input);
    }
  }

  lemma {:induction false} PlainStepFlow(c: Setup, s: State, t: nat, input: Input)
    requires Enabled(c, s, t, input)
    requires var task := s.tasks[t]; task.ApplyInsert? || task.ApplyEvict? || task.PollWait? || task.PollFailed?
    ensures Flows(s, Step(c, s, t, input), t)
  {
  }

  lemma {:induction false} SyncStepFlow(c: Setup, s: State, t: nat, input: Input)
    requires Enabled(c, s, t, input)
    requires IsSyncTask(s.tasks[t])
    ensures Flows(s, Step(c, s, t, input), t)
  {
    hide IsAnswer;
  }

  lemma {:induction false} AuthStepFlow(c: Setup, s: State, t: nat, input: Input)
    requires Enabled(c, s, t, input)
    requires IsAuthTask(s.tasks[t])
    ensures Flows(s, Step(c, s, t, input), t)
  {
    hide Answers, CacheOffers;
  }

  /** Authentication numbers in use have been handed out. */
  ghost predicate OpsHandedOut(s: State) {
    && (forall t :: t in s.tasks && PastCheck(s.tasks[t]).Some? ==> PastCheck(s.tasks[t]).value.op < s.nextOp)
    && (forall t :: t in s.tasks && s.tasks[t].AuthCheck? ==> s.tasks[t].op < s.nextOp)
    && (forall x :: x in s.successes ==> x.auth.op < s.nextOp)
  }

  /** The key is revoked, and no authentication of it numbered `n` or later has passed the check or succeeded. */
  ghost predicate ShutOut(s: State, keyId: string, n: nat) {
    && keyId in s.revocations
    && (forall t :: t in s.tasks && PastCheck(s.tasks[t]).Some? && PastCheck(s.tasks[t]).value.keyId == keyId ==>
          PastCheck(s.tasks[t]).value.op < n)
    && (forall x :: x in s.successes && x.auth.key.keyId == keyId ==> x.auth.op < n)
  }

  lemma {:induction false} HappenKeepsOps(c: Setup, s: State, a: Action)
    requires OpsHandedOut(s) && CanHappen(c, s, a)
    ensures OpsHandedOut(Happen(c, s, a))
  {
    if a.Thread? {
      StepFlow(c, s, a.t, a.input);
      hide Step, Enabled, PastCheck;
    }
  }

  lemma {:induction false} HappenKeepsShut(c: Setup, s: State, a: Action, keyId: string, n: nat)
    requires ShutOut(s, keyId, n) && CanHappen(c, s, a)
    ensures ShutOut(Happen(c, s, a), keyId, n)
  {
    if a.Thread? {
      StepFlow(c, s, a.t, a.input);
      hide Step, Enabled, PastCheck;
    }
  }

  lemma {:induction false} RunKeepsOps(c: Setup, s: State, run: seq<Action>)
    requires OpsHandedOut(s) && After(c, s, run).Some?
    ensures OpsHandedOut(After(c, s, run).value)
    decreases |run|
  {
    hide OpsHandedOut, Happen, CanHappen;
    if run != [] {
      HappenKeepsOps(c, s, run[0]);
      RunKeepsOps(c, Happen(c, s, run[0]), run[1..]);
    }
  }

  lemma {:induction false} RunKeepsShut(c: Setup, s: State, run: seq<Action>, keyId: string, n: nat)
    requires ShutOut(s, keyId, n) && After(c, s, run).Some?
    ensures ShutOut(After(c, s, run).value, keyId, n)
    decreases |run|
  {
    hide ShutOut, Happen, CanHappen;
    if run != [] {
      HappenKeepsShut(c, s, run[0], keyId, n);
      RunKeepsShut(c, Happen(c, s, run[0]), run[1..], keyId, n);
    }
  }

  /**
   Once a key is in the revocation set, no authentication of it that starts later ever succeeds, whatever
   happens to the cache: every success of the key, in any continuation, began before.
   */
  lemma {:induction false} RevokedKeyStaysOut(c: Setup, s: State, keyId: string, run: seq<Action>, x: Success)
    requires Reachable(c, s) && keyId in s.revocations
    requires After(c, s, run).Some? && x in After(c, s, run).value.successes && x.auth.key.keyId == keyId
    ensures x.auth.op < s.nextOp
  {
    var before :| After(c, Start(c), before) == Some(s);
    hide After, PastCheck;
    assert OpsHandedOut(Start(c));
    RunKeepsOps(c, Start(c), before);
    assert ShutOut(s, keyId, s.nextOp);
    RunKeepsShut(c, s, run, keyId, s.nextOp);
  }

  /**
   When an applied revocation is about to return, its key is out: whatever happens from there on, every success of the
   key is of an authentication that began before. A revocation gets this far only if its signature verified.
   */
  lemma {:induction false} AppliedRevocationShutsOut(c: Setup, s: State, t: nat, run: seq<Action>, x: Success)
    requires Reachable(c, s) && t in s.tasks && s.tasks[t].ApplyEvict?
    requires After(c, s, run).Some? && x in After(c, s, run).value.successes && x.auth.key.keyId == s.tasks[t].rev.keyId
    ensures c.revocationOk(s.tasks[t].rev) && x.auth.op < s.nextOp
  {
    hide After, Reachable;
    AlwaysInv(c, s);
    assert TaskOk(c, s, s.tasks[t]);
    RevokedKeyStaysOut(c, s, s.tasks[t].rev.keyId, run, x);
  }

  lemma {:induction false} L0NeverForgets(c: Setup, s: State, run: seq<Action>)
    requires After(c, s, run).Some?
    ensures s.l0.revoked <= After(c, s, run).value.l0.revoked
    decreases |run|
  {
    if run != [] {
      OneActionForgetsNothing(c, s, run[0]);
      hide Happen, CanHappen;
      L0NeverForgets(c, Happen(c, s, run[0]), run[1..]);
    }
  }

  lemma {:induction false} OneActionForgetsNothing(c: Setup, s: State, a: Action)
    requires CanHappen(c, s, a)
    ensures s.l0.revoked <= Happen(c, s, a).l0.revoked
  {
  }

  lemma {:induction false} StillReachable(c: Setup, s: State, run: seq<Action>)
    requires Reachable(c, s) && After(c, s, run).Some?
    ensures Reachable(c, After(c, s, run).value)
  {
    var before :| After(c, Start(c), before) == Some(s);
    AfterParts(c, Start(c), before, run);
  }

  /**
   From L0 to the door: when L0 revokes keys, then as soon as the local epoch has reached the epoch it did that in, and
   whatever happens before and after, no authentication of such a key begun from there on ever succeeds.
   */
  lemma {:induction false} RevokedAtL0StaysOut(
    c: Setup, s: State, ids: set<string>, id: string, until: seq<Action>, later: seq<Action>, x: Success)
    requires Reachable(c, s) && id in ids
    requires var revoked := Happen(c, s, Revoke(ids));
             && After(c, revoked, until).Some?
             && var caughtUp := After(c, revoked, until).value;
                && s.l0.epoch < caughtUp.localEpoch && After(c, caughtUp, later).Some?
                && x in After(c, caughtUp, later).value.successes && x.auth.key.keyId == id
    ensures x.auth.op < After(c, Happen(c, s, Revoke(ids)), until).value.nextOp
  {
    var revoked := Happen(c, s, Revoke(ids));
    var first := [Revoke(ids)];
    assert first[1..] == [];
    assert After(c, s, first) == After(c, revoked, []) == Some(revoked);
    assert Entry(s.l0.epoch + 1, id) in revoked.l0.revoked;
    hide Happen, CanHappen, After;
    StillReachable(c, s, first);
    StillReachable(c, revoked, until);
    L0NeverForgets(c, revoked, until);
    var caughtUp := After(c, revoked, until).value;
    LocalEpochIsCovered(c, caughtUp, Entry(s.l0.epoch + 1, id));
    RevokedKeyStaysOut(c, caughtUp, id, later, x);
  }

  // ---- The epoch may step back -----------------------------------------------------------

  /** The epoch a running sync loaded. */
  function SyncSince(task: Task): Option<nat> {
    match task
    case SyncFetch(since, _) => Some(since)
    case SyncInsert(since, _, _, _) => Some(since)
    case SyncEvict(since, _, _, _) => Some(since)
    case SyncStore(since, _, _) => Some(since)
    case _ => None
  }

  /** The next step stores an epoch newer than the one its sync loaded but older than the local one by now. */
  ghost predicate StaleStore(s: State, a: Action) {
    && a.Thread? && a.t in s.tasks && s.tasks[a.t].SyncStore?
    && s.tasks[a.t].since < s.tasks[a.t].delta.epoch < s.localEpoch
  }

  /** A step lowers the local epoch exactly when it is such a store. */
  lemma {:induction false} StepsBackExactly(c: Setup, s: State, a: Action)
    requires CanHappen(c, s, a)
    ensures Happen(c, s, a).localEpoch < s.localEpoch <==> StaleStore(s, a)
  {
  }

  /** The run can happen, and along it the local epoch never decreases. */
  ghost predicate NeverDecreases(c: Setup, s: State, run: seq<Action>)
    decreases |run|
  {
    run != [] ==>
      && CanHappen(c, s, run[0]) && Happen(c, s, run[0]).localEpoch >= s.localEpoch
      && NeverDecreases(c, Happen(c, s, run[0]), run[1..])
  }

  /** No step of the run is a stale store. */
  ghost predicate NoStaleStore(c: Setup, s: State, run: seq<Action>)
    decreases |run|
  {
    run != [] ==> CanHappen(c, s, run[0]) && !StaleStore(s, run[0]) && NoStaleStore(c, Happen(c, s, run[0]), run[1..])
  }

  /**
   The exact condition, over whole runs from any state: the epoch never decreases if and only if no store is stale.
   */
  lemma {:induction false} EpochMonotoneExactly(c: Setup, s: State, run: seq<Action>)
    requires After(c, s, run).Some?
    ensures NeverDecreases(c, s, run) <==> NoStaleStore(c, s, run)
    decreases |run|
  {
    hide Happen, CanHappen, StaleStore;
    if run != [] {
      StepsBackExactly(c, s, run[0]);
      EpochMonotoneExactly(c, Happen(c, s, run[0]), run[1..]);
    }
  }

  ghost predicate SyncsAlone(s: State) {
    forall t, u :: t in s.tasks && u in s.tasks && SyncSince(s.tasks[t]).Some? && SyncSince(s.tasks[u]).Some? ==> t == u
  }

  /** A run in which no two syncs overlap between their load and their store. */
  ghost predicate NeverOverlaps(c: Setup, s: State, run: seq<Action>)
    decreases |run|
  {
    SyncsAlone(s) && (run != [] ==> CanHappen(c, s, run[0]) && NeverOverlaps(c, Happen(c, s, run[0]), run[1..]))
  }

  ghost predicate SinceIsCurrent(s: State) {
    forall t :: t in s.tasks && SyncSince(s.tasks[t]).Some? ==> SyncSince(s.tasks[t]).value == s.localEpoch
  }

  lemma {:induction false} AloneStaysCurrent(c: Setup, s: State, a: Action)
    requires SinceIsCurrent(s) && SyncsAlone(s) && CanHappen(c, s, a)
    ensures SinceIsCurrent(Happen(c, s, a)) && !StaleStore(s, a)
  {
    hide IsAnswer, Answers, CacheOffers;
  }

  /** Without overlapping syncs there is no stale store, */
  lemma {:induction false} NoOverlapNoStaleStore(c: Setup, s: State, run: seq<Action>)
    requires SinceIsCurrent(s) && NeverOverlaps(c, s, run)
    ensures After(c, s, run).Some? && NoStaleStore(c, s, run)
    decreases |run|
  {
    hide Happen, CanHappen, SinceIsCurrent, SyncsAlone, StaleStore;
    if run != [] {
      AloneStaysCurrent(c, s, run[0]);
      NoOverlapNoStaleStore(c, Happen(c, s, run[0]), run[1..]);
    }
  }

  /** and so the local epoch never decreases. */
  lemma {:induction false} EpochMonotoneWithoutOverlap(c: Setup, s: State, run: seq<Action>)
    requires SinceIsCurrent(s) && NeverOverlaps(c, s, run)
    ensures After(c, s, run).Some? && NeverDecreases(c, s, run)
  {
    NoOverlapNoStaleStore(c, s, run);
    EpochMonotoneExactly(c, s, run);
  }

  // ---- A stale store was overtaken -------------------------------------------------------

  /** The state before the n-th action of a run from the start. */
  ghost function Before(c: Setup, run: seq<Action>, n: nat): Option<State>
    requires n <= |run|
  {
    After(c, Start(c), run[..n])
  }

  lemma {:induction false} BeforeNext(c: Setup, run: seq<Action>, n: nat)
    requires n < |run| && After(c, Start(c), run).Some?
    ensures Before(c, run, n).Some? && CanHappen(c, Before(c, run, n).value, run[n])
    ensures Before(c, run, n + 1) == Some(Happen(c, Before(c, run, n).value, run[n]))
  {
    hide Happen, CanHappen, Start;
    assert run == run[..n] + run[n..];
    AfterParts(c, Start(c), run[..n], run[n..]);
    var last := [run[n]];
    assert run[..n + 1] == run[..n] + last && last[1..] == [];
    AfterParts(c, Start(c), run[..n], last);
    var s := After(c, Start(c), run[..n]).value;
    assert After(c, s, run[n..]).Some?;
    assert After(c, s, last) == After(c, Happen(c, s, run[n]), []);
  }

  lemma {:induction false} AfterParts(c: Setup, s: State, first: seq<Action>, second: seq<Action>)
    ensures After(c, s, first).None? ==> After(c, s, first + second).None?
    ensures After(c, s, first).Some? ==> After(c, s, first + second) == After(c, After(c, s, first).value, second)
    decreases |first|
  {
    hide Happen, CanHappen;
    if first == [] {
      assert first + second == second;
    } else {
      assert (first + second)[1..] == first[1..] + second;
      if CanHappen(c, s, first[0]) {
        AfterParts(c, Happen(c, s, first[0]), first[1..], second);
      }
    }
  }

  /** A thread is inside a sync that loaded `since`. */
  ghost predicate Inside(s: Option<State>, t: nat, since: nat) {
    s.Some? && t in s.value.tasks && SyncSince(s.value.tasks[t]) == Some(since)
  }

  /** The thread's sync loaded `since` at action `i` and has been going on up to action `n`. */
  ghost predicate Syncing(c: Setup, run: seq<Action>, t: nat, since: nat, i: nat, n: nat)
    requires n <= |run|
  {
    && i < n && run[i].Thread? && run[i].t == t
    && Before(c, run, i).Some? && t in Before(c, run, i).value.tasks && Before(c, run, i).value.tasks[t].SyncLoad?
    && Before(c, run, i).value.localEpoch == since
    && forall j: nat :: i < j <= n ==> Inside(Before(c, run, j), t, since)
  }

  /** Action `k` is another thread's store, and it changes the local epoch. */
  ghost predicate StoredByAnother(c: Setup, run: seq<Action>, t: nat, k: nat)
    requires k < |run|
  {
    && run[k].Thread? && run[k].t != t
    && Before(c, run, k).Some? && run[k].t in Before(c, run, k).value.tasks
    && Before(c, run, k).value.tasks[run[k].t].SyncStore?
    && Before(c, run, k + 1).Some? && Before(c, run, k + 1).value.localEpoch != Before(c, run, k).value.localEpoch
  }

  /** A sync comes from its load, and stays until its own thread moves it. */
  lemma {:induction false} SyncBegins(c: Setup, s: State, a: Action, t: nat, since: nat)
    requires CanHappen(c, s, a) && Inside(Some(Happen(c, s, a)), t, since)
    ensures Inside(Some(s), t, since)
            || (a.Thread? && a.t == t && t in s.tasks && s.tasks[t].SyncLoad? && s.localEpoch == since
                && Happen(c, s, a).localEpoch == since)
  {
    hide IsAnswer, Answers, CacheOffers;
  }

  /** Every sync under way was loaded at some action of the run. */
  lemma {:induction false} LoadedSomewhere(c: Setup, run: seq<Action>, t: nat, since: nat, n: nat) returns (i: nat)
    requires n <= |run| && After(c, Start(c), run).Some? && Inside(Before(c, run, n), t, since)
    ensures Syncing(c, run, t, since, i, n)
    decreases n
  {
    hide Happen, CanHappen, After, Before;
    NothingBefore(c, run);
    i := 0;
    if n > 0 {
      BeforeNext(c, run, n - 1);
      var s := Before(c, run, n - 1).value;
      SyncBegins(c, s, run[n - 1], t, since);
      if Inside(Some(s), t, since) {
        i := LoadedSomewhere(c, run, t, since, n - 1);
      } else {
        i := n - 1;
      }
    }
  }

  lemma {:induction false} NothingBefore(c: Setup, run: seq<Action>)
    ensures Before(c, run, 0) == Some(Start(c))
  {
    assert run[..0] == [];
  }

  /** While a sync is under way, only another thread's store moves the epoch. */
  lemma {:induction false} OthersMoveTheEpoch(c: Setup, s: State, a: Action, t: nat, since: nat)
    requires CanHappen(c, s, a) && Inside(Some(s), t, since) && Inside(Some(Happen(c, s, a)), t, since)
    requires Happen(c, s, a).localEpoch != s.localEpoch
    ensures a.Thread? && a.t != t && a.t in s.tasks && s.tasks[a.t].SyncStore?
  {
  }

  /** If the epoch is no longer what a sync loaded, another sync stored since. */
  lemma {:induction false} Overtaken(c: Setup, run: seq<Action>, t: nat, since: nat, i: nat, n: nat) returns (k: nat)
    requires n <= |run| && After(c, Start(c), run).Some? && Syncing(c, run, t, since, i, n)
    requires Before(c, run, n).value.localEpoch != since
    ensures i < k < n && StoredByAnother(c, run, t, k)
    decreases n
  {
    hide Happen, CanHappen, After, Before;
    BeforeNext(c, run, n - 1);
    var s := Before(c, run, n - 1).value;
    if n == i + 1 {
      SyncBegins(c, s, run[i], t, since);
      LoadKeepsEpoch(c, s, run[i]);
      k := i;
    } else {
      assert Inside(Before(c, run, n - 1), t, since);
      if s.localEpoch != since {
        k := Overtaken(c, run, t, since, i, n - 1);
      } else {
        OthersMoveTheEpoch(c, s, run[n - 1], t, since);
        k := n - 1;
      }
    }
  }

  lemma {:induction false} LoadKeepsEpoch(c: Setup, s: State, a: Action)
    requires CanHappen(c, s, a) && a.Thread? && s.tasks[a.t].SyncLoad?
    ensures Happen(c, s, a).localEpoch == s.localEpoch
  {
  }

  /**
   In every run from the start, a step that lowers the local epoch is a store whose sync was overtaken: between its load
   and this store another sync stored.
   */
  lemma {:induction false} SteppingBackMeansOvertaken(c: Setup, run: seq<Action>, last: Action) returns (i: nat, k: nat)
    requires After(c, Start(c), run).Some? && CanHappen(c, After(c, Start(c), run).value, last)
    requires Happen(c, After(c, Start(c), run).value, last).localEpoch < After(c, Start(c), run).value.localEpoch
    ensures StaleStore(After(c, Start(c), run).value, last)
    ensures Syncing(c, run, last.t, After(c, Start(c), run).value.tasks[last.t].since, i, |run|)
    ensures i < k < |run| && StoredByAnother(c, run, last.t, k)
  {
    var s := After(c, Start(c), run).value;
    StepsBackExactly(c, s, last);
    hide Happen, CanHappen, After;
    assert run[..|run|] == run;
    var since := s.tasks[last.t].since;
    assert Inside(Before(c, run, |run|), last.t, since);
    i := LoadedSomewhere(c, run, last.t, since, |run|);
    k := Overtaken(c, run, last.t, since, i, |run|);
  }

  /**
   Two syncs load epoch zero; then the second gets the newer answer and finishes; the first still holds the older one.
   */
  const BOTH_LOADED := [BeginSync(0), BeginSync(1), Thread(0, Nothing), Thread(1, Nothing)]
  const ANSWERS_CROSS := [
    BumpEpoch, Thread(0, Answered(Delta(1, []))),
    BumpEpoch, Thread(1, Answered(Delta(2, []))), Thread(1, Nothing)]

  lemma {:induction false} BothLoaded(c: Setup)
    ensures After(c, Start(c), BOTH_LOADED)
            == Some(Start(c).(tasks := map[0 := SyncFetch(0, Direct), 1 := SyncFetch(0, Direct)]))
  {
    assert After(c, Start(c), BOTH_LOADED).value.tasks == map[0 := SyncFetch(0, Direct), 1 := SyncFetch(0, Direct)];
  }

  lemma {:induction false} AnswersCross(c: Setup, s: State)
    requires s.l0 == L0(0, {}) && s.localEpoch == 0
             && s.tasks == map[0 := SyncFetch(0, Direct), 1 := SyncFetch(0, Direct)]
    ensures var s' := After(c, s, ANSWERS_CROSS);
            s'.Some? && s'.value.localEpoch == 2 && 0 in s'.value.tasks
              && s'.value.tasks[0] == SyncStore(0, Delta(1, []), Direct)
  {
  }

  lemma {:induction false} OlderAnswerPending(c: Setup)
    ensures var s := After(c, Start(c), BOTH_LOADED + ANSWERS_CROSS);
            s.Some? && s.value.localEpoch == 2 && 0 in s.value.tasks
              && s.value.tasks[0] == SyncStore(0, Delta(1, []), Direct)
  {
    hide After;
    BothLoaded(c);
    AnswersCross(c, After(c, Start(c), BOTH_LOADED).value);
    AfterParts(c, Start(c), BOTH_LOADED, ANSWERS_CROSS);
  }

  /** With overlapping syncs the local epoch can step back, in a run from the start. */
  lemma {:induction false} EpochCanStepBack(c: Setup) returns (before: State, last: Action)
    ensures Reachable(c, before) && CanHappen(c, before, last)
    ensures Happen(c, before, last).localEpoch < before.localEpoch
  {
    OlderAnswerPending(c);
    hide After;
    before := After(c, Start(c), BOTH_LOADED + ANSWERS_CROSS).value;
    last := Thread(0, Nothing);
  }
}
