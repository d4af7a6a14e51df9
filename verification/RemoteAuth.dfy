/**
 The remote authenticator's methods, one caller at a time. The step machine in `RevocationSync` is these
 methods cut at every shared access; here each is run to its end and its whole effect is stated, and the machine's
 threads are shown to have that effect when nothing interrupts them.
 */
module RemoteAuth {
  import opened Prelude
  import opened RevocationSync

  datatype AuthError = Unauthorized | BadSignature | Upstream

  datatype AuthContext = AuthContext(keyId: string, policy: string)

  function KeysOf(frames: seq<Revocation>): set<string> {
    set i | 0 <= i < |frames| :: frames[i].keyId
  }

  /** How many leading frames verify. */
  function Verified(c: Setup, frames: seq<Revocation>): (n: nat)
    ensures n <= |frames|
    ensures n < |frames| ==> !c.revocationOk(frames[n])
    ensures forall i :: 0 <= i < n ==> c.revocationOk(frames[i])
  {
    if frames == [] || !c.revocationOk(frames[0]) then 0 else 1 + Verified(c, frames[1..])
  }

  lemma {:induction false} VerifiedAt(c: Setup, frames: seq<Revocation>, n: nat)
    requires n <= |frames| && (n < |frames| ==> !c.revocationOk(frames[n]))
    requires forall i :: 0 <= i < n ==> c.revocationOk(frames[i])
    ensures Verified(c, frames) == n
  {
    hide Verified;
  }

  /** What all threads share. */
  datatype Shared = Shared(revocations: set<string>, cache: map<string, Authz>, localEpoch: nat, nextDue: int)

  /** A sync's effect on it, given L0's answer, and whether the sync succeeds. */
  function SyncEffect(c: Setup, sh: Shared, clock: int, answer: Option<Delta>): (Shared, bool) {
    match answer
    case None => (sh, false)
    case Some(d) =>
      var n := Verified(c, d.frames);
      var all := n == |d.frames|;
      var keys := KeysOf(d.frames[..n]);
      (Shared(sh.revocations + keys, sh.cache - keys,
              if all && d.epoch > sh.localEpoch then d.epoch else sh.localEpoch,
              if all then clock + c.interval else sh.nextDue), all)
  }

  /** What follows a fresh authorization: only the poll is postponed when current, else a sync runs. */
  function ConvoyEffect(c: Setup, sh: Shared, clock: int, authzEpoch: nat, answer: Option<Delta>): (Shared, bool) {
    if authzEpoch > sh.localEpoch then SyncEffect(c, sh, clock, answer) else (sh.(nextDue := clock + c.interval), true)
  }

  /** An authentication's effect, given L0's answers, and the authorization it succeeds with. */
  function AuthEffect(
    c: Setup, sh: Shared, clock: int, key: ApiKey, now: nat, asked: Option<Authz>, answer: Option<Delta>)
    : (Shared, Option<Authz>)
  {
    if key.keyId in sh.revocations then (sh, None)
    else if Fits(sh.cache, key.keyId, c.hash(key.fullKey), now) then
      (sh, if c.authzOk(sh.cache[key.keyId]) then Some(sh.cache[key.keyId]) else None)
    else if asked.None? || !Answers(c, Auth(0, key, now), asked.value) then (sh, None)
    else
      var stored := sh.(cache := sh.cache[asked.value.keyId := asked.value]);
      (ConvoyEffect(c, stored, clock, asked.value.epoch, answer).0, asked)
  }

  /** The cache holds an unexpired entry for this key and hash. */
  predicate Fits(cache: map<string, Authz>, keyId: string, hash: string, now: nat) {
    keyId in cache && cache[keyId].expMs > now && cache[keyId].keyHash == hash
  }

  class RemoteAuthenticator {
    const setup: Setup
    /** L0's two calls; None is a failed call. */
    const authorize: (string, string) -> Option<Authz>
    const fetch: nat -> Option<Delta>
    var revocations: set<string>
    var cache: map<string, Authz>
    var localEpoch: nat
    var nextDue: int

    function Shares(): Shared
      reads this
    {
      Shared(revocations, cache, localEpoch, nextDue)
    }

    constructor (setup: Setup, authorize: (string, string) -> Option<Authz>, fetch: nat -> Option<Delta>, clock: int)
      ensures this.setup == setup && this.authorize == authorize && this.fetch == fetch
      ensures revocations == {} && cache == map[] && localEpoch == 0 && nextDue == clock + setup.interval
    {
      this.setup := setup;
      this.authorize := authorize;
      this.fetch := fetch;
      revocations := {};
      cache := map[];
      localEpoch := 0;
      nextDue := clock + setup.interval;
    }

    method ResetPollClock(clock: int)
      modifies this`nextDue
      ensures nextDue == clock + setup.interval
    {
      nextDue := clock + setup.interval;
    }

    /** A verified revocation is remembered and evicts the key; an unverified one changes nothing. */
    method ApplyRevocation(rev: Revocation) returns (r: Result<(), AuthError>)
      modifies this`revocations, this`cache
      ensures r == if setup.revocationOk(rev) then Ok(()) else Err(BadSignature)
      ensures revocations == old(revocations) + (if r.Ok? then {rev.keyId} else {})
      ensures cache == old(cache) - (if r.Ok? then {rev.keyId} else {})
    {
      if !setup.revocationOk(rev) {
        return Err(BadSignature);
      }
      revocations := revocations + {rev.keyId};
      cache := cache - {rev.keyId};
      return Ok(());
    }

    /**
     Applies L0's answer frame by frame. The epoch and the poll deadline move only if every frame verified; the
     frames before a bad one stay applied. A complete answer keeps the epoch covered.
     */
    method SyncRevocationsFromL0(clock: int, ghost l0: L0) returns (r: Result<nat, AuthError>)
      modifies this
      ensures (Shares(), r.Ok?) == SyncEffect(setup, old(Shares()), clock, fetch(old(localEpoch)))
      ensures var d := fetch(old(localEpoch));
              r == if d.None? then Err(Upstream)
                   else if Verified(setup, d.value.frames) < |d.value.frames| then Err(BadSignature)
                   else Ok(|d.value.frames|)
      ensures Covers(old(revocations), l0, old(localEpoch))
              && (fetch(old(localEpoch)).Some? ==> IsAnswer(l0, old(localEpoch), fetch(old(localEpoch)).value))
              ==> Covers(revocations, l0, localEpoch)
    {
      hide Verified;
      var since := localEpoch;
      var answer := fetch(since);
      if answer.None? {
        return Err(Upstream);
      }
      var delta := answer.value;
      var applied := 0;
      while applied < |delta.frames|
        invariant 0 <= applied <= |delta.frames|
        invariant forall i :: 0 <= i < applied ==> setup.revocationOk(delta.frames[i])
        invariant revocations == old(revocations) + KeysOf(delta.frames[..applied])
        invariant cache == old(cache) - KeysOf(delta.frames[..applied])
        invariant localEpoch == since && nextDue == old(nextDue)
      {
        OneMoreKey(delta.frames, applied);
        var one := ApplyRevocation(delta.frames[applied]);
        if one.Err? {
          VerifiedAt(setup, delta.frames, applied);
          assert revocations == old(revocations) + KeysOf(delta.frames[..applied]);
          assert cache == old(cache) - KeysOf(delta.frames[..applied]);
          return Err(one.error);
        }
        applied := applied + 1;
      }
      VerifiedAt(setup, delta.frames, applied);
      if delta.epoch > since {
        localEpoch := delta.epoch;
      }
      ResetPollClock(clock);
      AllKeysAnnounced(delta.frames);
      return Ok(applied);
    }

    /** Current enough: only the poll is postponed. Behind: a sync runs. */
    method ConvoyAfterAuthorize(authzEpoch: nat, clock: int, ghost l0: L0) returns (r: Result<(), AuthError>)
      modifies this
      ensures (Shares(), r.Ok?) == ConvoyEffect(setup, old(Shares()), clock, authzEpoch, fetch(old(localEpoch)))
      ensures r.Err? ==> r.error == if fetch(old(localEpoch)).None? then Upstream else BadSignature
      ensures Covers(old(revocations), l0, old(localEpoch))
              && (fetch(old(localEpoch)).Some? ==> IsAnswer(l0, old(localEpoch), fetch(old(localEpoch)).value))
              ==> Covers(revocations, l0, localEpoch)
    {
      hide Verified, KeysOf, SyncEffect;
      if authzEpoch > localEpoch {
        var synced := SyncRevocationsFromL0(clock, l0);
        if synced.Err? {
          return Err(synced.error);
        }
      } else {
        ResetPollClock(clock);
      }
      return Ok(());
    }

    /** A hit needs an unexpired entry for the presented key's hash; its signature is checked again. */
    method CacheHit(key: ApiKey, hash: string, now: nat) returns (r: Result<Option<AuthContext>, AuthError>)
      ensures r == if !Fits(cache, key.keyId, hash, now) then Ok(None)
                   else if !setup.authzOk(cache[key.keyId]) then Err(BadSignature)
                   else Ok(Some(AuthContext(key.keyId, cache[key.keyId].policy)))
    {
      if key.keyId !in cache {
        return Ok(None);
      }
      var entry := cache[key.keyId];
      if entry.expMs <= now {
        return Ok(None);
      }
      if entry.keyHash != hash {
        return Ok(None);
      }
      if !setup.authzOk(entry) {
        return Err(BadSignature);
      }
      return Ok(Some(AuthContext(key.keyId, entry.policy)));
    }

    /** Only signed authorizations enter the cache, under their own key. */
    method StoreCache(authz: Authz) returns (r: Result<(), AuthError>)
      modifies this`cache
      ensures r == if setup.authzOk(authz) then Ok(()) else Err(BadSignature)
      ensures cache == if r.Ok? then old(cache)[authz.keyId := authz] else old(cache)
    {
      if !setup.authzOk(authz) {
        return Err(BadSignature);
      }
      cache := cache[authz.keyId := authz];
      return Ok(());
    }

    /**
     Never succeeds for a revoked key. A success carries the policy of an authorization, cached or just returned
     by L0, that is signed, is for the presented key's hash and is not expired at `now`.
     */
    method AuthenticateParsed(key: ApiKey, now: nat, clock: int, ghost l0: L0)
      returns (r: Result<AuthContext, AuthError>)
      modifies this
      ensures var e := AuthEffect(setup, old(Shares()), clock, key, now,
                                  authorize(key.keyId, setup.hash(key.fullKey)), fetch(old(localEpoch)));
              && Shares() == e.0 && (r.Ok? <==> e.1.Some?)
              && (r.Ok? ==> r.value == AuthContext(key.keyId, e.1.value.policy))
      ensures key.keyId in old(revocations) ==> r == Err(Unauthorized)
      ensures key.keyId !in old(revocations) ==>
                var hash := setup.hash(key.fullKey);
                var asked := authorize(key.keyId, hash);
                if key.keyId in old(cache) && old(cache)[key.keyId].expMs > now && old(cache)[key.keyId].keyHash == hash
                then r.Err? <==> !setup.authzOk(old(cache)[key.keyId])
                else r.Err? <==> asked.None? || !setup.authzOk(asked.value) || asked.value.expMs <= now
                                 || asked.value.keyHash != hash
      ensures key.keyId !in old(revocations) && r.Err? ==>
                var hash := setup.hash(key.fullKey);
                var asked := authorize(key.keyId, hash);
                if key.keyId in old(cache) && old(cache)[key.keyId].expMs > now && old(cache)[key.keyId].keyHash == hash
                then r.error == BadSignature
                else r.error == if asked.None? then Upstream
                                else if !setup.authzOk(asked.value) then BadSignature
                                else Unauthorized
      ensures r.Ok? ==>
                exists authz: Authz :: r.value.policy == authz.policy && Answers(setup, Auth(0, key, now), authz)
                  && ((key.keyId in old(cache) && authz == old(cache)[key.keyId])
                      || authorize(key.keyId, setup.hash(key.fullKey)) == Some(authz))
      ensures Covers(old(revocations), l0, old(localEpoch))
              && (fetch(old(localEpoch)).Some? ==> IsAnswer(l0, old(localEpoch), fetch(old(localEpoch)).value))
              ==> Covers(revocations, l0, localEpoch)
    {
      hide ConvoyEffect;
      if key.keyId in revocations {
        return Err(Unauthorized);
      }
      var hash := setup.hash(key.fullKey);
      var hit := CacheHit(key, hash, now);
      if hit.Err? {
        return Err(hit.error);
      }
      if hit.value.Some? {
        assert Answers(setup, Auth(0, key, now), cache[key.keyId]);
        return Ok(hit.value.value);
      }
      var asked := authorize(key.keyId, hash);
      if asked.None? {
        return Err(Upstream);
      }
      var authz := asked.value;
      if !setup.authzOk(authz) {
        return Err(BadSignature);
      }
      if authz.expMs <= now {
        return Err(Unauthorized);
      }
      if authz.keyHash != hash {
        return Err(Unauthorized);
      }
      assert Answers(setup, Auth(0, key, now), authz);
      var stored := StoreCache(authz);
      if stored.Err? {
        return Err(BadSignature);
      }
      var ignored := ConvoyAfterAuthorize(authz.epoch, clock, l0);
      return Ok(AuthContext(key.keyId, authz.policy));
    }
  }

  lemma {:induction false} OneMoreKey(frames: seq<Revocation>, n: nat)
    requires n < |frames|
    ensures KeysOf(frames[..n + 1]) == KeysOf(frames[..n]) + {frames[n].keyId}
  {
    var short, long := frames[..n], frames[..n + 1];
    assert forall i :: 0 <= i < n ==> long[i] == short[i];
    forall k | k in KeysOf(short)
      ensures k in KeysOf(long)
    {
      var i :| 0 <= i < n && short[i].keyId == k;
      assert long[i].keyId == k;
    }
    assert long[n].keyId in KeysOf(long);
  }

  lemma {:induction false} AllKeysAnnounced(frames: seq<Revocation>)
    ensures frames[..|frames|] == frames
    ensures forall k :: Announces(frames, k) ==> k in KeysOf(frames)
  {
  }

  // ---- The methods are the step machine's threads, left alone ----------------------------

  function SharedOf(s: State): Shared {
    Shared(s.revocations, s.cache, s.localEpoch, s.nextDue)
  }

  /** Only this thread's task, the shared state and the record of resets and successes have changed. */
  predicate OnlyThread(s: State, s': State, t: nat) {
    && t in s'.tasks && s'.tasks == s.tasks[t := s'.tasks[t]]
    && s'.clock == s.clock && s'.l0 == s.l0 && s'.nextOp == s.nextOp
  }

  lemma {:induction false} OneStepMore(c: Setup, s: State, run: seq<Action>, t: nat, input: Input)
    requires After(c, s, run).Some? && Enabled(c, After(c, s, run).value, t, input)
    ensures After(c, s, run + [Thread(t, input)]) == Some(Step(c, After(c, s, run).value, t, input))
  {
    hide Step, Enabled;
    var mid := After(c, s, run).value;
    var last := [Thread(t, input)];
    AfterParts(c, s, run, last);
    assert last[1..] == [];
    assert After(c, mid, last) == After(c, Step(c, mid, t, input), []);
  }

  /** Where a thread goes after its sync. */
  function EndTask(caller: Caller, ok: bool): Task {
    if caller.Poller? then if ok then PollWait else PollFailed else Idle
  }

  /** The success a sync completes, if an authentication was waiting for it. */
  function CallerSuccess(caller: Caller): set<Success> {
    if caller.Convoy? then {Success(caller.auth, caller.authz, false)} else {}
  }

  lemma {:induction false} LastSteps(c: Setup, s: State, t: nat, since: nat, d: Delta, caller: Caller)
    requires t in s.tasks && s.tasks[t] == SyncStore(since, d, caller) && s.localEpoch == since
    ensures Enabled(c, s, t, Nothing) && Enabled(c, Step(c, s, t, Nothing), t, Nothing)
    ensures var end := Step(c, Step(c, s, t, Nothing), t, Nothing);
            && OnlyThread(s, end, t) && end.tasks[t] == EndTask(caller, true)
               && end.successes == s.successes + CallerSuccess(caller)
            && SharedOf(end)
               == Shared(s.revocations, s.cache, if d.epoch > since then d.epoch else since, s.clock + c.interval)
  {
  }

  lemma {:induction false} BadFrameStep(c: Setup, s: State, t: nat, since: nat, d: Delta, i: nat, caller: Caller)
    requires t in s.tasks && s.tasks[t] == SyncInsert(since, d, i, caller) && i < |d.frames|
             && !c.revocationOk(d.frames[i])
    ensures Enabled(c, s, t, Nothing)
    ensures var end := Step(c, s, t, Nothing);
            && OnlyThread(s, end, t) && end.tasks[t] == EndTask(caller, false)
               && end.successes == s.successes + CallerSuccess(caller)
            && SharedOf(end) == SharedOf(s)
  {
  }

  lemma {:induction false} FrameSteps(c: Setup, s: State, t: nat, since: nat, d: Delta, i: nat, caller: Caller)
    requires t in s.tasks && s.tasks[t] == SyncInsert(since, d, i, caller) && i < |d.frames|
             && c.revocationOk(d.frames[i])
    ensures Enabled(c, s, t, Nothing) && Enabled(c, Step(c, s, t, Nothing), t, Nothing)
    ensures var end, key := Step(c, Step(c, s, t, Nothing), t, Nothing), d.frames[i].keyId;
            && OnlyThread(s, end, t) && end.tasks[t] == NextFrame(since, d, i + 1, caller)
               && end.successes == s.successes
            && SharedOf(end) == Shared(s.revocations + {key}, s.cache - {key}, s.localEpoch, s.nextDue)
  {
  }

  /** What applying the frames from `i` on does. */
  function RestEffect(c: Setup, sh: Shared, clock: int, d: Delta, i: nat): Shared
    requires i <= Verified(c, d.frames)
  {
    var n := Verified(c, d.frames);
    var all, keys := n == |d.frames|, KeysOf(d.frames[i..n]);
    Shared(sh.revocations + keys, sh.cache - keys,
           if all && d.epoch > sh.localEpoch then d.epoch else sh.localEpoch,
           if all then clock + c.interval else sh.nextDue)
  }

  lemma {:induction false} OneFrameFewer(c: Setup, sh: Shared, clock: int, d: Delta, i: nat)
    requires i < Verified(c, d.frames)
    ensures var key := d.frames[i].keyId;
            var fewer := sh.(revocations := sh.revocations + {key}, cache := sh.cache - {key});
            RestEffect(c, sh, clock, d, i) == RestEffect(c, fewer, clock, d, i + 1)
  {
    hide Verified, KeysOf;
    FirstKey(d.frames[i..Verified(c, d.frames)]);
    assert d.frames[i..Verified(c, d.frames)][1..] == d.frames[i + 1..Verified(c, d.frames)];
  }

  lemma {:induction false} NoFrameLeft(c: Setup, sh: Shared, clock: int, d: Delta, i: nat)
    requires i == Verified(c, d.frames)
    ensures RestEffect(c, sh, clock, d, i) ==
            Shared(sh.revocations, sh.cache,
                   if i == |d.frames| && d.epoch > sh.localEpoch then d.epoch else sh.localEpoch,
                   if i == |d.frames| then clock + c.interval else sh.nextDue)
  {
    hide Verified;
    assert d.frames[i..i] == [] && KeysOf([]) == {};
  }

  lemma {:induction false} OnlyThreadTwice(s: State, s': State, s'': State, t: nat)
    requires OnlyThread(s, s', t) && OnlyThread(s', s'', t)
    ensures OnlyThread(s, s'', t)
  {
    assert s''.tasks == s.tasks[t := s''.tasks[t]];
  }

  /** A thread that has applied the first `i` frames, left alone, applies the verified rest and ends its sync. */
  lemma {:induction false} FramesAlone(
    c: Setup, s0: State, run: seq<Action>, t: nat, since: nat, d: Delta, i: nat, caller: Caller)
    returns (full: seq<Action>)
    requires After(c, s0, run).Some? && i <= |d.frames| && forall j :: 0 <= j < i ==> c.revocationOk(d.frames[j])
    requires var s := After(c, s0, run).value;
             t in s.tasks && s.tasks[t] == NextFrame(since, d, i, caller) && s.localEpoch == since
    ensures var s, end := After(c, s0, run).value, After(c, s0, full);
            && end.Some? && i <= Verified(c, d.frames) && OnlyThread(s, end.value, t)
            && end.value.tasks[t] == EndTask(caller, Verified(c, d.frames) == |d.frames|)
            && end.value.successes == s.successes + CallerSuccess(caller)
            && SharedOf(end.value) == RestEffect(c, SharedOf(s), s.clock, d, i)
    decreases |d.frames| - i
  {
    hide After, Verified, Step, Enabled, RestEffect, OnlyThread, EndTask, CallerSuccess;
    var s := After(c, s0, run).value;
    var once := run + [Thread(t, Nothing)];
    var twice := once + [Thread(t, Nothing)];
    if i == |d.frames| {
      VerifiedAt(c, d.frames, i);
      LastSteps(c, s, t, since, d, caller);
      OneStepMore(c, s0, run, t, Nothing);
      OneStepMore(c, s0, once, t, Nothing);
      NoFrameLeft(c, SharedOf(s), s.clock, d, i);
      full := twice;
    } else if !c.revocationOk(d.frames[i]) {
      VerifiedAt(c, d.frames, i);
      BadFrameStep(c, s, t, since, d, i, caller);
      OneStepMore(c, s0, run, t, Nothing);
      NoFrameLeft(c, SharedOf(s), s.clock, d, i);
      full := once;
    } else {
      FrameSteps(c, s, t, since, d, i, caller);
      OneStepMore(c, s0, run, t, Nothing);
      OneStepMore(c, s0, once, t, Nothing);
      var s2 := After(c, s0, twice).value;
      full := FramesAlone(c, s0, twice, t, since, d, i + 1, caller);
      OneFrameFewer(c, SharedOf(s), s.clock, d, i);
      OnlyThreadTwice(s, s2, After(c, s0, full).value, t);
      assert s2.clock == s.clock by {
        SameClock(s, s2, t);
      }
    }
  }

  lemma {:induction false} SameClock(s: State, s': State, t: nat)
    requires OnlyThread(s, s', t)
    ensures s'.clock == s.clock
  {
  }

  lemma {:induction false} FirstKey(frames: seq<Revocation>)
    requires frames != []
    ensures KeysOf(frames) == {frames[0].keyId} + KeysOf(frames[1..])
  {
    forall k | k in KeysOf(frames)
      ensures k in {frames[0].keyId} + KeysOf(frames[1..])
    {
      var i :| 0 <= i < |frames| && frames[i].keyId == k;
      assert i > 0 ==> frames[1..][i - 1].keyId == k;
    }
    forall k | k in KeysOf(frames[1..])
      ensures k in KeysOf(frames)
    {
      var i :| 0 <= i < |frames| - 1 && frames[1..][i].keyId == k;
      assert frames[i + 1].keyId == k;
    }
  }

  /** A thread about to sync, left alone, for any caller. */
  lemma {:induction false} SyncRun(c: Setup, s0: State, run: seq<Action>, t: nat, caller: Caller, answer: Option<Delta>)
    returns (full: seq<Action>)
    requires After(c, s0, run).Some?
    requires var s := After(c, s0, run).value;
             && t in s.tasks && s.tasks[t] == SyncLoad(caller)
             && (answer.Some? ==> IsAnswer(s.l0, s.localEpoch, answer.value))
    ensures var s, end := After(c, s0, run).value, After(c, s0, full);
            var effect := SyncEffect(c, SharedOf(s), s.clock, answer);
            && end.Some? && OnlyThread(s, end.value, t) && end.value.tasks[t] == EndTask(caller, effect.1)
            && end.value.successes == s.successes + CallerSuccess(caller)
            && SharedOf(end.value) == effect.0
  {
    hide After, Verified, KeysOf, IsAnswer;
    var s := After(c, s0, run).value;
    OneStepMore(c, s0, run, t, Nothing);
    var loaded := run + [Thread(t, Nothing)];
    if answer.None? {
      OneStepMore(c, s0, loaded, t, Failed);
      full := loaded + [Thread(t, Failed)];
    } else {
      var d := answer.value;
      OneStepMore(c, s0, loaded, t, Answered(d));
      var fetched := loaded + [Thread(t, Answered(d))];
      full := FramesAlone(c, s0, fetched, t, s.localEpoch, d, 0, caller);
      assert d.frames[0..Verified(c, d.frames)] == d.frames[..Verified(c, d.frames)];
    }
  }

  /**
   A sync thread of the step machine that is not interrupted does to the shared state exactly what the sequential
   method does, for every answer L0 may give.
   */
  lemma {:induction false} SyncAlone(c: Setup, s: State, t: nat, answer: Option<Delta>) returns (run: seq<Action>)
    requires t in s.tasks && s.tasks[t] == SyncLoad(Direct)
    requires answer.Some? ==> IsAnswer(s.l0, s.localEpoch, answer.value)
    ensures var end := After(c, s, run);
            && end.Some? && OnlyThread(s, end.value, t) && end.value.tasks[t] == Idle
               && end.value.successes == s.successes
            && SharedOf(end.value) == SyncEffect(c, SharedOf(s), s.clock, answer).0
  {
    hide After, SyncEffect, IsAnswer, OnlyThread;
    NothingHappens(c, s);
    run := SyncRun(c, s, [], t, Direct, answer);
  }

  /**
   The poller takes its step exactly when the poll is due. Left alone from there it syncs as the sequential method does
   and waits again, with the next poll one interval away whether or not the sync succeeded.
   */
  lemma {:induction false} PollAlone(c: Setup, s: State, t: nat, answer: Option<Delta>) returns (run: seq<Action>)
    requires t in s.tasks && s.tasks[t] == PollWait
    requires answer.Some? ==> IsAnswer(s.l0, s.localEpoch, answer.value)
    ensures Enabled(c, s, t, Nothing) <==> s.nextDue <= s.clock
    ensures s.nextDue <= s.clock ==>
              var end := After(c, s, run);
              && end.Some? && OnlyThread(s, end.value, t) && end.value.tasks[t] == PollWait
              && end.value.successes == s.successes
              && SharedOf(end.value) ==
                 SyncEffect(c, SharedOf(s), s.clock, answer).0.(nextDue := s.clock + c.interval)
  {
    run := [];
    if s.nextDue <= s.clock {
      NothingHappens(c, s);
      OneStepMore(c, s, [], t, Nothing);
      run := [] + [Thread(t, Nothing)];
      var s1 := After(c, s, run).value;
      hide After, Verified, KeysOf, IsAnswer;
      run := SyncRun(c, s, run, t, Poller, answer);
      var s2 := After(c, s, run).value;
      OnlyThreadTwice(s, s1, s2, t);
      if !SyncEffect(c, SharedOf(s1), s1.clock, answer).1 {
        OneStepMore(c, s, run, t, Nothing);
        run := run + [Thread(t, Nothing)];
        OnlyThreadTwice(s, s2, After(c, s, run).value, t);
      }
    }
  }

  /** A thread applying a pushed revocation, left alone, does what the sequential method does. */
  lemma {:induction false} ApplyAlone(c: Setup, s: State, t: nat, rev: Revocation) returns (run: seq<Action>)
    requires t in s.tasks && s.tasks[t] == ApplyInsert(rev)
    ensures var end := After(c, s, run);
            var keys := if c.revocationOk(rev) then {rev.keyId} else {};
            && end.Some? && OnlyThread(s, end.value, t) && end.value.tasks[t] == Idle
            && end.value.successes == s.successes
            && SharedOf(end.value) == Shared(s.revocations + keys, s.cache - keys, s.localEpoch, s.nextDue)
  {
    NothingHappens(c, s);
    OneStepMore(c, s, [], t, Nothing);
    run := [] + [Thread(t, Nothing)];
    if c.revocationOk(rev) {
      OneStepMore(c, s, run, t, Nothing);
      run := run + [Thread(t, Nothing)];
    }
  }

  lemma {:induction false} CheckSteps(c: Setup, s: State, t: nat, op: nat, key: ApiKey, now: nat)
    requires t in s.tasks && s.tasks[t] == AuthCheck(op, key)
    ensures Enabled(c, s, t, Nothing)
    ensures var s1 := Step(c, s, t, Nothing);
            && OnlyThread(s, s1, t) && SharedOf(s1) == SharedOf(s) && s1.successes == s.successes
            && (key.keyId in s.revocations ==> s1.tasks[t] == Idle)
            && (key.keyId !in s.revocations ==>
                  && Enabled(c, s1, t, ClockReads(now))
                  && var s2 := Step(c, s1, t, ClockReads(now));
                     && OnlyThread(s, s2, t) && SharedOf(s2) == SharedOf(s) && s2.successes == s.successes
                     && s2.tasks[t] == AuthCache(Auth(op, key, now)))
  {
  }

  lemma {:induction false} CacheStep(c: Setup, s: State, t: nat, auth: Auth)
    requires t in s.tasks && s.tasks[t] == AuthCache(auth)
    ensures Enabled(c, s, t, Nothing)
    ensures var end := Step(c, s, t, Nothing);
            var fits := Fits(s.cache, auth.key.keyId, c.hash(auth.key.fullKey), auth.now);
            && OnlyThread(s, end, t) && SharedOf(end) == SharedOf(s)
            && (if !fits then end.tasks[t] == AuthAsk(auth) && end.successes == s.successes
                else end.tasks[t] == Idle && end.successes == s.successes +
                     if c.authzOk(s.cache[auth.key.keyId]) then {Success(auth, s.cache[auth.key.keyId], true)} else {})
  {
  }

  lemma {:induction false} AskStep(c: Setup, s: State, t: nat, auth: Auth, asked: Option<Authz>)
    requires t in s.tasks && s.tasks[t] == AuthAsk(auth)
    ensures var input := if asked.Some? then Granted(asked.value) else Failed;
            && Enabled(c, s, t, input)
            && var end := Step(c, s, t, input);
               && OnlyThread(s, end, t) && SharedOf(end) == SharedOf(s) && end.successes == s.successes
               && end.tasks[t] ==
                  if asked.Some? && Answers(c, auth, asked.value) then AuthStore(auth, asked.value) else Idle
  {
  }

  lemma {:induction false} StoreSteps(c: Setup, s: State, t: nat, auth: Auth, authz: Authz)
    requires t in s.tasks && s.tasks[t] == AuthStore(auth, authz) && c.authzOk(authz)
    ensures Enabled(c, s, t, Nothing) && Enabled(c, Step(c, s, t, Nothing), t, Nothing)
    ensures var end := Step(c, Step(c, s, t, Nothing), t, Nothing);
            && OnlyThread(s, end, t) && SharedOf(end) == SharedOf(s).(cache := s.cache[authz.keyId := authz])
            && end.successes == s.successes
            && end.tasks[t] ==
               if authz.epoch > s.localEpoch then SyncLoad(Convoy(auth, authz)) else AuthReset(auth, authz)
  {
  }

  lemma {:induction false} ResetStep(c: Setup, s: State, t: nat, auth: Auth, authz: Authz)
    requires t in s.tasks && s.tasks[t] == AuthReset(auth, authz)
    ensures Enabled(c, s, t, Nothing)
    ensures var end := Step(c, s, t, Nothing);
            && OnlyThread(s, end, t) && end.tasks[t] == Idle
               && SharedOf(end) == SharedOf(s).(nextDue := s.clock + c.interval)
            && end.successes == s.successes + {Success(auth, authz, false)}
  {
  }

  /** From a stored fresh authorization to the end of the call. */
  lemma {:induction false} StoreAlone(
    c: Setup, s0: State, run: seq<Action>, t: nat, auth: Auth, authz: Authz, answer: Option<Delta>)
    returns (full: seq<Action>)
    requires After(c, s0, run).Some? && c.authzOk(authz)
    requires var s := After(c, s0, run).value;
             && t in s.tasks && s.tasks[t] == AuthStore(auth, authz)
             && (answer.Some? ==> IsAnswer(s.l0, s.localEpoch, answer.value))
    ensures var s, end := After(c, s0, run).value, After(c, s0, full);
            var stored := SharedOf(s).(cache := s.cache[authz.keyId := authz]);
            && end.Some? && OnlyThread(s, end.value, t) && end.value.tasks[t] == Idle
            && end.value.successes == s.successes + {Success(auth, authz, false)}
            && SharedOf(end.value) == ConvoyEffect(c, stored, s.clock, authz.epoch, answer).0
  {
    hide After, Step, Enabled, SyncEffect, IsAnswer, OnlyThread;
    var s := After(c, s0, run).value;
    var once := run + [Thread(t, Nothing)];
    var twice := once + [Thread(t, Nothing)];
    StoreSteps(c, s, t, auth, authz);
    OneStepMore(c, s0, run, t, Nothing);
    OneStepMore(c, s0, once, t, Nothing);
    var s2 := After(c, s0, twice).value;
    SameClock(s, s2, t);
    if authz.epoch > s.localEpoch {
      full := SyncRun(c, s0, twice, t, Convoy(auth, authz), answer);
    } else {
      ResetStep(c, s2, t, auth, authz);
      OneStepMore(c, s0, twice, t, Nothing);
      full := twice + [Thread(t, Nothing)];
    }
    OnlyThreadTwice(s, s2, After(c, s0, full).value, t);
  }

  /**
   An authentication of the step machine that is not interrupted does to the shared state exactly what the sequential
   method does and succeeds exactly when it does, on the same authorization.
   */
  lemma {:induction false} AuthAlone(
    c: Setup, s: State, t: nat, op: nat, key: ApiKey, now: nat, asked: Option<Authz>, answer: Option<Delta>)
    returns (run: seq<Action>)
    requires t in s.tasks && s.tasks[t] == AuthCheck(op, key)
    requires answer.Some? ==> IsAnswer(s.l0, s.localEpoch, answer.value)
    ensures var end := After(c, s, run);
            var effect := AuthEffect(c, SharedOf(s), s.clock, key, now, asked, answer);
            && end.Some? && OnlyThread(s, end.value, t) && end.value.tasks[t] == Idle
            && SharedOf(end.value) == effect.0
            && (if effect.1.None? then end.value.successes == s.successes
                else
                  exists cached ::
                    end.value.successes == s.successes + {Success(Auth(op, key, now), effect.1.value, cached)})
  {
    hide After, Step, Enabled, IsAnswer, OnlyThread, ConvoyEffect;
    var auth := Auth(op, key, now);
    NothingHappens(c, s);
    CheckSteps(c, s, t, op, key, now);
    OneStepMore(c, s, [], t, Nothing);
    run := [] + [Thread(t, Nothing)];
    if key.keyId !in s.revocations {
      OneStepMore(c, s, run, t, ClockReads(now));
      run := run + [Thread(t, ClockReads(now))];
      var s2 := After(c, s, run).value;
      CacheStep(c, s2, t, auth);
      OneStepMore(c, s, run, t, Nothing);
      run := run + [Thread(t, Nothing)];
      OnlyThreadTwice(s, s2, After(c, s, run).value, t);
      if !Fits(s.cache, key.keyId, c.hash(key.fullKey), now) {
        run := AskAlone(c, s, run, t, auth, asked, answer);
      }
    }
  }

  /** The part of an authentication that asks L0. */
  lemma {:induction false} AskAlone(
    c: Setup, s: State, run: seq<Action>, t: nat, auth: Auth, asked: Option<Authz>, answer: Option<Delta>)
    returns (full: seq<Action>)
    requires After(c, s, run).Some? && (answer.Some? ==> IsAnswer(s.l0, s.localEpoch, answer.value))
    requires var s1 := After(c, s, run).value;
             && OnlyThread(s, s1, t) && SharedOf(s1) == SharedOf(s) && s1.successes == s.successes
                && s1.tasks[t] == AuthAsk(auth)
    ensures var end := After(c, s, full);
            var ok := asked.Some? && Answers(c, auth, asked.value);
            var stored := if ok then SharedOf(s).(cache := s.cache[asked.value.keyId := asked.value]) else SharedOf(s);
            && end.Some? && OnlyThread(s, end.value, t) && end.value.tasks[t] == Idle
            && end.value.successes == s.successes + (if ok then {Success(auth, asked.value, false)} else {})
            && SharedOf(end.value) ==
               if ok then ConvoyEffect(c, stored, s.clock, asked.value.epoch, answer).0 else stored
  {
    hide After, Step, Enabled, IsAnswer, ConvoyEffect;
    var s1 := After(c, s, run).value;
    var input := if asked.Some? then Granted(asked.value) else Failed;
    AskStep(c, s1, t, auth, asked);
    OneStepMore(c, s, run, t, input);
    full := run + [Thread(t, input)];
    var s2 := After(c, s, full).value;
    OnlyThreadTwice(s, s1, s2, t);
    if asked.Some? && Answers(c, auth, asked.value) {
      full := StoreAlone(c, s, full, t, auth, asked.value, answer);
      OnlyThreadTwice(s, s2, After(c, s, full).value, t);
    }
  }

  lemma {:induction false} NothingHappens(c: Setup, s: State)
    ensures After(c, s, []) == Some(s)
  {
  }
}
