/** Signed maintenance windows: which one applies now, and when the edge refuses requests for it. */
module Maintenance {
  import opened Prelude
  import opened Calendar

  datatype Scope = Fleet | Engine

  datatype Window = Window(
    id: string, scope: Scope, engineId: Option<string>, notBefore: string,
    hardNotAfter: Option<string>, softNotAfter: Option<string>, notAfter: Option<string>)

  datatype Manifest = Manifest(version: nat, windows: seq<Window>)

  datatype Phase = Hard | Soft

  datatype WindowError = BadTime(error: TimeError) | MissingHardEnd | BadHardInterval | BadSoftInterval

  datatype Bounds = Bounds(notBefore: nat, hardEnd: nat, softEnd: Option<nat>, hasSoft: bool)

  const U64_MAX := 0xFFFF_FFFF_FFFF_FFFF

  // ---- Bounds of a window ----------------------------------------------------------------

  /** A field that is present and not blank. */
  function Given(field: Option<string>): Option<string> {
    if field.Some? && Trim(field.value) != "" then Some(Trim(field.value)) else None
  }

  /** The instants of a window; an end given only in the legacy field leaves no soft phase. */
  function ResolveBounds(w: Window): (r: Result<Bounds, WindowError>)
    ensures r.Ok? ==> r.value.notBefore < r.value.hardEnd
    ensures r.Ok? && r.value.softEnd.Some? ==> r.value.hardEnd <= r.value.softEnd.value
    ensures r.Ok? && r.value.softEnd.Some? && r.value.hasSoft ==> r.value.hardEnd < r.value.softEnd.value
  {
    var notBefore := ParseRfc3339Ms(w.notBefore);
    if notBefore.Err? then Err(BadTime(notBefore.error))
    else
      var hardText := if Given(w.hardNotAfter).Some? then Given(w.hardNotAfter) else Given(w.notAfter);
      if hardText.None? then Err(MissingHardEnd)
      else
        var hard := ParseRfc3339Ms(hardText.value);
        if hard.Err? then Err(BadTime(hard.error))
        else if hard.value <= notBefore.value then Err(BadHardInterval)
        else if Given(w.hardNotAfter).None? then Ok(Bounds(notBefore.value, hard.value, Some(hard.value), false))
        else if Given(w.softNotAfter).None? then Ok(Bounds(notBefore.value, hard.value, None, true))
        else
          var soft := ParseRfc3339Ms(Given(w.softNotAfter).value);
          if soft.Err? then Err(BadTime(soft.error))
          else if soft.value <= hard.value then Err(BadSoftInterval)
          else Ok(Bounds(notBefore.value, hard.value, Some(soft.value), true))
  }

  /**
   What a window's fields say, without an order of evaluation: the start and the hard end are instants in that order,
   the hard end taken from the legacy field only when its own is blank; the legacy field leaves no soft phase, a blank
   soft end leaves it open, and a given one must be an instant after the hard end.
   */
  predicate Says(w: Window, b: Bounds) {
    var ownHard, soft := Given(w.hardNotAfter), Given(w.softNotAfter);
    var hard := if ownHard.Some? then ownHard else Given(w.notAfter);
    && ParseRfc3339Ms(w.notBefore) == Ok(b.notBefore)
    && hard.Some? && ParseRfc3339Ms(hard.value) == Ok(b.hardEnd)
    && b.notBefore < b.hardEnd
    && b.hasSoft == ownHard.Some?
    && (!b.hasSoft ==> b.softEnd == Some(b.hardEnd))
    && (b.hasSoft && soft.None? ==> b.softEnd == None)
    && (b.hasSoft && soft.Some? ==>
          b.softEnd.Some? && ParseRfc3339Ms(soft.value) == Ok(b.softEnd.value) && b.hardEnd < b.softEnd.value)
  }

  /** A window is accepted exactly when its fields say some bounds, and with those bounds. */
  lemma {:induction false} BoundsAreWhatTheFieldsSay(w: Window, b: Bounds)
    ensures ResolveBounds(w) == Ok(b) <==> Says(w, b)
  {
    hide ParseRfc3339Ms, Trim;
  }

  // ---- Candidates ------------------------------------------------------------------------

  datatype Active = Active(window: Window, phase: Phase, version: nat, bounds: Bounds, retryAfter: nat)

  /** The window concerns this request: fleet-wide, or for the engine asked about. */
  predicate Concerns(w: Window, engine: Option<string>) {
    w.scope == Fleet
      || (Given(engine).Some? && Given(engine).value == if w.engineId.Some? then Trim(w.engineId.value) else "")
  }

  function PhaseAt(b: Bounds, now: nat): Option<Phase> {
    if now < b.notBefore then None
    else if now <= b.hardEnd then Some(Hard)
    else if !b.hasSoft then None
    else if b.softEnd.None? || now <= b.softEnd.value then Some(Soft)
    else None
  }

  function CeilSecs(ms: nat): nat {
    (ms + 999) / 1000
  }

  function AtLeastOne(n: nat): nat {
    if n < 1 then 1 else n
  }

  function RetryAfter(b: Bounds, phase: Phase, now: nat): nat
    requires PhaseAt(b, now) == Some(phase)
  {
    match phase
    case Hard => AtLeastOne(CeilSecs(b.hardEnd - now))
    case Soft => if b.softEnd.Some? then AtLeastOne(CeilSecs(b.softEnd.value - now)) else 180
  }

  function Candidate(w: Window, version: nat, now: nat, engine: Option<string>): Option<Active> {
    if !Concerns(w, engine) || ResolveBounds(w).Err? then None
    else
      var b := ResolveBounds(w).value;
      var phase := PhaseAt(b, now);
      if phase.None? then None else Some(Active(w, phase.value, version, b, RetryAfter(b, phase.value, now)))
  }

  // ---- Selection -------------------------------------------------------------------------

  /** When the active phase ends; an open soft phase counts as the largest instant. */
  function PhaseEnd(a: Active): nat {
    if a.phase == Hard then a.bounds.hardEnd
    else if a.bounds.softEnd.Some? then a.bounds.softEnd.value
    else U64_MAX
  }

  /** Hard before soft, then the later end. */
  predicate Outranks(a: Active, b: Active) {
    (a.phase == Hard && b.phase == Soft) || (a.phase == b.phase && PhaseEnd(a) > PhaseEnd(b))
  }

  predicate SameRank(a: Active, b: Active) {
    a.phase == b.phase && PhaseEnd(a) == PhaseEnd(b)
  }

  /** A best candidate: some window offers it, nothing outranks it, nothing before it matches it. */
  ghost predicate IsBest(best: Option<Active>, ws: seq<Window>, version: nat, now: nat, engine: Option<string>) {
    match best
    case None => forall i :: 0 <= i < |ws| ==> Candidate(ws[i], version, now, engine).None?
    case Some(a) =>
      && (forall i :: 0 <= i < |ws| && Candidate(ws[i], version, now, engine).Some? ==>
            !Outranks(Candidate(ws[i], version, now, engine).value, a))
      && exists k :: 0 <= k < |ws| && FirstOffer(ws, k, a, version, now, engine)
  }

  ghost predicate FirstOffer(ws: seq<Window>, k: int, a: Active, version: nat, now: nat, engine: Option<string>)
    requires 0 <= k < |ws|
  {
    && Candidate(ws[k], version, now, engine) == Some(a)
    && forall i :: 0 <= i < k && Candidate(ws[i], version, now, engine).Some? ==>
         Outranks(a, Candidate(ws[i], version, now, engine).value)
  }

  // ---- Offers, read from the fields ------------------------------------------------------

  /** The window is for this request: for the whole fleet, or for the engine asked for, blanks around names aside. */
  predicate IsFor(w: Window, engine: Option<string>) {
    || w.scope == Fleet
    || (&& engine.Some? && Trim(engine.value) != ""
        && w.engineId.Some? && Trim(w.engineId.value) == Trim(engine.value))
  }

  /** The window's fields put the request in this phase of these bounds. */
  predicate Offers(w: Window, now: nat, engine: Option<string>, b: Bounds, phase: Phase) {
    Says(w, b) && IsFor(w, engine) && Covers(b, now, phase)
  }

  /** Hard before soft; among hard ones the later hard end; among soft ones an open end, then the later soft end. */
  predicate Beats(phase: Phase, b: Bounds, phase': Phase, b': Bounds) {
    match (phase, phase')
    case (Hard, Soft) => true
    case (Soft, Hard) => false
    case (Hard, Hard) => b.hardEnd > b'.hardEnd
    case (Soft, Soft) => b'.softEnd.Some? && (b.softEnd.None? || b.softEnd.value > b'.softEnd.value)
  }

  /** The phase the bounds put an instant in. */
  predicate Covers(b: Bounds, now: nat, phase: Phase) {
    match phase
    case Hard => b.notBefore <= now <= b.hardEnd
    case Soft => b.hasSoft && b.hardEnd < now && (b.softEnd.None? || now <= b.softEnd.value)
  }

  ghost predicate IsOffer(c: Option<Active>, b: Bounds, phase: Phase) {
    c.Some? && c.value.bounds == b && c.value.phase == phase
  }

  lemma {:induction false} ConcernsExactly(w: Window, engine: Option<string>)
    ensures Concerns(w, engine) <==> IsFor(w, engine)
  {
    hide Trim;
  }

  lemma {:induction false} PhaseExactly(b: Bounds, now: nat, phase: Phase)
    requires b.notBefore < b.hardEnd
    ensures PhaseAt(b, now) == Some(phase) <==> Covers(b, now, phase)
  {
  }

  lemma {:induction false} SaidInOrder(w: Window, b: Bounds)
    requires Says(w, b)
    ensures b.notBefore < b.hardEnd
  {
    hide ParseRfc3339Ms, Given;
  }

  /** A window becomes a candidate exactly by what its fields offer. */
  lemma {:induction false} OfferedExactly(
    w: Window, version: nat, now: nat, engine: Option<string>, b: Bounds, phase: Phase)
    ensures IsOffer(Candidate(w, version, now, engine), b, phase) <==> Offers(w, now, engine, b, phase)
    ensures Candidate(w, version, now, engine).Some? ==>
              Candidate(w, version, now, engine).value.window == w
              && Candidate(w, version, now, engine).value.version == version
  {
    hide ResolveBounds, Says, Concerns, IsFor, RetryAfter, PhaseAt, Covers;
    ConcernsExactly(w, engine);
    BoundsAreWhatTheFieldsSay(w, b);
    if Says(w, b) {
      SaidInOrder(w, b);
      PhaseExactly(b, now, phase);
    }
  }

  lemma {:induction false} InstantsFit(w: Window, b: Bounds)
    requires Says(w, b)
    ensures b.softEnd.Some? ==> b.softEnd.value < U64_MAX
  {
    hide ParseRfc3339Ms, Trim;
    if b.softEnd.Some? {
      if b.hasSoft {
        ParsedFits(Given(w.softNotAfter).value);
      } else {
        ParsedFits(Given(w.notAfter).value);
      }
    }
  }

  lemma {:induction false} ParsedFits(text: string)
    ensures ParseRfc3339Ms(text).Ok? ==> ParseRfc3339Ms(text).value < I64_LIMIT
  {
    hide SplitOffset, Trim, Find, ReadStamp, DaysFromCivil, TimeOfDayMs;
  }

  lemma {:induction false} OutranksIsBeats(x: Active, y: Active)
    requires x.bounds.softEnd.Some? ==> x.bounds.softEnd.value < U64_MAX
    requires y.bounds.softEnd.Some? ==> y.bounds.softEnd.value < U64_MAX
    ensures Outranks(x, y) <==> Beats(x.phase, x.bounds, y.phase, y.bounds)
  {
  }

  /**
   The best offer, read from the fields: none when no window offers anything; else some window's offer that no window's
   offer beats and that beats every offer before it in the list.
   */
  ghost predicate BestOffer(best: Option<Active>, m: Manifest, now: nat, engine: Option<string>) {
    match best
    case None => forall i, b, phase :: 0 <= i < |m.windows| ==> !Offers(m.windows[i], now, engine, b, phase)
    case Some(a) =>
      && a.version == m.version
      && (exists k :: 0 <= k < |m.windows| && OfferedAt(m.windows, k, a, now, engine))
      && (forall i, b, phase :: 0 <= i < |m.windows| && Offers(m.windows[i], now, engine, b, phase) ==>
            !Beats(phase, b, a.phase, a.bounds))
  }

  ghost predicate OfferedAt(ws: seq<Window>, k: int, a: Active, now: nat, engine: Option<string>)
    requires 0 <= k < |ws|
  {
    && a.window == ws[k] && Offers(ws[k], now, engine, a.bounds, a.phase)
    && forall i, b, phase :: 0 <= i < k && Offers(ws[i], now, engine, b, phase) ==>
         Beats(a.phase, a.bounds, phase, b)
  }

  /** How the candidate of an offering window ranks against another offer. */
  lemma {:induction false} OffersRank(
    w: Window, version: nat, now: nat, engine: Option<string>, b: Bounds, phase: Phase, a: Active)
    requires Offers(w, now, engine, b, phase) && Candidate(a.window, version, now, engine) == Some(a)
    ensures Candidate(w, version, now, engine).Some?
    ensures var c := Candidate(w, version, now, engine).value;
            && (Outranks(c, a) <==> Beats(phase, b, a.phase, a.bounds))
            && (Outranks(a, c) <==> Beats(a.phase, a.bounds, phase, b))
  {
    hide Candidate, Offers, Beats, Outranks;
    OfferedExactly(w, version, now, engine, b, phase);
    OfferedExactly(a.window, version, now, engine, a.bounds, a.phase);
    OfferFits(w, now, engine, b, phase);
    OfferFits(a.window, now, engine, a.bounds, a.phase);
    var c := Candidate(w, version, now, engine).value;
    OutranksIsBeats(c, a);
    OutranksIsBeats(a, c);
  }

  lemma {:induction false} BestIsBestOffer(best: Option<Active>, m: Manifest, now: nat, engine: Option<string>)
    requires IsBest(best, m.windows, m.version, now, engine)
    ensures BestOffer(best, m, now, engine)
  {
    hide Candidate, Offers, Beats, Outranks;
    if best.Some? {
      var a := best.value;
      var k :| 0 <= k < |m.windows| && FirstOffer(m.windows, k, a, m.version, now, engine);
      OfferedExactly(m.windows[k], m.version, now, engine, a.bounds, a.phase);
      forall i, b, phase | 0 <= i < |m.windows| && Offers(m.windows[i], now, engine, b, phase)
        ensures !Beats(phase, b, a.phase, a.bounds)
        ensures i < k ==> Beats(a.phase, a.bounds, phase, b)
      {
        OffersRank(m.windows[i], m.version, now, engine, b, phase, a);
      }
      assert OfferedAt(m.windows, k, a, now, engine);
    } else {
      forall i, b: Bounds, phase: Phase | 0 <= i < |m.windows|
        ensures !Offers(m.windows[i], now, engine, b, phase)
      {
        OfferedExactly(m.windows[i], m.version, now, engine, b, phase);
      }
    }
  }

  lemma {:induction false} OfferFits(w: Window, now: nat, engine: Option<string>, b: Bounds, phase: Phase)
    requires Offers(w, now, engine, b, phase)
    ensures b.softEnd.Some? ==> b.softEnd.value < U64_MAX
  {
    hide Says;
    InstantsFit(w, b);
  }

  /**
   The loop: an offered window that no other offer beats, the first of its rank in the list; none exactly when nothing
   is offered.
   */
  method SelectActive(m: Manifest, now: nat, engine: Option<string>) returns (best: Option<Active>)
    ensures IsBest(best, m.windows, m.version, now, engine)
    ensures BestOffer(best, m, now, engine)
  {
    hide Candidate, PhaseEnd, BestOffer;
    best := None;
    for n := 0 to |m.windows|
      invariant IsBest(best, m.windows[..n], m.version, now, engine)
    {
      ghost var before := best;
      var w := m.windows[n];
      var candidate := CandidateFor(w, m.version, now, engine);
      if candidate.Some? {
        var better := match best {
          case None => true
          case Some(b) => Outranks(candidate.value, b)
        };
        if better {
          best := candidate;
        }
      }
      OneMoreWindow(m.windows, n, before, best, m.version, now, engine);
    }
    assert m.windows[..|m.windows|] == m.windows;
    BestIsBestOffer(best, m, now, engine);
  }

  /** The body of the selection loop up to the comparison. */
  method CandidateFor(w: Window, version: nat, now: nat, engine: Option<string>) returns (c: Option<Active>)
    ensures c == Candidate(w, version, now, engine)
    ensures forall b, phase :: IsOffer(c, b, phase) <==> Offers(w, now, engine, b, phase)
  {
    hide ResolveBounds, Trim, Offers;
    forall b: Bounds, phase: Phase
      ensures IsOffer(Candidate(w, version, now, engine), b, phase) <==> Offers(w, now, engine, b, phase)
    {
      OfferedExactly(w, version, now, engine, b, phase);
    }
    if w.scope == Engine {
      var want := Given(engine);
      if want.None? {
        return None;
      }
      var got := if w.engineId.Some? then Trim(w.engineId.value) else "";
      if want.value != got {
        return None;
      }
    }
    var bounds := ResolveBounds(w);
    if bounds.Err? {
      return None;
    }
    var b := bounds.value;
    var phase: Phase;
    if now < b.notBefore {
      return None;
    } else if now <= b.hardEnd {
      phase := Hard;
    } else if !b.hasSoft {
      return None;
    } else if b.softEnd.None? || now <= b.softEnd.value {
      phase := Soft;
    } else {
      return None;
    }
    return Some(Active(w, phase, version, b, RetryAfter(b, phase, now)));
  }

  lemma {:induction false} OneMoreWindow(
    ws: seq<Window>, n: nat, before: Option<Active>, best: Option<Active>, version: nat, now: nat,
    engine: Option<string>)
    requires n < |ws| && IsBest(before, ws[..n], version, now, engine)
    requires var c := Candidate(ws[n], version, now, engine);
             best == if c.Some? && (before.None? || Outranks(c.value, before.value)) then c else before
    ensures IsBest(best, ws[..n + 1], version, now, engine)
  {
    hide Candidate, PhaseEnd;
    var shorter, longer := ws[..n], ws[..n + 1];
    assert forall i :: 0 <= i < n ==> longer[i] == shorter[i];
    var c := Candidate(ws[n], version, now, engine);
    if c.Some? && (before.None? || Outranks(c.value, before.value)) {
      assert FirstOffer(longer, n, c.value, version, now, engine);
    } else if best.Some? {
      var k :| 0 <= k < n && FirstOffer(shorter, k, best.value, version, now, engine);
      assert FirstOffer(longer, k, best.value, version, now, engine);
    }
  }

  /** Any two best candidates of lists with the same windows agree on the phase and its end. */
  lemma {:induction false} OrderDoesNotMatter(
    a: Option<Active>, b: Option<Active>, ws: seq<Window>, vs: seq<Window>, version: nat, now: nat,
    engine: Option<string>)
    requires IsBest(a, ws, version, now, engine) && IsBest(b, vs, version, now, engine)
    requires multiset(ws) == multiset(vs)
    ensures a.Some? <==> b.Some?
    ensures a.Some? ==> SameRank(a.value, b.value)
  {
    NotBeaten(a, b, ws, vs, version, now, engine);
    NotBeaten(b, a, vs, ws, version, now, engine);
  }

  lemma {:induction false} NotBeaten(
    a: Option<Active>, b: Option<Active>, ws: seq<Window>, vs: seq<Window>, version: nat, now: nat,
    engine: Option<string>)
    requires IsBest(a, ws, version, now, engine) && IsBest(b, vs, version, now, engine)
    requires multiset(ws) == multiset(vs)
    ensures a.Some? ==> b.Some? && !Outranks(a.value, b.value)
  {
    hide Candidate, Outranks;
    if a.Some? {
      var k :| 0 <= k < |ws| && FirstOffer(ws, k, a.value, version, now, engine);
      SameWindows(ws, vs);
      var j :| 0 <= j < |vs| && vs[j] == ws[k];
      assert Candidate(vs[j], version, now, engine) == a;
    }
  }

  lemma {:induction false} SameWindows(ws: seq<Window>, vs: seq<Window>)
    requires multiset(ws) == multiset(vs)
    ensures forall k :: 0 <= k < |ws| ==> exists j :: 0 <= j < |vs| && vs[j] == ws[k]
  {
    forall k | 0 <= k < |ws|
      ensures exists j :: 0 <= j < |vs| && vs[j] == ws[k]
    {
      assert ws[k] in multiset(ws);
      assert ws[k] in multiset(vs);
      assert ws[k] in vs;
    }
  }

  // ---- Refusing requests -----------------------------------------------------------------

  /** Some fleet-wide window is in its hard phase. */
  ghost predicate HardFleetWindow(ws: seq<Window>, now: nat) {
    exists i :: 0 <= i < |ws| && IsHardNow(ws[i], now)
  }

  predicate IsHardNow(w: Window, now: nat) {
    w.scope == Fleet && ResolveBounds(w).Ok?
      && ResolveBounds(w).value.notBefore <= now <= ResolveBounds(w).value.hardEnd
  }

  lemma {:induction false} HardCandidates(w: Window, version: nat, now: nat)
    ensures IsHardNow(w, now) <==>
            Candidate(w, version, now, None).Some? && Candidate(w, version, now, None).value.phase == Hard
  {
    hide ResolveBounds;
  }

  /** The best candidate is hard exactly when some fleet-wide window is. */
  lemma {:induction false} RefusesExactlyInHardWindow(best: Option<Active>, m: Manifest, now: nat)
    requires IsBest(best, m.windows, m.version, now, None)
    ensures best.Some? && best.value.phase == Hard <==> HardFleetWindow(m.windows, now)
  {
    hide Candidate, PhaseEnd, IsHardNow;
    forall i | 0 <= i < |m.windows|
      ensures IsHardNow(m.windows[i], now) <==>
              Candidate(m.windows[i], m.version, now, None).Some?
                && Candidate(m.windows[i], m.version, now, None).value.phase == Hard
    {
      HardCandidates(m.windows[i], m.version, now);
    }
  }

  /** Waiting these seconds reaches the end with less than a second to spare; at the end itself it is one second. */
  predicate ReachesEnd(now: nat, seconds: nat, end: nat) {
    if now < end then end <= now + seconds * 1000 < end + 1000 else now == end && seconds == 1
  }

  /** A hard refusal's retry delay reaches the end with less than a second to spare, or is the one-second minimum. */
  lemma {:induction false} RetryReachesHardEnd(w: Window, version: nat, now: nat, engine: Option<string>)
    requires Candidate(w, version, now, engine).Some? && Candidate(w, version, now, engine).value.phase == Hard
    ensures var a := Candidate(w, version, now, engine).value;
            ReachesEnd(now, a.retryAfter, a.bounds.hardEnd)
  {
    hide ResolveBounds, Concerns;
  }

  /** A soft answer's delay: three minutes while the end is open, else as for the hard end. */
  lemma {:induction false} RetryReachesSoftEnd(w: Window, version: nat, now: nat, engine: Option<string>)
    requires Candidate(w, version, now, engine).Some? && Candidate(w, version, now, engine).value.phase == Soft
    ensures var a := Candidate(w, version, now, engine).value;
            && (a.bounds.softEnd.None? ==> a.retryAfter == 180)
            && (a.bounds.softEnd.Some? ==> ReachesEnd(now, a.retryAfter, a.bounds.softEnd.value))
  {
    hide ResolveBounds, Concerns;
  }

  // ---- Edge state ------------------------------------------------------------------------

  datatype Verified = Verified(manifest: Manifest, signatureVerified: bool)

  datatype StateError = NotVerified | VersionRollback

  class MaintenanceState {
    var inner: Option<Verified>
    var versionFloor: nat

    /** What is held was verified, and nothing newer was ever accepted. */
    ghost predicate Valid()
      reads this
    {
      inner.Some? ==> inner.value.signatureVerified && inner.value.manifest.version == versionFloor
    }

    constructor ()
      ensures Valid() && inner.None? && versionFloor == 0
    {
      inner := None;
      versionFloor := 0;
    }

    method Clear()
      requires Valid()
      modifies this
      ensures Valid() && inner.None? && versionFloor == old(versionFloor)
    {
      inner := None;
    }

    /** Accepts exactly verified manifests that do not go back behind any accepted one, even across a clear. */
    method SetVerified(v: Verified) returns (r: Result<(), StateError>)
      requires Valid()
      modifies this
      ensures Valid() && versionFloor >= old(versionFloor)
      ensures r.Ok? <==> v.signatureVerified && v.manifest.version >= old(versionFloor)
      ensures r.Ok? ==> inner == Some(v) && versionFloor == v.manifest.version
      ensures r.Err? ==> inner == old(inner) && versionFloor == old(versionFloor)
      ensures r.Err? ==> r.error == if !v.signatureVerified then NotVerified else VersionRollback
    {
      if !v.signatureVerified {
        return Err(NotVerified);
      }
      if v.manifest.version < versionFloor {
        return Err(VersionRollback);
      }
      versionFloor := v.manifest.version;
      inner := Some(v);
      return Ok(());
    }

    method GetActive(now: nat, engine: Option<string>) returns (a: Option<Active>)
      requires Valid()
      ensures inner.None? ==> a.None?
      ensures inner.Some? ==> IsBest(a, inner.value.manifest.windows, inner.value.manifest.version, now, engine)
      ensures inner.Some? ==> BestOffer(a, inner.value.manifest, now, engine)
    {
      if inner.None? || !inner.value.signatureVerified {
        return None;
      }
      a := SelectActive(inner.value.manifest, now, engine);
    }

    /** The edge's guard: 503 with the delay, exactly while a held fleet-wide window is in its hard phase. */
    method RefuseIfMaintenance(now: nat) returns (retryAfter: Option<nat>)
      requires Valid()
      ensures retryAfter.Some? <==> inner.Some? && HardFleetWindow(inner.value.manifest.windows, now)
      ensures retryAfter.Some? ==>
                exists i ::
                  0 <= i < |inner.value.manifest.windows| && IsHardNow(inner.value.manifest.windows[i], now) &&
                  var end := ResolveBounds(inner.value.manifest.windows[i]).value.hardEnd;
                  && ReachesEnd(now, retryAfter.value, end)
                  && LatestHardEnd(inner.value.manifest.windows, now, end)
    {
      var active := GetActive(now, None);
      if inner.Some? {
        RefusesExactlyInHardWindow(active, inner.value.manifest, now);
      }
      if active.Some? && active.value.phase == Hard {
        ReportedDelay(active.value, inner.value.manifest, now);
        return Some(active.value.retryAfter);
      }
      return None;
    }
  }

  ghost predicate LatestHardEnd(ws: seq<Window>, now: nat, end: nat) {
    forall i :: 0 <= i < |ws| && IsHardNow(ws[i], now) ==> ResolveBounds(ws[i]).value.hardEnd <= end
  }

  lemma {:induction false} ReportedDelay(a: Active, m: Manifest, now: nat)
    requires IsBest(Some(a), m.windows, m.version, now, None) && a.phase == Hard
    ensures exists i :: 0 <= i < |m.windows| && IsHardNow(m.windows[i], now) &&
              var end := ResolveBounds(m.windows[i]).value.hardEnd;
              && ReachesEnd(now, a.retryAfter, end)
              && LatestHardEnd(m.windows, now, end)
  {
    hide Candidate;
    var k :| 0 <= k < |m.windows| && FirstOffer(m.windows, k, a, m.version, now, None);
    HardCandidates(m.windows[k], m.version, now);
    RetryReachesHardEnd(m.windows[k], m.version, now, None);
    CandidateBounds(m.windows[k], m.version, now);
    forall i | 0 <= i < |m.windows| && IsHardNow(m.windows[i], now)
      ensures ResolveBounds(m.windows[i]).value.hardEnd <= a.bounds.hardEnd
    {
      HardCandidates(m.windows[i], m.version, now);
      CandidateBounds(m.windows[i], m.version, now);
    }
  }

  lemma {:induction false} CandidateBounds(w: Window, version: nat, now: nat)
    requires Candidate(w, version, now, None).Some?
    ensures ResolveBounds(w) == Ok(Candidate(w, version, now, None).value.bounds)
  {
    hide ResolveBounds;
  }
}
