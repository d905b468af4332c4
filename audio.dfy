/**
 * The audio feedback unit of the typing animation (`useTypingAudio`): a
 * lazily created audio context, `ready`/`enabled`/`supported` flags and a
 * 40 ms debounce on beeps. Context time is integer milliseconds; creating
 * the context and emitting a tone are counted as events.
 */
module Audio {

  /** The debounce window: 0.04 s of context time. */
  const BeepInterval: int := 40

  /**
   * The unit's state. `contextsCreated` and `beepsEmitted` count the two
   * platform effects: constructing an AudioContext and starting a tone.
   */
  datatype AudioState = AudioState(
    contextExists: bool,
    ready: bool,
    enabled: bool,
    supported: bool,
    lastBeep: int,
    contextsCreated: nat,
    beepsEmitted: nat)

  /** No context, not ready, enabled and supported, last beep at time 0. */
  const InitialAudio := AudioState(false, false, true, true, 0, 0, 0)

  /** At most one context is ever made; readiness needs a context; unsupported means none could be made. */
  predicate Consistent(s: AudioState)
  {
    && s.contextsCreated <= 1
    && (s.contextExists <==> s.contextsCreated == 1)
    && (s.ready ==> s.contextExists)
    && (!s.supported ==> !s.contextExists)
  }

  /** `initializeAudio`: the new state and whether audio is usable. */
  function InitializeStep(s: AudioState, hasConstructor: bool): (AudioState, bool)
  {
    if s.contextExists then (s.(ready := true), true)
    else if !hasConstructor then (s.(ready := false, supported := false), false)
    else (s.(contextExists := true, contextsCreated := s.contextsCreated + 1, ready := true, supported := true), true)
  }

  /** `enableAudio`: initialise, and turn sound on only when that succeeded. */
  function EnableStep(s: AudioState, hasConstructor: bool): (AudioState, bool)
  {
    var (s', started) := InitializeStep(s, hasConstructor);
    if !started then (s'.(supported := false), false)
    else (s'.(enabled := true), true)
  }

  /** `toggleAudio`: enable when not ready yet, else flip `enabled`. */
  function ToggleStep(s: AudioState, hasConstructor: bool): AudioState
  {
    if !s.ready then EnableStep(s, hasConstructor).0 else s.(enabled := !s.enabled)
  }

  /** The gate and debounce of `playBeep`. */
  predicate BeepAllowed(s: AudioState, now: int)
  {
    s.ready && s.enabled && s.contextExists && now - s.lastBeep >= BeepInterval
  }

  /** `playBeep` at context time `now`: the new state and whether a tone was emitted. */
  function PlayBeepStep(s: AudioState, now: int): (AudioState, bool)
  {
    if !s.ready || !s.enabled then (s, false)
    else if !s.contextExists then (s, false)
    else if now - s.lastBeep < BeepInterval then (s, false)
    else (s.(lastBeep := now, beepsEmitted := s.beepsEmitted + 1), true)
  }

  /**
   * A beep is emitted exactly when the gate is open; then `lastBeep`
   * becomes `now`, otherwise nothing changes.
   */
  lemma BeepGate(s: AudioState, now: int)
    ensures PlayBeepStep(s, now).1 <==> BeepAllowed(s, now)
    ensures PlayBeepStep(s, now).0 == if BeepAllowed(s, now)
                                  then s.(lastBeep := now, beepsEmitted := s.beepsEmitted + 1)
                                  else s
  {
  }

  /** Two calls less than 40 ms apart give at most one beep; 40 ms or more apart, two when the gate is open. */
  lemma Debounce(s: AudioState, t1: int, t2: int)
    ensures var (s1, e1) := PlayBeepStep(s, t1);
            e1 && t2 - t1 < BeepInterval ==> !PlayBeepStep(s1, t2).1
    ensures var (s1, e1) := PlayBeepStep(s, t1);
            BeepAllowed(s, t1) && t2 - t1 >= BeepInterval ==> e1 && PlayBeepStep(s1, t2).1
  {
  }

  /** With `lastBeep` still at its initial 0, a call before time 40 is suppressed. */
  lemma EarlyBeepSuppressed(s: AudioState, now: int)
    requires s.lastBeep == InitialAudio.lastBeep
    requires now < BeepInterval
    ensures PlayBeepStep(s, now) == (s, false)
  {
  }

  /** A context that exists is reused: `ready` is set and nothing else changes. */
  lemma InitializeReuses(s: AudioState, hasConstructor: bool)
    requires s.contextExists
    ensures InitializeStep(s, hasConstructor) == (s.(ready := true), true)
  {
  }

  /** Without the constructor, initialisation fails and marks the unit not ready and unsupported. */
  lemma InitializeUnsupported(s: AudioState)
    requires !s.contextExists
    ensures InitializeStep(s, false) == (s.(ready := false, supported := false), false)
  {
  }

  /** Enabling reports the initialisation's outcome and sets `enabled` only on success. */
  lemma EnableOutcome(s: AudioState, hasConstructor: bool)
    ensures EnableStep(s, hasConstructor).1 == InitializeStep(s, hasConstructor).1
    ensures EnableStep(s, hasConstructor).1 ==> EnableStep(s, hasConstructor).0.enabled && EnableStep(s, hasConstructor).0.ready
    ensures !EnableStep(s, hasConstructor).1 ==> EnableStep(s, hasConstructor).0.enabled == s.enabled
  {
  }

  /** Toggling before the unit is ready is enabling; after, it flips `enabled` and nothing else. */
  lemma ToggleOutcome(s: AudioState, hasConstructor: bool)
    ensures !s.ready ==> ToggleStep(s, hasConstructor) == EnableStep(s, hasConstructor).0
    ensures s.ready ==> ToggleStep(s, hasConstructor) == s.(enabled := !s.enabled)
  {
  }

  /** Enabling twice is enabling once. */
  lemma EnableIdempotent(s: AudioState, hasConstructor: bool)
    ensures EnableStep(EnableStep(s, hasConstructor).0, hasConstructor) == EnableStep(s, hasConstructor)
  {
  }

  /** Toggling sound before the first start and then starting leaves the state of a single enable. */
  lemma ToggleThenEnable(s: AudioState, hasConstructor: bool)
    requires !s.ready
    ensures EnableStep(ToggleStep(s, hasConstructor), hasConstructor) == EnableStep(s, hasConstructor)
  {
    EnableIdempotent(s, hasConstructor);
  }

  /** Every operation keeps the state consistent; in particular no second context is ever created. */
  lemma ConsistencyPreserved(s: AudioState, hasConstructor: bool, now: int)
    requires Consistent(s)
    ensures Consistent(InitializeStep(s, hasConstructor).0)
    ensures Consistent(EnableStep(s, hasConstructor).0)
    ensures Consistent(ToggleStep(s, hasConstructor))
    ensures Consistent(PlayBeepStep(s, now).0)
  {
  }

  /**
   * Without an AudioContext constructor, "no context and not ready" lasts:
   * no operation creates a context or makes the unit ready, and a beep
   * request emits nothing.
   */
  lemma UnsupportedStaysSilent(s: AudioState, now: int)
    requires Consistent(s) && !s.contextExists
    ensures var s' := InitializeStep(s, false).0; !s'.contextExists && !s'.ready && s'.contextsCreated == 0
    ensures var s' := EnableStep(s, false).0; !s'.contextExists && !s'.ready && s'.contextsCreated == 0
    ensures var s' := ToggleStep(s, false); !s'.contextExists && !s'.ready && s'.contextsCreated == 0
    ensures PlayBeepStep(s, now) == (s, false)
  {
  }

  /** Without a context, any series of beep requests leaves the state unchanged and emits no tone. */
  lemma {:induction false} NoContextRunSilent(s: AudioState, times: seq<int>)
    requires Consistent(s) && !s.contextExists
    ensures BeepRun(s, times) == s && EmittedTimes(s, times) == []
    decreases |times|
  {
    if times != [] {
      UnsupportedStaysSilent(s, times[0]);
      NoContextRunSilent(s, times[1..]);
    }
  }

  /** The state after a series of `playBeep` calls at the given context times. */
  function BeepRun(s: AudioState, times: seq<int>): AudioState
    decreases |times|
  {
    if times == [] then s else BeepRun(PlayBeepStep(s, times[0]).0, times[1..])
  }

  /** The context times at which those calls emitted a tone. */
  function EmittedTimes(s: AudioState, times: seq<int>): seq<int>
    decreases |times|
  {
    if times == [] then []
    else
      var (s', emitted) := PlayBeepStep(s, times[0]);
      (if emitted then [times[0]] else []) + EmittedTimes(s', times[1..])
  }

  /**
   * Over any series of calls, the emitted tones are counted by
   * `beepsEmitted`, the first is at least 40 ms after the last one before
   * the series, each later one at least 40 ms after the previous, and
   * `lastBeep` ends at the last emission.
   */
  lemma {:induction false} BeepsSpaced(s: AudioState, times: seq<int>)
    ensures var e := EmittedTimes(s, times);
            && BeepRun(s, times).beepsEmitted == s.beepsEmitted + |e|
            && (|e| > 0 ==> e[0] - s.lastBeep >= BeepInterval)
            && (forall k :: 0 <= k < |e| - 1 ==> e[k + 1] - e[k] >= BeepInterval)
            && BeepRun(s, times).lastBeep == if e == [] then s.lastBeep else e[|e| - 1]
    decreases |times|
  {
    if times != [] {
      var (s', emitted) := PlayBeepStep(s, times[0]);
      BeepsSpaced(s', times[1..]);
      var rest := EmittedTimes(s', times[1..]);
      if emitted {
        assert s'.lastBeep == times[0];
        assert EmittedTimes(s, times) == [times[0]] + rest;
      } else {
        assert s' == s;
        assert EmittedTimes(s, times) == rest;
      }
    }
  }

  /** While `lastBeep` is still its initial 0, no series of beep requests emits a tone before context time 40. */
  lemma NoEarlyBeeps(s: AudioState, times: seq<int>)
    requires s.lastBeep == InitialAudio.lastBeep
    ensures forall k :: 0 <= k < |EmittedTimes(s, times)| ==> EmittedTimes(s, times)[k] >= BeepInterval
  {
    BeepsSpaced(s, times);
    Ascending(EmittedTimes(s, times));
  }

  /** Initialising, enabling and toggling never move `lastBeep`; only an emitted tone does. */
  lemma SetupKeepsLastBeep(s: AudioState, hasConstructor: bool)
    ensures InitializeStep(s, hasConstructor).0.lastBeep == s.lastBeep
    ensures EnableStep(s, hasConstructor).0.lastBeep == s.lastBeep
    ensures ToggleStep(s, hasConstructor).lastBeep == s.lastBeep
  {
  }

  /** One call to any of the unit's operations. */
  datatype AudioOp = Initialize | Enable | Toggle | Beep(now: int)

  /** The state after an operation, and the time of the tone it emitted, if any. */
  function Apply(s: AudioState, op: AudioOp, hasConstructor: bool): (AudioState, seq<int>)
  {
    match op
    case Initialize => (InitializeStep(s, hasConstructor).0, [])
    case Enable => (EnableStep(s, hasConstructor).0, [])
    case Toggle => (ToggleStep(s, hasConstructor), [])
    case Beep(now) =>
      var (s', emitted) := PlayBeepStep(s, now);
      (s', if emitted then [now] else [])
  }

  /** The tone times of a series of operations, in order. */
  function OpsEmitted(s: AudioState, ops: seq<AudioOp>, hasConstructor: bool): seq<int>
    decreases |ops|
  {
    if ops == [] then []
    else
      var (s', e) := Apply(s, ops[0], hasConstructor);
      e + OpsEmitted(s', ops[1..], hasConstructor)
  }

  /** An operation emits no tone and keeps `lastBeep`, or emits one tone 40 ms or more after it and moves `lastBeep` there. */
  lemma ApplyTone(s: AudioState, op: AudioOp, hasConstructor: bool)
    ensures var (s', e) := Apply(s, op, hasConstructor);
            || (e == [] && s'.lastBeep == s.lastBeep)
            || (|e| == 1 && e[0] - s.lastBeep >= BeepInterval && s'.lastBeep == e[0])
  {
    SetupKeepsLastBeep(s, hasConstructor);
  }

  /** Tone times spaced after `last`: the first 40 ms or more after it, each next 40 ms or more after the previous. */
  predicate SpacedAfter(last: int, e: seq<int>)
  {
    && (|e| > 0 ==> e[0] - last >= BeepInterval)
    && (forall k :: 0 <= k < |e| - 1 ==> e[k + 1] - e[k] >= BeepInterval)
  }

  /** Putting at most one tone, spaced after `last`, before a run spaced after it keeps the whole run spaced. */
  lemma PrependSpaced(last: int, e: seq<int>, next: int, rest: seq<int>)
    requires (e == [] && next == last) || (|e| == 1 && e[0] - last >= BeepInterval && next == e[0])
    requires SpacedAfter(next, rest)
    ensures SpacedAfter(last, e + rest)
  {
    var all := e + rest;
    if e != [] {
      forall k | 0 <= k < |all| - 1
        ensures all[k + 1] - all[k] >= BeepInterval
      {
        if k > 0 {
          assert all[k] == rest[k - 1] && all[k + 1] == rest[k];
        }
      }
    } else {
      assert all == rest;
    }
  }

  /**
   * Over any mix of operations, the first tone comes at least 40 ms after
   * `lastBeep` and each later tone at least 40 ms after the one before.
   */
  lemma {:induction false} OpsSpaced(s: AudioState, ops: seq<AudioOp>, hasConstructor: bool)
    ensures SpacedAfter(s.lastBeep, OpsEmitted(s, ops, hasConstructor))
    decreases |ops|
  {
    if ops != [] {
      var p := Apply(s, ops[0], hasConstructor);
      ApplyTone(s, ops[0], hasConstructor);
      OpsSpaced(p.0, ops[1..], hasConstructor);
      PrependSpaced(s.lastBeep, p.1, p.0.lastBeep, OpsEmitted(p.0, ops[1..], hasConstructor));
      assert OpsEmitted(s, ops, hasConstructor) == p.1 + OpsEmitted(p.0, ops[1..], hasConstructor);
    }
  }

  /** From the initial state, whatever the operations, no tone is ever emitted before context time 40. */
  lemma NoEarlyTones(ops: seq<AudioOp>, hasConstructor: bool)
    ensures forall k :: 0 <= k < |OpsEmitted(InitialAudio, ops, hasConstructor)| ==>
              OpsEmitted(InitialAudio, ops, hasConstructor)[k] >= BeepInterval
  {
    OpsSpaced(InitialAudio, ops, hasConstructor);
    Ascending(OpsEmitted(InitialAudio, ops, hasConstructor));
  }

  lemma {:induction false} Ascending(e: seq<int>)
    requires |e| > 0 ==> e[0] >= BeepInterval
    requires forall k :: 0 <= k < |e| - 1 ==> e[k + 1] - e[k] >= BeepInterval
    ensures forall k :: 0 <= k < |e| ==> e[k] >= BeepInterval
  {
    if |e| > 1 {
      Ascending(e[..|e| - 1]);
      assert e[|e| - 2] >= BeepInterval;
    }
  }

  /**
   * The hook's refs and state flags as one object. `hasConstructor` is the
   * platform's fixed answer to whether an AudioContext constructor exists.
   */
  class TypingAudio {
    const hasConstructor: bool
    var contextExists: bool
    var ready: bool
    var enabled: bool
    var supported: bool
    var lastBeep: int
    ghost var contextsCreated: nat
    ghost var beepsEmitted: nat

    ghost function State(): AudioState
      reads this
    {
      AudioState(contextExists, ready, enabled, supported, lastBeep, contextsCreated, beepsEmitted)
    }

    ghost predicate Valid()
      reads this
    {
      Consistent(State())
    }

    constructor (hasConstructor: bool)
      ensures Valid() && State() == InitialAudio
      ensures this.hasConstructor == hasConstructor
    {
      this.hasConstructor := hasConstructor;
      contextExists, ready, enabled, supported, lastBeep := false, false, true, true, 0;
      contextsCreated, beepsEmitted := 0, 0;
    }

    method InitializeAudio() returns (ok: bool)
      requires Valid()
      modifies this
      ensures Valid()
      ensures (State(), ok) == InitializeStep(old(State()), hasConstructor)
    {
      if contextExists {
        ready := true;
        return true;
      }
      if !hasConstructor {
        ready := false;
        supported := false;
        return false;
      }
      contextExists := true;
      contextsCreated := contextsCreated + 1;
      ready := true;
      supported := true;
      return true;
    }

    method EnableAudio() returns (ok: bool)
      requires Valid()
      modifies this
      ensures Valid()
      ensures (State(), ok) == EnableStep(old(State()), hasConstructor)
    {
      var started := InitializeAudio();
      if !started {
        supported := false;
        return false;
      }
      enabled := true;
      return true;
    }

    method PlayBeep(now: int) returns (emitted: bool)
      requires Valid()
      modifies this
      ensures Valid()
      ensures (State(), emitted) == PlayBeepStep(old(State()), now)
    {
      if !ready || !enabled {
        return false;
      }
      if !contextExists {
        return false;
      }
      if now - lastBeep < BeepInterval {
        return false;
      }
      lastBeep := now;
      beepsEmitted := beepsEmitted + 1;
      return true;
    }

    method ToggleAudio()
      requires Valid()
      modifies this
      ensures Valid()
      ensures State() == ToggleStep(old(State()), hasConstructor)
    {
      if !ready {
        var _ := EnableAudio();
        return;
      }
      enabled := !enabled;
    }
  }
}
