/**
 * The amplifier liveness checker: a periodic tick probes the amplifier and
 * moves between "alive" and "dead". While alive the probe is a version
 * query; while dead it only listens. Coming back to life triggers a replay
 * of the stored zone settings, and only a replay that succeeds makes the
 * checker alive again.
 */
module Checker {
  import opened Wrappers
  import opened Protocol
  import opened Amplifier

  /** The state after a tick, and whether the tick invoked the replay. */
  datatype Outcome = Outcome(alive: bool, replayed: bool)

  /** What one tick observed: whether the probe got an answer, and whether a replay made in that tick would succeed. */
  datatype Observation = Observation(responding: bool, replaySucceeds: bool)

  /** One tick of the checker. */
  function Step(alive: bool, responding: bool, replaySucceeds: bool): (o: Outcome)
    ensures o.replayed <==> !alive && responding
    ensures o.replayed ==> (o.alive <==> replaySucceeds)
    ensures !o.replayed ==> (o.alive <==> alive && responding)
  {
    if !alive && responding then Outcome(replaySucceeds, true)
    else if alive && !responding then Outcome(false, false)
    else Outcome(alive, false)
  }

  /** A replay is made exactly when a dead checker hears the amplifier; only its success revives the checker. */
  lemma StepReplay(alive: bool, responding: bool, replaySucceeds: bool)
    ensures Step(alive, responding, replaySucceeds).replayed <==> !alive && responding
    ensures Step(alive, responding, replaySucceeds).replayed ==>
      (Step(alive, responding, replaySucceeds).alive <==> replaySucceeds)
  {
  }

  /** An alive checker that gets no answer dies, without a replay; the other two cases keep the state. */
  lemma StepOtherwise(alive: bool, responding: bool, replaySucceeds: bool)
    ensures alive && !responding ==> Step(alive, responding, replaySucceeds) == Outcome(false, false)
    ensures alive && responding ==> Step(alive, responding, replaySucceeds) == Outcome(true, false)
    ensures !alive && !responding ==> Step(alive, responding, replaySucceeds) == Outcome(false, false)
  {
  }

  /** The state after a run of ticks: alive at the end only if the last tick heard the amplifier, and surely alive when that tick's replay would succeed. */
  function Run(alive: bool, obs: seq<Observation>): (r: bool)
    ensures obs == [] ==> r == alive
    ensures obs != [] ==> (r ==> obs[|obs| - 1].responding)
    ensures obs != [] && obs[|obs| - 1].responding && obs[|obs| - 1].replaySucceeds ==> r
  {
    if obs == [] then alive
    else
      var last := obs[|obs| - 1];
      Step(Run(alive, obs[..|obs| - 1]), last.responding, last.replaySucceeds).alive
  }

  /** Whether the last tick of a run invoked the replay. */
  function LastReplayed(alive: bool, obs: seq<Observation>): bool
    requires obs != []
  {
    var last := obs[|obs| - 1];
    Step(Run(alive, obs[..|obs| - 1]), last.responding, last.replaySucceeds).replayed
  }

  /** How many ticks of a run invoked the replay. */
  function ReplayCount(alive: bool, obs: seq<Observation>): (n: nat)
    ensures n <= |obs|
  {
    if obs == [] then 0
    else ReplayCount(alive, obs[..|obs| - 1]) + (if LastReplayed(alive, obs) then 1 else 0)
  }

  /** How many ticks of a run went from alive to dead. */
  function Deaths(alive: bool, obs: seq<Observation>): nat
  {
    if obs == [] then 0
    else Deaths(alive, obs[..|obs| - 1]) + (if Run(alive, obs[..|obs| - 1]) && !Run(alive, obs) then 1 else 0)
  }

  /** How many ticks of a run went from dead to alive. */
  function Recoveries(alive: bool, obs: seq<Observation>): nat
  {
    if obs == [] then 0
    else Recoveries(alive, obs[..|obs| - 1]) + (if !Run(alive, obs[..|obs| - 1]) && Run(alive, obs) then 1 else 0)
  }

  /** Starting alive, deaths and recoveries alternate: there is one more death than recoveries exactly when the run ends dead. */
  lemma {:induction false} DeathsAndRecoveries(obs: seq<Observation>)
    ensures Deaths(true, obs) == Recoveries(true, obs) + (if Run(true, obs) then 0 else 1)
  {
    if obs != [] {
      DeathsAndRecoveries(obs[..|obs| - 1]);
    }
  }

  /** Every recovery is a replay, and only a successful one. */
  lemma {:induction false} RecoveriesAreReplays(alive: bool, obs: seq<Observation>)
    ensures Recoveries(alive, obs) <= ReplayCount(alive, obs)
    ensures obs != [] && !Run(alive, obs[..|obs| - 1]) && Run(alive, obs) ==>
      LastReplayed(alive, obs) && obs[|obs| - 1].replaySucceeds
  {
    if obs != [] {
      RecoveriesAreReplays(alive, obs[..|obs| - 1]);
    }
  }

  /** An amplifier that always answers is never replayed to, and the checker stays alive. */
  lemma {:induction false} AlwaysRespondingNeverReplays(obs: seq<Observation>)
    requires forall i :: 0 <= i < |obs| ==> obs[i].responding
    ensures Run(true, obs) && ReplayCount(true, obs) == 0
  {
    if obs != [] {
      AlwaysRespondingNeverReplays(obs[..|obs| - 1]);
    }
  }

  /** A run that has gone dead and never hears the amplifier again stays dead and makes no replay. */
  lemma {:induction false} SilenceKeepsDead(obs: seq<Observation>, rest: seq<Observation>)
    requires !Run(true, obs)
    requires forall i :: 0 <= i < |rest| ==> !rest[i].responding
    ensures !Run(true, obs + rest) && ReplayCount(true, obs + rest) == ReplayCount(true, obs)
    decreases |rest|
  {
    if rest == [] {
      assert obs + rest == obs;
    } else {
      var rest' := rest[..|rest| - 1];
      assert (obs + rest)[..|obs + rest| - 1] == obs + rest';
      SilenceKeepsDead(obs, rest');
    }
  }

  /** AmplifierCheckerService: the liveness state and its probe. */
  class AmplifierCheckerService {
    const amp: ControlAE6MC
    const comm: Communication
    var isAlive: bool
    /** The observation of every tick so far. */
    ghost var observed: seq<Observation>
    /** The outcome of every replay invoked so far. */
    ghost var replays: seq<bool>

    ghost predicate Valid()
      reads this
    {
      isAlive == Run(true, observed) && |replays| == ReplayCount(true, observed)
    }

    /** The checker starts alive, before any tick. */
    constructor (amplifier: ControlAE6MC, communication: Communication)
      ensures amp == amplifier && comm == communication
      ensures isAlive && observed == [] && replays == []
      ensures Valid()
    {
      amp := amplifier;
      comm := communication;
      isAlive := true;
      observed := [];
      replays := [];
    }

    /**
     * While alive, asks for the version: a timeout counts as the empty answer.
     * While dead, only listens until the port times out. Responding means a non-empty answer.
     */
    method IsAmplifierRespondingAsync() returns (responding: bool)
      requires amp.Valid() && amp.comm == comm
      modifies amp, comm
      ensures amp.Valid()
      ensures isAlive ==> amp.calls == old(amp.calls) + [AmpCall.GetVersion]
      ensures isAlive ==> comm.written == old(comm.written) + ["(vr?)"]
      ensures isAlive ==> responding == (old(comm.pending) != [] && |old(comm.pending)[0]| > 0)
      ensures isAlive ==> comm.pending == if old(comm.pending) == [] then [] else old(comm.pending)[1..]
      ensures !isAlive ==> amp.calls == old(amp.calls) && comm.written == old(comm.written)
      ensures !isAlive ==> responding == (old(comm.pending) != []) && comm.pending == []
    {
      var result := "";
      if isAlive {
        var version := amp.GetVersionAsync();
        if version.Success? {
          result := version.value;
        }
      } else {
        result := comm.ReadUntilTimeoutAsync();
        JoinedEmpty(old(comm.pending));
      }
      responding := |result| > 0;
    }

    /** One tick: probe, then move between alive and dead; `replaySucceeds` says whether the replay would go through. */
    method Execute(replaySucceeds: bool) returns (responding: bool)
      requires Valid() && amp.Valid() && amp.comm == comm
      modifies this, amp, comm
      ensures Valid() && amp.Valid()
      ensures observed == old(observed) + [Observation(responding, replaySucceeds)]
      ensures Step(old(isAlive), responding, replaySucceeds) == Outcome(isAlive, |replays| == |old(replays)| + 1)
      ensures replays == old(replays) + if |replays| == |old(replays)| + 1 then [replaySucceeds] else []
      ensures old(isAlive) ==> amp.calls == old(amp.calls) + [AmpCall.GetVersion]
      ensures old(isAlive) ==> responding == (old(comm.pending) != [] && |old(comm.pending)[0]| > 0)
      ensures !old(isAlive) ==> amp.calls == old(amp.calls)
      ensures !old(isAlive) && !responding ==> comm.written == old(comm.written)
      ensures !old(isAlive) ==> responding == (old(comm.pending) != [])
      ensures old(isAlive) ==> comm.pending == if old(comm.pending) == [] then [] else old(comm.pending)[1..]
      ensures !old(isAlive) ==> comm.pending == []
    {
      responding := IsAmplifierRespondingAsync();
      if !isAlive && responding {
        replays := replays + [replaySucceeds];
        if replaySucceeds {
          isAlive := true;
        }
      } else if isAlive && !responding {
        isAlive := false;
      }
      var obs := observed + [Observation(responding, replaySucceeds)];
      assert obs[..|obs| - 1] == observed;
      observed := obs;
    }
  }
}
