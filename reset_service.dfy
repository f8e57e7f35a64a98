/**
 * The state replay: after the amplifier comes back, every stored zone's
 * settings are sent to it again, zone by zone in table order.
 */
module Reset {
  import opened Int32
  import opened Wrappers
  import opened Protocol
  import opened Models
  import opened Amplifier

  /** The calls that restore one zone: bass, treble, volume, power, then its input when it has one. */
  function OutputReplay(o: Output): (calls: seq<AmpCall>)
    ensures |calls| == if o.linkInput.Some? then 5 else 4
  {
    [AmpCall.SetBass(o.id, o.bass)] + [AmpCall.SetTreble(o.id, o.treble)]
    + [AmpCall.SetVolume(o.id, o.volume)] + [AmpCall.SetOnState(o.id, o.on)]
    + (if o.linkInput.Some? then [AmpCall.Link(o.linkInput.value, o.id)] else [])
  }

  /** The calls that restore a whole output table, zone after zone. */
  function ReplayCalls(outs: seq<Output>): (calls: seq<AmpCall>)
    ensures 4 * |outs| <= |calls| <= 5 * |outs|
  {
    if outs == [] then [] else ReplayCalls(outs[..|outs| - 1]) + OutputReplay(outs[|outs| - 1])
  }

  /** How many stored zones have an input linked. */
  function LinkedCount(outs: seq<Output>): (n: nat)
    ensures n <= |outs|
  {
    if outs == [] then 0
    else LinkedCount(outs[..|outs| - 1]) + (if outs[|outs| - 1].linkInput.Some? then 1 else 0)
  }

  /** An empty table replays nothing. */
  lemma ReplayEmpty()
    ensures ReplayCalls([]) == []
  {
  }

  /** Four calls per zone, plus one per zone with a linked input. */
  lemma {:induction false} ReplayLength(outs: seq<Output>)
    ensures |ReplayCalls(outs)| == 4 * |outs| + LinkedCount(outs)
  {
    if outs != [] {
      ReplayLength(outs[..|outs| - 1]);
    }
  }

  /** Replaying two tables one after the other is replaying their concatenation: zones go in table order. */
  lemma {:induction false} ReplayConcat(a: seq<Output>, b: seq<Output>)
    ensures ReplayCalls(a + b) == ReplayCalls(a) + ReplayCalls(b)
    decreases |b|
  {
    if b != [] {
      var b' := b[..|b| - 1];
      var last := b[|b| - 1];
      assert (a + b)[..|a + b| - 1] == a + b' && (a + b)[|a + b| - 1] == last;
      assert ReplayCalls(a + b) == ReplayCalls(a + b') + OutputReplay(last);
      assert ReplayCalls(b) == ReplayCalls(b') + OutputReplay(last);
      ReplayConcat(a, b');
      AppendAssoc(ReplayCalls(a), ReplayCalls(b'), OutputReplay(last));
    } else {
      assert a + b == a;
    }
  }

  /** Every replayed call restores a setting of one stored zone to its stored value. */
  lemma {:induction false} ReplayFromStored(outs: seq<Output>)
    ensures forall c :: c in ReplayCalls(outs) ==> exists o :: o in outs && c in OutputReplay(o)
  {
    if outs != [] {
      var init := outs[..|outs| - 1];
      ReplayFromStored(init);
      forall c | c in ReplayCalls(outs)
        ensures exists o :: o in outs && c in OutputReplay(o)
      {
        if c in ReplayCalls(init) {
          var o :| o in init && c in OutputReplay(o);
          assert o in outs;
        } else {
          assert c in OutputReplay(outs[|outs| - 1]);
        }
      }
    }
  }

  /** The replay never issues the Reset call. */
  lemma {:induction false} ReplayHasNoReset(outs: seq<Output>)
    ensures AmpCall.Reset !in ReplayCalls(outs)
  {
    if outs != [] {
      ReplayHasNoReset(outs[..|outs| - 1]);
    }
  }

  /** The replay never resets the device: no `(rx)` line is written. */
  lemma ReplayNeverResets(outs: seq<Output>)
    ensures "(rx)" !in Lines(ReplayCalls(outs))
  {
    ReplayHasNoReset(outs);
    var calls := ReplayCalls(outs);
    forall i | 0 <= i < |calls|
      ensures Lines(calls)[i] != "(rx)"
    {
      OnlyResetWritesRx(calls[i]);
    }
  }

  /** One zone's calls appended after earlier ones, one call at a time. */
  lemma AppendReplay(a: seq<AmpCall>, o: Output)
    ensures a + OutputReplay(o) ==
      a + [AmpCall.SetBass(o.id, o.bass)] + [AmpCall.SetTreble(o.id, o.treble)]
      + [AmpCall.SetVolume(o.id, o.volume)] + [AmpCall.SetOnState(o.id, o.on)]
      + (if o.linkInput.Some? then [AmpCall.Link(o.linkInput.value, o.id)] else [])
  {
  }

  /** The replay of a table prefix one zone longer. */
  lemma ReplayPrefix(start: seq<AmpCall>, outs: seq<Output>, i: nat)
    requires i < |outs|
    ensures start + ReplayCalls(outs[..i + 1]) == start + ReplayCalls(outs[..i]) + OutputReplay(outs[i])
  {
    assert outs[..i + 1][..i] == outs[..i];
  }

  /** ResetService: replays the stored zone settings to the amplifier. */
  class ResetService {
    const amp: ControlAE6MC
    const db: AudioContext

    constructor (amplifier: ControlAE6MC, dbContext: AudioContext)
      ensures amp == amplifier && db == dbContext
    {
      amp := amplifier;
      db := dbContext;
    }

    /** Sends one zone's settings. */
    method ReplayOutput(output: Output)
      requires amp.Valid()
      modifies amp, amp.comm
      ensures amp.Valid() && amp.comm.pending == old(amp.comm.pending)
      ensures amp.calls == old(amp.calls) + OutputReplay(output)
    {
      amp.SetBassAsync(output.id, output.bass);
      amp.SetTrebleAsync(output.id, output.treble);
      amp.SetVolumeAsync(output.id, output.volume);
      amp.SetOnStateAsync(output.id, output.on);
      if output.linkInput.Some? {
        amp.LinkAsync(output.linkInput.value, output.id);
      }
      AppendReplay(old(amp.calls), output);
    }

    /** Sends every stored zone's settings, in table order; the table is only read. */
    method ResetAsync()
      requires amp.Valid()
      modifies amp, amp.comm
      ensures Appended(amp, ReplayCalls(db.outputs))
    {
      var outputs := db.outputs;
      ghost var start := amp.calls;
      var i := 0;
      while i < |outputs|
        invariant 0 <= i <= |outputs|
        invariant amp.Valid() && amp.comm.pending == old(amp.comm.pending)
        invariant amp.calls == start + ReplayCalls(outputs[..i])
      {
        ReplayOutput(outputs[i]);
        ReplayPrefix(start, outputs, i);
        i := i + 1;
      }
      assert outputs[..i] == outputs;
    }
  }
}
