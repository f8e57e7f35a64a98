/**
 * The zones controller: range checks on zone ids, get-or-create of zone
 * records, the listing of all zones, the setters (which first tell the
 * amplifier, then store the new value), and the global volume up/down.
 */
module Outputs {
  import opened Int32
  import opened Wrappers
  import opened NumText
  import opened Protocol
  import opened Models
  import opened Amplifier

  /** A change to one field of a stored zone. */
  datatype OutputEdit =
    | NameTo(name: string)
    | OrderTo(order: int32)
    | HiddenTo(hidden: bool)
    | OnTo(on: bool)
    | VolumeTo(volume: int32)
    | BassTo(bass: int32)
    | TrebleTo(treble: int32)
    | LinkTo(input: int32)

  /** A zone record with one field changed. */
  function Edited(o: Output, e: OutputEdit): (r: Output)
    ensures r.id == o.id
  {
    match e
    case NameTo(n) => o.(name := n)
    case OrderTo(n) => o.(order := n)
    case HiddenTo(h) => o.(hidden := h)
    case OnTo(b) => o.(on := b)
    case VolumeTo(v) => o.(volume := v)
    case BassTo(v) => o.(bass := v)
    case TrebleTo(v) => o.(treble := v)
    case LinkTo(i) => o.(linkInput := Some(i))
  }

  /** An edit sets its own field and leaves the id and every other field as they were. */
  lemma EditedChangesOneField(o: Output, e: OutputEdit)
    ensures var r := Edited(o, e);
      r.id == o.id && r.mute == o.mute
      && (if e.NameTo? then r.name == e.name else r.name == o.name)
      && (if e.OrderTo? then r.order == e.order else r.order == o.order)
      && (if e.HiddenTo? then r.hidden == e.hidden else r.hidden == o.hidden)
      && (if e.OnTo? then r.on == e.on else r.on == o.on)
      && (if e.VolumeTo? then r.volume == e.volume else r.volume == o.volume)
      && (if e.BassTo? then r.bass == e.bass else r.bass == o.bass)
      && (if e.TrebleTo? then r.treble == e.treble else r.treble == o.treble)
      && (if e.LinkTo? then r.linkInput == Some(e.input) else r.linkInput == o.linkInput)
  {
  }

  /** The zone table after editing zone `id`, which is created first when it is missing. */
  function EditOutput(outs: seq<Output>, id: int32, e: OutputEdit): (r: seq<Output>)
    ensures FindOutput(r, id) == Some(Edited(FindOutput(outs, id).GetOr(DefaultOutput(id)), e))
    ensures forall j :: j != id ==> FindOutput(r, j) == FindOutput(outs, j)
    ensures OutputIds(r) == OutputIds(GetOrCreateOutput(outs, id))
  {
    PutOutput(outs, Edited(FindOutput(outs, id).GetOr(DefaultOutput(id)), e))
  }

  /** The zone table after a get-or-create of every id below `n`, in increasing order; it only grows. */
  function CreatedBelow(outs: seq<Output>, n: int32): (r: seq<Output>)
    requires n >= 0
    ensures outs <= r
  {
    if n == 0 then outs else GetOrCreateOutput(CreatedBelow(outs, n - 1), n - 1)
  }

  /** In `r`, every id below `n` finds its stored or default zone of `outs`; every other lookup is as in `outs`. */
  predicate LooksUpCreated(outs: seq<Output>, r: seq<Output>, n: int32)
  {
    forall j: int32 ::
      (0 <= j < n ==> FindOutput(r, j) == Some(FindOutput(outs, j).GetOr(DefaultOutput(j)))) &&
      (!(0 <= j < n) ==> FindOutput(r, j) == FindOutput(outs, j))
  }

  /** Every id below `n` finds its stored or default zone; every other lookup is unchanged. */
  lemma {:induction false} CreatedBelowLookups(outs: seq<Output>, n: int32)
    requires n >= 0
    ensures LooksUpCreated(outs, CreatedBelow(outs, n), n)
  {
    if n > 0 {
      CreatedBelowLookups(outs, n - 1);
      LookupsStep(outs, n);
    }
  }

  /** A get-or-create of id n - 1 extends the lookups of a table created below n - 1 to those of one created below n. */
  lemma LookupsStep(outs: seq<Output>, n: int32)
    requires n > 0 && LooksUpCreated(outs, CreatedBelow(outs, n - 1), n - 1)
    ensures LooksUpCreated(outs, CreatedBelow(outs, n), n)
  {
    var prev := CreatedBelow(outs, n - 1);
    var next := CreatedBelow(outs, n);
    assert next == GetOrCreateOutput(prev, n - 1);
    forall j: int32
      ensures (0 <= j < n ==> FindOutput(next, j) == Some(FindOutput(outs, j).GetOr(DefaultOutput(j)))) &&
        (!(0 <= j < n) ==> FindOutput(next, j) == FindOutput(outs, j))
    {
      LookupAt(outs, prev, n, j);
    }
  }

  /** The step above for a single id `j`. */
  lemma LookupAt(outs: seq<Output>, prev: seq<Output>, n: int32, j: int32)
    requires n > 0
    requires 0 <= j < n - 1 ==> FindOutput(prev, j) == Some(FindOutput(outs, j).GetOr(DefaultOutput(j)))
    requires !(0 <= j < n - 1) ==> FindOutput(prev, j) == FindOutput(outs, j)
    ensures 0 <= j < n ==> FindOutput(GetOrCreateOutput(prev, n - 1), j) == Some(FindOutput(outs, j).GetOr(DefaultOutput(j)))
    ensures !(0 <= j < n) ==> FindOutput(GetOrCreateOutput(prev, n - 1), j) == FindOutput(outs, j)
  {
    if j != n - 1 {
      assert FindOutput(GetOrCreateOutput(prev, n - 1), j) == FindOutput(prev, j);
    }
  }

  /** What `List` returns for the ids below `n`: each stored zone or its default record, in id order. */
  function Listed(outs: seq<Output>, n: int32): (r: seq<Output>)
    requires n >= 0
    ensures |r| == n as int
  {
    if n == 0 then [] else Listed(outs, n - 1) + [FindOutput(outs, n - 1).GetOr(DefaultOutput(n - 1))]
  }

  /** Item k of the listing is the stored or default zone k. */
  lemma {:induction false} ListedAt(outs: seq<Output>, n: int32)
    requires n >= 0
    ensures forall k: int32 :: 0 <= k < n ==> Listed(outs, n)[k] == FindOutput(outs, k).GetOr(DefaultOutput(k)) && Listed(outs, n)[k].id == k
  {
    if n > 0 {
      ListedAt(outs, n - 1);
      var prev := Listed(outs, n - 1);
      var last := FindOutput(outs, n - 1).GetOr(DefaultOutput(n - 1));
      assert Listed(outs, n) == prev + [last];
      forall k: int32 | 0 <= k < n
        ensures Listed(outs, n)[k] == FindOutput(outs, k).GetOr(DefaultOutput(k)) && Listed(outs, n)[k].id == k
      {
        if k < n - 1 {
          assert Listed(outs, n)[k] == prev[k];
        } else {
          assert Listed(outs, n)[k] == last;
        }
      }
    }
  }

  /** One more id: the listing gains the stored or default record of `i`. */
  lemma ListedStep(outs: seq<Output>, i: int32)
    requires 0 <= i < Int32Max
    ensures Listed(outs, i + 1) == Listed(outs, i) + [FindOutput(outs, i).GetOr(DefaultOutput(i))]
  {
  }

  /** One more id: the table grows by a get-or-create of `i`, which is still looked up as originally stored. */
  lemma CreatedBelowStep(outs: seq<Output>, i: int32)
    requires 0 <= i < Int32Max
    ensures CreatedBelow(outs, i + 1) == GetOrCreateOutput(CreatedBelow(outs, i), i)
    ensures FindOutput(CreatedBelow(outs, i), i) == FindOutput(outs, i)
  {
    CreatedBelowLookups(outs, i);
  }

  /** Which way the global volume moves. */
  datatype Direction = Up | Down

  /** One zone's new volume: up to at most 100, or down to at least 0, with the 32-bit wrap of C# `int` arithmetic. */
  function Adjusted(volume: int32, change: int32, dir: Direction): (v: int32)
    ensures dir == Up ==> v <= 100
    ensures dir == Down ==> v >= 0
    ensures 0 <= volume <= 100 && 0 <= change && (dir == Up ==> volume as int + change as int <= Int32Max) ==> 0 <= v <= 100
  {
    match dir
    case Up => Min(100, Wrap32(volume as int + change as int))
    case Down => Max(0, Wrap32(volume as int - change as int))
  }

  /** Raising never goes above 100; from a volume in 0..100 and a change that does not overflow it stays in 0..100 and does not fall. */
  lemma VolumeUpBounds(volume: int32, change: int32)
    ensures Adjusted(volume, change, Up) <= 100
    ensures 0 <= volume <= 100 && 0 <= change && volume as int + change as int <= Int32Max ==>
      volume <= Adjusted(volume, change, Up) <= 100
  {
  }

  /** Lowering never goes below 0; from a volume in 0..100 and a change of at least 0 it stays in 0..100 and does not rise. */
  lemma VolumeDownBounds(volume: int32, change: int32)
    ensures Adjusted(volume, change, Down) >= 0
    ensures 0 <= volume <= 100 && 0 <= change ==> 0 <= Adjusted(volume, change, Down) <= volume
  {
  }

  /** The no-overflow premise is needed: a change near the int maximum wraps around to a negative volume. */
  lemma VolumeUpWraps()
    ensures Adjusted(100, Int32Max, Up) == Int32Min + 99
  {
  }

  /** Every stored zone with its volume moved; nothing else changes and no zone is created. */
  function AdjustAll(outs: seq<Output>, change: int32, dir: Direction): (r: seq<Output>)
    ensures |r| == |outs|
    ensures forall i :: 0 <= i < |outs| ==> r[i] == outs[i].(volume := Adjusted(outs[i].volume, change, dir))
  {
    seq(|outs|, i requires 0 <= i < |outs| => outs[i].(volume := Adjusted(outs[i].volume, change, dir)))
  }

  /** Moving the volume keeps the table's zones: same ids in the same order. */
  lemma AdjustAllKeepsZones(outs: seq<Output>, change: int32, dir: Direction)
    ensures OutputIds(AdjustAll(outs, change, dir)) == OutputIds(outs)
  {
    assert OutputIds(AdjustAll(outs, change, dir)) == OutputIds(outs);
  }

  /** With every stored volume in 0..100 and a non-negative change that cannot overflow, every volume stays in 0..100. */
  lemma AdjustAllInRange(outs: seq<Output>, change: int32, dir: Direction)
    requires forall i :: 0 <= i < |outs| ==> 0 <= outs[i].volume <= 100
    requires 0 <= change <= Int32Max - 100
    ensures forall i :: 0 <= i < |outs| ==> 0 <= AdjustAll(outs, change, dir)[i].volume <= 100
  {
    forall i | 0 <= i < |outs|
      ensures 0 <= AdjustAll(outs, change, dir)[i].volume <= 100
    {
      VolumeUpBounds(outs[i].volume, change);
      VolumeDownBounds(outs[i].volume, change);
    }
  }

  /** The SetVolume call of every zone, in table order. */
  function VolumeCalls(outs: seq<Output>): (calls: seq<AmpCall>)
    ensures |calls| == |outs|
  {
    if outs == [] then []
    else VolumeCalls(outs[..|outs| - 1]) + [AmpCall.SetVolume(outs[|outs| - 1].id, outs[|outs| - 1].volume)]
  }

  /** Call i sets zone i's volume to its value in the table. */
  lemma {:induction false} VolumeCallsAt(outs: seq<Output>)
    ensures forall i :: 0 <= i < |outs| ==> VolumeCalls(outs)[i] == AmpCall.SetVolume(outs[i].id, outs[i].volume)
  {
    if outs != [] {
      VolumeCallsAt(outs[..|outs| - 1]);
    }
  }

  /** The table and the calls one zone further into a pass over the table. */
  lemma AdjustPrefix(start: seq<AmpCall>, target: seq<Output>, outs: seq<Output>, i: nat)
    requires |target| == |outs| && i < |outs|
    ensures (target[..i] + outs[i..])[i := target[i]] == target[..i + 1] + outs[i + 1..]
    ensures start + VolumeCalls(target[..i + 1]) ==
      start + VolumeCalls(target[..i]) + [AmpCall.SetVolume(target[i].id, target[i].volume)]
  {
    assert target[..i + 1][..i] == target[..i];
    assert (target[..i] + outs[i..])[i := target[i]] == target[..i + 1] + outs[i + 1..];
  }

  /** OutputsController. */
  class OutputsController {
    const amp: ControlAE6MC
    const db: AudioContext

    constructor (amplifier: ControlAE6MC, dbContext: AudioContext)
      ensures amp == amplifier && db == dbContext
    {
      amp := amplifier;
      db := dbContext;
    }

    /** A zone id is accepted exactly when it is one of 0 .. amount - 1. */
    function CheckId(id: int32): (valid: bool)
      ensures valid <==> 0 <= id < NumberOfOutputs
    {
      !(id < 0 || id > NumberOfOutputs - 1)
    }

    /** The number of zones. */
    method GetAmount() returns (n: int32)
      ensures n == NumberOfOutputs
    {
      n := amp.GetOutputAmount();
    }

    /** The stored zone `id`; when missing and asked to, creates it with its default record first. */
    method GetOutputAsync(id: int32, createIfNotExist: bool) returns (output: Option<Output>)
      modifies db`outputs
      ensures createIfNotExist ==>
        output == Some(FindOutput(old(db.outputs), id).GetOr(DefaultOutput(id)))
        && db.outputs == GetOrCreateOutput(old(db.outputs), id)
      ensures !createIfNotExist ==> output == FindOutput(old(db.outputs), id) && db.outputs == old(db.outputs)
    {
      output := FindOutput(db.outputs, id);
      if output.None? && createIfNotExist {
        var created := DefaultOutput(id);
        db.outputs := db.outputs + [created];
        output := Some(created);
      }
    }

    /** Stores an edit of zone `id`, creating the zone first when missing. */
    method EditAsync(id: int32, e: OutputEdit)
      modifies db`outputs
      ensures db.outputs == EditOutput(old(db.outputs), id, e)
    {
      var output := GetOutputAsync(id, true);
      FoundOutputAt(db.outputs, id);
      var i := FirstIndex(OutputIds(db.outputs), id).value;
      db.outputs := db.outputs[i := Edited(output.value, e)];
      assert db.outputs == PutOutput(old(db.outputs), Edited(output.value, e));
    }

    /** Every zone 0 .. amount - 1, in id order, creating the missing ones. */
    method List() returns (list: seq<Output>)
      modifies db`outputs
      ensures list == Listed(old(db.outputs), NumberOfOutputs)
      ensures db.outputs == CreatedBelow(old(db.outputs), NumberOfOutputs)
    {
      list := [];
      ghost var start := db.outputs;
      var amount := amp.GetOutputAmount();
      var i: int32 := 0;
      while i < amount
        invariant 0 <= i <= amount
        invariant db.outputs == CreatedBelow(start, i)
        invariant list == Listed(start, i)
      {
        CreatedBelowStep(start, i);
        ListedStep(start, i);
        var output := GetOutputAsync(i, true);
        assert output.value == FindOutput(start, i).GetOr(DefaultOutput(i));
        list := list + [output.value];
        i := i + 1;
      }
    }

    /** Zone `id`, created with its default record when missing. */
    method Get(id: int32) returns (r: Result<Output, Status>)
      modifies db`outputs
      ensures !CheckId(id) ==> r == Failure(Inexistent) && db.outputs == old(db.outputs)
      ensures CheckId(id) ==>
        r == Success(FindOutput(old(db.outputs), id).GetOr(DefaultOutput(id)))
        && db.outputs == GetOrCreateOutput(old(db.outputs), id)
    {
      if !CheckId(id) {
        return Failure(Inexistent);
      }
      var output := GetOutputAsync(id, true);
      r := Success(output.value);
    }

    /** Renames zone `id`; a missing body is a bad request. */
    method PostName(id: int32, input: Option<string>) returns (r: Status)
      modifies db`outputs
      ensures r == if !CheckId(id) then Inexistent else if input.None? then BadRequest else NoContent
      ensures r == NoContent ==> db.outputs == EditOutput(old(db.outputs), id, NameTo(input.value))
      ensures r != NoContent ==> db.outputs == old(db.outputs)
    {
      if !CheckId(id) {
        return Inexistent;
      }
      if input.None? {
        return BadRequest;
      }
      EditAsync(id, NameTo(input.value));
      r := NoContent;
    }

    /** Sets zone `id`'s display order; a missing body is a bad request. */
    method PostOrder(id: int32, input: Option<int32>) returns (r: Status)
      modifies db`outputs
      ensures r == if !CheckId(id) then Inexistent else if input.None? then BadRequest else NoContent
      ensures r == NoContent ==> db.outputs == EditOutput(old(db.outputs), id, OrderTo(input.value))
      ensures r != NoContent ==> db.outputs == old(db.outputs)
    {
      if !CheckId(id) {
        return Inexistent;
      }
      if input.None? {
        return BadRequest;
      }
      EditAsync(id, OrderTo(input.value));
      r := NoContent;
    }

    /** Hides zone `id`. */
    method Hide(id: int32) returns (r: Status)
      modifies db`outputs
      ensures r == if CheckId(id) then NoContent else Inexistent
      ensures r == NoContent ==> db.outputs == EditOutput(old(db.outputs), id, HiddenTo(true))
      ensures r != NoContent ==> db.outputs == old(db.outputs)
    {
      if !CheckId(id) {
        return Inexistent;
      }
      EditAsync(id, HiddenTo(true));
      r := NoContent;
    }

    /** Shows zone `id` again. */
    method Unhide(id: int32) returns (r: Status)
      modifies db`outputs
      ensures r == if CheckId(id) then NoContent else Inexistent
      ensures r == NoContent ==> db.outputs == EditOutput(old(db.outputs), id, HiddenTo(false))
      ensures r != NoContent ==> db.outputs == old(db.outputs)
    {
      if !CheckId(id) {
        return Inexistent;
      }
      EditAsync(id, HiddenTo(false));
      r := NoContent;
    }

    /** Turns zone `id` on: the amplifier first, then the stored record. */
    method PostOn(id: int32) returns (r: Status)
      requires amp.Valid()
      modifies db`outputs, amp, amp.comm
      ensures r == if CheckId(id) then NoContent else Inexistent
      ensures r == NoContent ==>
        Appended(amp, [AmpCall.SetOnState(id, true)]) && db.outputs == EditOutput(old(db.outputs), id, OnTo(true))
      ensures r != NoContent ==> Appended(amp, []) && db.outputs == old(db.outputs)
    {
      if !CheckId(id) {
        return Inexistent;
      }
      amp.SetOnStateAsync(id, true);
      ghost var mid := amp.calls;
      EditAsync(id, OnTo(true));
      assert amp.calls == mid && amp.Valid();
      r := NoContent;
    }

    /** Turns zone `id` off: the amplifier first, then the stored record. */
    method PostOff(id: int32) returns (r: Status)
      requires amp.Valid()
      modifies db`outputs, amp, amp.comm
      ensures r == if CheckId(id) then NoContent else Inexistent
      ensures r == NoContent ==>
        Appended(amp, [AmpCall.SetOnState(id, false)]) && db.outputs == EditOutput(old(db.outputs), id, OnTo(false))
      ensures r != NoContent ==> Appended(amp, []) && db.outputs == old(db.outputs)
    {
      if !CheckId(id) {
        return Inexistent;
      }
      amp.SetOnStateAsync(id, false);
      ghost var mid := amp.calls;
      EditAsync(id, OnTo(false));
      assert amp.calls == mid && amp.Valid();
      r := NoContent;
    }

    /** Sets zone `id`'s treble: the amplifier first, then the stored record; a missing body is a bad request. */
    method PostTreble(id: int32, input: Option<int32>) returns (r: Status)
      requires amp.Valid()
      modifies db`outputs, amp, amp.comm
      ensures r == if !CheckId(id) then Inexistent else if input.None? then BadRequest else NoContent
      ensures r == NoContent ==>
        Appended(amp, [AmpCall.SetTreble(id, input.value)])
        && db.outputs == EditOutput(old(db.outputs), id, TrebleTo(input.value))
      ensures r != NoContent ==> Appended(amp, []) && db.outputs == old(db.outputs)
    {
      if !CheckId(id) {
        return Inexistent;
      }
      if input.None? {
        return BadRequest;
      }
      amp.SetTrebleAsync(id, input.value);
      ghost var mid := amp.calls;
      EditAsync(id, TrebleTo(input.value));
      assert amp.calls == mid && amp.Valid();
      r := NoContent;
    }

    /** Sets zone `id`'s bass: the amplifier first, then the stored record; a missing body is a bad request. */
    method PostBass(id: int32, input: Option<int32>) returns (r: Status)
      requires amp.Valid()
      modifies db`outputs, amp, amp.comm
      ensures r == if !CheckId(id) then Inexistent else if input.None? then BadRequest else NoContent
      ensures r == NoContent ==>
        Appended(amp, [AmpCall.SetBass(id, input.value)])
        && db.outputs == EditOutput(old(db.outputs), id, BassTo(input.value))
      ensures r != NoContent ==> Appended(amp, []) && db.outputs == old(db.outputs)
    {
      if !CheckId(id) {
        return Inexistent;
      }
      if input.None? {
        return BadRequest;
      }
      amp.SetBassAsync(id, input.value);
      ghost var mid := amp.calls;
      EditAsync(id, BassTo(input.value));
      assert amp.calls == mid && amp.Valid();
      r := NoContent;
    }

    /** Sets zone `id`'s volume: the amplifier first, then the stored record; a missing body is a bad request. */
    method PostVolume(id: int32, input: Option<int32>) returns (r: Status)
      requires amp.Valid()
      modifies db`outputs, amp, amp.comm
      ensures r == if !CheckId(id) then Inexistent else if input.None? then BadRequest else NoContent
      ensures r == NoContent ==>
        Appended(amp, [AmpCall.SetVolume(id, input.value)])
        && db.outputs == EditOutput(old(db.outputs), id, VolumeTo(input.value))
      ensures r != NoContent ==> Appended(amp, []) && db.outputs == old(db.outputs)
    {
      if !CheckId(id) {
        return Inexistent;
      }
      if input.None? {
        return BadRequest;
      }
      amp.SetVolumeAsync(id, input.value);
      ghost var mid := amp.calls;
      EditAsync(id, VolumeTo(input.value));
      assert amp.calls == mid && amp.Valid();
      r := NoContent;
    }

    /** Routes input `inputId` to zone `id`: the amplifier first, then the stored link. */
    method PostLink(id: int32, inputId: int32) returns (r: Status)
      requires amp.Valid()
      modifies db`outputs, amp, amp.comm
      ensures r == if CheckId(id) then Ok else Inexistent
      ensures r == Ok ==>
        Appended(amp, [AmpCall.Link(inputId, id)]) && db.outputs == EditOutput(old(db.outputs), id, LinkTo(inputId))
      ensures r != Ok ==> Appended(amp, []) && db.outputs == old(db.outputs)
    {
      if !CheckId(id) {
        return Inexistent;
      }
      amp.LinkAsync(inputId, id);
      ghost var mid := amp.calls;
      EditAsync(id, LinkTo(inputId));
      assert amp.calls == mid && amp.Valid();
      r := Ok;
    }

    /** Zone `i` of the pass over `outputs`: stores its moved volume, then sends it. */
    method AdjustOne(i: nat, output: Output, change: int32, dir: Direction,
                     ghost outputs: seq<Output>, ghost start: seq<AmpCall>)
      requires amp.Valid() && i < |outputs| && output == outputs[i]
      requires db.outputs == AdjustAll(outputs, change, dir)[..i] + outputs[i..]
      requires amp.calls == start + VolumeCalls(AdjustAll(outputs, change, dir)[..i])
      modifies db`outputs, amp, amp.comm
      ensures db.outputs == AdjustAll(outputs, change, dir)[..i + 1] + outputs[i + 1..]
      ensures amp.Valid() && amp.comm.pending == old(amp.comm.pending)
      ensures amp.calls == start + VolumeCalls(AdjustAll(outputs, change, dir)[..i + 1])
    {
      ghost var target := AdjustAll(outputs, change, dir);
      var updated := output.(volume := Adjusted(output.volume, change, dir));
      assert updated == target[i];
      AdjustPrefix(start, target, outputs, i);
      db.outputs := db.outputs[i := updated];
      amp.SetVolumeAsync(updated.id, updated.volume);
    }

    /** Moves the volume of every stored zone, in table order, sending each new volume to the amplifier. */
    method Adjust(change: int32, dir: Direction)
      requires amp.Valid()
      modifies db`outputs, amp, amp.comm
      ensures db.outputs == AdjustAll(old(db.outputs), change, dir)
      ensures Appended(amp, VolumeCalls(db.outputs))
    {
      var outputs := db.outputs;
      ghost var start := amp.calls;
      ghost var target := AdjustAll(outputs, change, dir);
      var i := 0;
      while i < |outputs|
        invariant 0 <= i <= |outputs|
        invariant db.outputs == target[..i] + outputs[i..]
        invariant amp.Valid() && amp.comm.pending == old(amp.comm.pending)
        invariant amp.calls == start + VolumeCalls(target[..i])
      {
        AdjustOne(i, outputs[i], change, dir, outputs, start);
        i := i + 1;
      }
      assert target[..i] == target;
      assert db.outputs == target;
    }

    /** Raises every stored zone's volume by the given change, 20 when the body is missing; none is created. */
    method VolumeUp(input: Option<int32>) returns (r: Status)
      requires amp.Valid()
      modifies db`outputs, amp, amp.comm
      ensures r == NoContent
      ensures db.outputs == AdjustAll(old(db.outputs), input.GetOr(20), Up)
      ensures Appended(amp, VolumeCalls(db.outputs))
    {
      var volumeChange := input.GetOr(20);
      Adjust(volumeChange, Up);
      r := NoContent;
    }

    /** The parameterless overload of VolumeUp: raises by 10. */
    method VolumeUpGet() returns (r: Status)
      requires amp.Valid()
      modifies db`outputs, amp, amp.comm
      ensures r == NoContent
      ensures db.outputs == AdjustAll(old(db.outputs), 10, Up)
      ensures Appended(amp, VolumeCalls(db.outputs))
    {
      r := VolumeUp(Some(10));
    }

    /** Lowers every stored zone's volume by the given change, 20 when the body is missing; none is created. */
    method VolumeDown(input: Option<int32>) returns (r: Status)
      requires amp.Valid()
      modifies db`outputs, amp, amp.comm
      ensures r == NoContent
      ensures db.outputs == AdjustAll(old(db.outputs), input.GetOr(20), Down)
      ensures Appended(amp, VolumeCalls(db.outputs))
    {
      var volumeChange := input.GetOr(20);
      Adjust(volumeChange, Down);
      r := NoContent;
    }

    /** The parameterless overload of VolumeDown: lowers by 10. */
    method VolumeDownGet() returns (r: Status)
      requires amp.Valid()
      modifies db`outputs, amp, amp.comm
      ensures r == NoContent
      ensures db.outputs == AdjustAll(old(db.outputs), 10, Down)
      ensures Appended(amp, VolumeCalls(db.outputs))
    {
      r := VolumeDown(Some(10));
    }
  }
}
