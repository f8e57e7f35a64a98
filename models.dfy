/**
 * The stored records and the database they live in.
 *
 * A table is a sequence in table order. A lookup by key is the first record
 * whose key matches, as `FirstOrDefault` reads it.
 */
module Models {
  import opened Int32
  import opened Wrappers
  import opened NumText

  /** A zone of the amplifier as stored. */
  datatype Output = Output(
    id: int32,
    name: string,
    order: int32,
    on: bool,
    volume: int32,
    bass: int32,
    treble: int32,
    mute: bool,
    linkInput: Option<int32>,
    hidden: bool)

  /** What `Input.Equals` can be handed: null, an input, or an object of some other class. */
  datatype Object = Null | InputObject(input: Input) | OtherObject

  /** An input of the amplifier as stored. Two inputs are the same input when their ids are. */
  datatype Input = Input(id: int32, name: string, order: int32, hidden: bool)
  {
    predicate Equals(obj: Object): (eq: bool)
      ensures eq ==> obj.InputObject? && obj.input.id == id
      ensures obj.InputObject? && obj.input.id == id ==> eq
    {
      if obj.Null? then false
      else if !obj.InputObject? then false
      else obj.input.id == id
    }

    /** The hash of an int is the int itself. */
    function GetHashCode(): (h: int32)
      ensures h == id
    {
      id
    }
  }

  /** A named set of zone settings. */
  datatype Template = Template(id: int32, name: string)

  /** One zone's settings in a template; an absent value leaves that setting alone. */
  datatype TemplateEntry = TemplateEntry(
    id: int32,
    templateId: int32,
    outputId: int32,
    linkWithInputId: Option<int32>,
    volume: Option<int32>,
    bass: Option<int32>,
    treble: Option<int32>,
    onState: Option<bool>)

  lemma EqualsNull(i: Input)
    ensures !i.Equals(Null)
  {
  }

  lemma EqualsOtherClass(i: Input)
    ensures !i.Equals(OtherObject)
  {
  }

  /** Identity is the id alone: name, order and the hidden flag play no part. */
  lemma EqualsById(a: Input, b: Input)
    ensures a.Equals(InputObject(b)) <==> a.id == b.id
    ensures a.Equals(InputObject(b.(name := a.name, order := a.order, hidden := a.hidden))) <==> a.id == b.id
  {
  }

  /** Equality on inputs is an equivalence. */
  lemma EqualsIsEquivalence(a: Input, b: Input, c: Input)
    ensures a.Equals(InputObject(a))
    ensures a.Equals(InputObject(b)) ==> b.Equals(InputObject(a))
    ensures a.Equals(InputObject(b)) && b.Equals(InputObject(c)) ==> a.Equals(InputObject(c))
  {
  }

  /** Equal inputs have equal hashes. */
  lemma EqualsHashCode(a: Input, b: Input)
    ensures a.Equals(InputObject(b)) ==> a.GetHashCode() == b.GetHashCode()
  {
  }

  /** The position of the first occurrence of `key`; None when there is none. */
  function FirstIndex<K(==)>(keys: seq<K>, key: K): (r: Option<nat>)
    ensures r.Some? ==> r.value < |keys| && keys[r.value] == key && key !in keys[..r.value]
    ensures r.None? <==> key !in keys
  {
    if keys == [] then None
    else if keys[0] == key then Some(0)
    else
      match FirstIndex(keys[1..], key)
      case None => None
      case Some(i) =>
        assert keys[..i + 1] == [keys[0]] + keys[1..][..i];
        Some(i + 1)
  }

  /** Appending a key changes the first occurrence only of a key that did not occur before. */
  lemma {:induction false} FirstIndexAppend<K>(keys: seq<K>, k: K, key: K)
    ensures FirstIndex(keys + [k], key) ==
      if key in keys then FirstIndex(keys, key) else if key == k then Some(|keys|) else None
    decreases |keys|
  {
    if keys != [] {
      assert (keys + [k])[1..] == keys[1..] + [k];
      FirstIndexAppend(keys[1..], k, key);
    }
  }

  /** Output ids in table order. */
  function OutputIds(outs: seq<Output>): (ids: seq<int32>)
    ensures |ids| == |outs| && forall i :: 0 <= i < |outs| ==> ids[i] == outs[i].id
  {
    seq(|outs|, i requires 0 <= i < |outs| => outs[i].id)
  }

  /** Input ids in table order. */
  function InputIds(ins: seq<Input>): (ids: seq<int32>)
    ensures |ids| == |ins| && forall i :: 0 <= i < |ins| ==> ids[i] == ins[i].id
  {
    seq(|ins|, i requires 0 <= i < |ins| => ins[i].id)
  }

  /** Template ids in table order. */
  function TemplateIds(ts: seq<Template>): (ids: seq<int32>)
    ensures |ids| == |ts| && forall i :: 0 <= i < |ts| ==> ids[i] == ts[i].id
  {
    seq(|ts|, i requires 0 <= i < |ts| => ts[i].id)
  }

  /** The (template id, entry id) pair of each template entry, in table order. */
  function EntryKeys(es: seq<TemplateEntry>): (keys: seq<(int32, int32)>)
    ensures |keys| == |es| && forall i :: 0 <= i < |es| ==> keys[i] == (es[i].templateId, es[i].id)
  {
    seq(|es|, i requires 0 <= i < |es| => (es[i].templateId, es[i].id))
  }

  /** The first stored output with this id. */
  function FindOutput(outs: seq<Output>, id: int32): (r: Option<Output>)
    ensures r.Some? <==> exists i :: 0 <= i < |outs| && outs[i].id == id
    ensures r.Some? ==> r.value.id == id && r.value in outs
  {
    match FirstIndex(OutputIds(outs), id)
    case Some(i) => Some(outs[i])
    case None =>
      assert forall i :: 0 <= i < |outs| ==> OutputIds(outs)[i] != id;
      None
  }

  /** The first stored input with this id. */
  function FindInput(ins: seq<Input>, id: int32): (r: Option<Input>)
    ensures r.Some? <==> exists i :: 0 <= i < |ins| && ins[i].id == id
    ensures r.Some? ==> r.value.id == id && r.value in ins
  {
    match FirstIndex(InputIds(ins), id)
    case Some(i) => Some(ins[i])
    case None =>
      assert forall i :: 0 <= i < |ins| ==> InputIds(ins)[i] != id;
      None
  }

  /** Appending an output whose id is not stored makes it the one found for its id and changes no other lookup. */
  lemma AppendOutputLookups(outs: seq<Output>, o: Output)
    requires FindOutput(outs, o.id).None?
    ensures FindOutput(outs + [o], o.id) == Some(o)
    ensures forall j :: j != o.id ==> FindOutput(outs + [o], j) == FindOutput(outs, j)
  {
    var r := outs + [o];
    assert OutputIds(r) == OutputIds(outs) + [o.id];
    assert o.id !in OutputIds(outs) by {
      FoundOutputAt(outs, o.id);
    }
    FirstIndexAppend(OutputIds(outs), o.id, o.id);
    forall j | j != o.id
      ensures FindOutput(r, j) == FindOutput(outs, j)
    {
      FirstIndexAppend(OutputIds(outs), o.id, j);
      FoundOutputAt(outs, j);
      FoundOutputAt(r, j);
    }
  }

  /** Appending an input whose id is not stored makes it the one found for its id and changes no other lookup. */
  lemma AppendInputLookups(ins: seq<Input>, x: Input)
    requires FindInput(ins, x.id).None?
    ensures FindInput(ins + [x], x.id) == Some(x)
    ensures forall j :: j != x.id ==> FindInput(ins + [x], j) == FindInput(ins, j)
  {
    var r := ins + [x];
    assert InputIds(r) == InputIds(ins) + [x.id];
    assert x.id !in InputIds(ins) by {
      FoundInputAt(ins, x.id);
    }
    FirstIndexAppend(InputIds(ins), x.id, x.id);
    forall j | j != x.id
      ensures FindInput(r, j) == FindInput(ins, j)
    {
      FirstIndexAppend(InputIds(ins), x.id, j);
      FoundInputAt(ins, j);
      FoundInputAt(r, j);
    }
  }

  /** The record a missing zone is created with: its id, name "Output <id>", order 0, everything else off or zero. */
  function DefaultOutput(id: int32): Output
  {
    Output(id, "Output " + IntToDec(id), 0, false, 0, 0, 0, false, None, false)
  }

  /** The record a missing input is created with: its id, name "Input <id>", order 0, not hidden. */
  function DefaultInput(id: int32): Input
  {
    Input(id, "Input " + IntToDec(id), 0, false)
  }

  /** The output table after a get-or-create of `id`: unchanged when `id` is stored, else with its default record appended. */
  function GetOrCreateOutput(outs: seq<Output>, id: int32): (r: seq<Output>)
    ensures FindOutput(r, id) == Some(FindOutput(outs, id).GetOr(DefaultOutput(id)))
    ensures forall j :: j != id ==> FindOutput(r, j) == FindOutput(outs, j)
    ensures outs <= r && |r| <= |outs| + 1
    ensures FindOutput(outs, id).Some? ==> r == outs
  {
    if FindOutput(outs, id).Some? then outs
    else
      AppendOutputLookups(outs, DefaultOutput(id));
      outs + [DefaultOutput(id)]
  }

  /** The input table after a get-or-create of `id`. */
  function GetOrCreateInput(ins: seq<Input>, id: int32): (r: seq<Input>)
    ensures FindInput(r, id) == Some(FindInput(ins, id).GetOr(DefaultInput(id)))
    ensures forall j :: j != id ==> FindInput(r, j) == FindInput(ins, j)
    ensures ins <= r && |r| <= |ins| + 1
    ensures FindInput(ins, id).Some? ==> r == ins
  {
    if FindInput(ins, id).Some? then ins
    else
      AppendInputLookups(ins, DefaultInput(id));
      ins + [DefaultInput(id)]
  }

  /** A second get-or-create of the same id adds nothing. */
  lemma GetOrCreateIdempotent(outs: seq<Output>, ins: seq<Input>, id: int32)
    ensures GetOrCreateOutput(GetOrCreateOutput(outs, id), id) == GetOrCreateOutput(outs, id)
    ensures GetOrCreateInput(GetOrCreateInput(ins, id), id) == GetOrCreateInput(ins, id)
  {
  }

  /** A found output sits at the first index of its id. */
  lemma FoundOutputAt(outs: seq<Output>, id: int32)
    ensures FindOutput(outs, id).Some? <==> FirstIndex(OutputIds(outs), id).Some?
    ensures FindOutput(outs, id).Some? ==> outs[FirstIndex(OutputIds(outs), id).value] == FindOutput(outs, id).value
  {
  }

  /** A found input sits at the first index of its id. */
  lemma FoundInputAt(ins: seq<Input>, id: int32)
    ensures FindInput(ins, id).Some? <==> FirstIndex(InputIds(ins), id).Some?
    ensures FindInput(ins, id).Some? ==> ins[FirstIndex(InputIds(ins), id).value] == FindInput(ins, id).value
  {
  }

  /** Replacing a record by one with the same id keeps every lookup but that of the replaced record. */
  lemma ReplaceOutput(outs: seq<Output>, i: nat, o: Output)
    requires i < |outs| && FirstIndex(OutputIds(outs), o.id) == Some(i)
    ensures OutputIds(outs[i := o]) == OutputIds(outs)
    ensures FindOutput(outs[i := o], o.id) == Some(o)
    ensures forall j :: j != o.id ==> FindOutput(outs[i := o], j) == FindOutput(outs, j)
  {
    assert OutputIds(outs[i := o]) == OutputIds(outs);
  }

  /** Replacing a record by one with the same id keeps every lookup but that of the replaced record. */
  lemma ReplaceInput(ins: seq<Input>, i: nat, x: Input)
    requires i < |ins| && FirstIndex(InputIds(ins), x.id) == Some(i)
    ensures InputIds(ins[i := x]) == InputIds(ins)
    ensures FindInput(ins[i := x], x.id) == Some(x)
    ensures forall j :: j != x.id ==> FindInput(ins[i := x], j) == FindInput(ins, j)
  {
    assert InputIds(ins[i := x]) == InputIds(ins);
  }

  /** The output table after a get-or-create of `o.id` and the assignment of `o` to that record. */
  function PutOutput(outs: seq<Output>, o: Output): (r: seq<Output>)
    ensures FindOutput(r, o.id) == Some(o)
    ensures forall j :: j != o.id ==> FindOutput(r, j) == FindOutput(outs, j)
    ensures OutputIds(r) == OutputIds(GetOrCreateOutput(outs, o.id))
  {
    var t := GetOrCreateOutput(outs, o.id);
    FoundOutputAt(t, o.id);
    var i := FirstIndex(OutputIds(t), o.id).value;
    ReplaceOutput(t, i, o);
    t[i := o]
  }

  /** The input table after a get-or-create of `x.id` and the assignment of `x` to that record. */
  function PutInput(ins: seq<Input>, x: Input): (r: seq<Input>)
    ensures FindInput(r, x.id) == Some(x)
    ensures forall j :: j != x.id ==> FindInput(r, j) == FindInput(ins, j)
    ensures InputIds(r) == InputIds(GetOrCreateInput(ins, x.id))
  {
    var t := GetOrCreateInput(ins, x.id);
    FoundInputAt(t, x.id);
    var i := FirstIndex(InputIds(t), x.id).value;
    ReplaceInput(t, i, x);
    t[i := x]
  }

  /**
   * What a controller action answers: 204, 200 with no body, 400 for a
   * missing body, 404, or the inexistent-resource error raised for an id out
   * of range.
   */
  datatype Status = NoContent | Ok | BadRequest | NotFound | Inexistent

  /** The tables of the audio database. */
  class AudioContext {
    var outputs: seq<Output>
    var inputs: seq<Input>
    var templates: seq<Template>
    var entries: seq<TemplateEntry>

    constructor (outputs: seq<Output>, inputs: seq<Input>, templates: seq<Template>, entries: seq<TemplateEntry>)
      ensures this.outputs == outputs && this.inputs == inputs
      ensures this.templates == templates && this.entries == entries
    {
      this.outputs := outputs;
      this.inputs := inputs;
      this.templates := templates;
      this.entries := entries;
    }
  }
}
