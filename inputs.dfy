/**
 * The inputs controller: range checks on input ids, get-or-create of input
 * records, the listing of all inputs and the setters of the stored fields.
 * None of it talks to the amplifier.
 */
module Inputs {
  import opened Int32
  import opened Wrappers
  import opened NumText
  import opened Protocol
  import opened Models
  import opened Amplifier

  /** A change to one field of a stored input. */
  datatype InputEdit =
    | NameTo(name: string)
    | OrderTo(order: int32)
    | HiddenTo(hidden: bool)

  /** An input record with one field changed. */
  function Edited(x: Input, e: InputEdit): (r: Input)
    ensures r.id == x.id
  {
    match e
    case NameTo(n) => x.(name := n)
    case OrderTo(n) => x.(order := n)
    case HiddenTo(h) => x.(hidden := h)
  }

  /** An edit sets its own field and leaves the id and the other fields as they were. */
  lemma EditedChangesOneField(x: Input, e: InputEdit)
    ensures var r := Edited(x, e);
      r.id == x.id
      && (if e.NameTo? then r.name == e.name else r.name == x.name)
      && (if e.OrderTo? then r.order == e.order else r.order == x.order)
      && (if e.HiddenTo? then r.hidden == e.hidden else r.hidden == x.hidden)
  {
  }

  /** An edited input is still the same input. */
  lemma EditedEqualsOriginal(x: Input, e: InputEdit)
    ensures Edited(x, e).Equals(InputObject(x)) && x.Equals(InputObject(Edited(x, e)))
  {
  }

  /** The input table after editing input `id`, which is created first when it is missing. */
  function EditInput(ins: seq<Input>, id: int32, e: InputEdit): (r: seq<Input>)
    ensures FindInput(r, id) == Some(Edited(FindInput(ins, id).GetOr(DefaultInput(id)), e))
    ensures forall j :: j != id ==> FindInput(r, j) == FindInput(ins, j)
    ensures InputIds(r) == InputIds(GetOrCreateInput(ins, id))
  {
    PutInput(ins, Edited(FindInput(ins, id).GetOr(DefaultInput(id)), e))
  }

  /** The input table after a get-or-create of every id below `n`, in increasing order; it only grows. */
  function CreatedBelow(ins: seq<Input>, n: int32): (r: seq<Input>)
    requires n >= 0
    ensures ins <= r
  {
    if n == 0 then ins else GetOrCreateInput(CreatedBelow(ins, n - 1), n - 1)
  }

  /** In `r`, every id below `n` finds its stored or default input of `ins`; every other lookup is as in `ins`. */
  predicate LooksUpCreated(ins: seq<Input>, r: seq<Input>, n: int32)
  {
    forall j: int32 ::
      (0 <= j < n ==> FindInput(r, j) == Some(FindInput(ins, j).GetOr(DefaultInput(j)))) &&
      (!(0 <= j < n) ==> FindInput(r, j) == FindInput(ins, j))
  }

  /** Every id below `n` finds its stored or default input; every other lookup is unchanged. */
  lemma {:induction false} CreatedBelowLookups(ins: seq<Input>, n: int32)
    requires n >= 0
    ensures LooksUpCreated(ins, CreatedBelow(ins, n), n)
  {
    if n > 0 {
      CreatedBelowLookups(ins, n - 1);
      LookupsStep(ins, n);
    }
  }

  /** A get-or-create of id n - 1 extends the lookups of a table created below n - 1 to those of one created below n. */
  lemma LookupsStep(ins: seq<Input>, n: int32)
    requires n > 0 && LooksUpCreated(ins, CreatedBelow(ins, n - 1), n - 1)
    ensures LooksUpCreated(ins, CreatedBelow(ins, n), n)
  {
    var prev := CreatedBelow(ins, n - 1);
    var next := CreatedBelow(ins, n);
    assert next == GetOrCreateInput(prev, n - 1);
    forall j: int32
      ensures (0 <= j < n ==> FindInput(next, j) == Some(FindInput(ins, j).GetOr(DefaultInput(j)))) &&
        (!(0 <= j < n) ==> FindInput(next, j) == FindInput(ins, j))
    {
      LookupAt(ins, prev, n, j);
    }
  }

  /** The step above for a single id `j`. */
  lemma LookupAt(ins: seq<Input>, prev: seq<Input>, n: int32, j: int32)
    requires n > 0
    requires 0 <= j < n - 1 ==> FindInput(prev, j) == Some(FindInput(ins, j).GetOr(DefaultInput(j)))
    requires !(0 <= j < n - 1) ==> FindInput(prev, j) == FindInput(ins, j)
    ensures 0 <= j < n ==> FindInput(GetOrCreateInput(prev, n - 1), j) == Some(FindInput(ins, j).GetOr(DefaultInput(j)))
    ensures !(0 <= j < n) ==> FindInput(GetOrCreateInput(prev, n - 1), j) == FindInput(ins, j)
  {
    if j != n - 1 {
      assert FindInput(GetOrCreateInput(prev, n - 1), j) == FindInput(prev, j);
    }
  }

  /** What `List` returns for the ids below `n`: each stored input or its default record, in id order. */
  function Listed(ins: seq<Input>, n: int32): (r: seq<Input>)
    requires n >= 0
    ensures |r| == n as int
  {
    if n == 0 then [] else Listed(ins, n - 1) + [FindInput(ins, n - 1).GetOr(DefaultInput(n - 1))]
  }

  /** Item k of the listing is the stored or default input k. */
  lemma {:induction false} ListedAt(ins: seq<Input>, n: int32)
    requires n >= 0
    ensures forall k: int32 :: 0 <= k < n ==> Listed(ins, n)[k] == FindInput(ins, k).GetOr(DefaultInput(k)) && Listed(ins, n)[k].id == k
  {
    if n > 0 {
      ListedAt(ins, n - 1);
      var prev := Listed(ins, n - 1);
      var last := FindInput(ins, n - 1).GetOr(DefaultInput(n - 1));
      assert Listed(ins, n) == prev + [last];
      forall k: int32 | 0 <= k < n
        ensures Listed(ins, n)[k] == FindInput(ins, k).GetOr(DefaultInput(k)) && Listed(ins, n)[k].id == k
      {
        if k < n - 1 {
          assert Listed(ins, n)[k] == prev[k];
        } else {
          assert Listed(ins, n)[k] == last;
        }
      }
    }
  }

  /** One more id: the listing gains the stored or default record of `i`. */
  lemma ListedStep(ins: seq<Input>, i: int32)
    requires 0 <= i < Int32Max
    ensures Listed(ins, i + 1) == Listed(ins, i) + [FindInput(ins, i).GetOr(DefaultInput(i))]
  {
  }

  /** One more id: the table grows by a get-or-create of `i`, which is still looked up as originally stored. */
  lemma CreatedBelowStep(ins: seq<Input>, i: int32)
    requires 0 <= i < Int32Max
    ensures CreatedBelow(ins, i + 1) == GetOrCreateInput(CreatedBelow(ins, i), i)
    ensures FindInput(CreatedBelow(ins, i), i) == FindInput(ins, i)
  {
    CreatedBelowLookups(ins, i);
  }

  /** InputsController. */
  class InputsController {
    const amp: ControlAE6MC
    const db: AudioContext

    constructor (amplifier: ControlAE6MC, dbContext: AudioContext)
      ensures amp == amplifier && db == dbContext
    {
      amp := amplifier;
      db := dbContext;
    }

    /** An input id is accepted exactly when it is one of 0 .. amount - 1. */
    function CheckId(id: int32): (valid: bool)
      ensures valid <==> 0 <= id < NumberOfInputs
    {
      !(id < 0 || id > NumberOfInputs - 1)
    }

    /** The number of inputs. */
    method GetAmount() returns (n: int32)
      ensures n == NumberOfInputs
    {
      n := amp.GetInputAmount();
    }

    /** The stored input `id`; when missing and asked to, creates it with its default record first. */
    method GetInputAsync(id: int32, createIfNotExist: bool) returns (input: Option<Input>)
      modifies db`inputs
      ensures createIfNotExist ==>
        input == Some(FindInput(old(db.inputs), id).GetOr(DefaultInput(id)))
        && db.inputs == GetOrCreateInput(old(db.inputs), id)
      ensures !createIfNotExist ==> input == FindInput(old(db.inputs), id) && db.inputs == old(db.inputs)
    {
      input := FindInput(db.inputs, id);
      if input.None? && createIfNotExist {
        var created := DefaultInput(id);
        db.inputs := db.inputs + [created];
        input := Some(created);
      }
    }

    /** Stores an edit of input `id`, creating the input first when missing. */
    method EditAsync(id: int32, e: InputEdit)
      modifies db`inputs
      ensures db.inputs == EditInput(old(db.inputs), id, e)
    {
      var input := GetInputAsync(id, true);
      FoundInputAt(db.inputs, id);
      var i := FirstIndex(InputIds(db.inputs), id).value;
      db.inputs := db.inputs[i := Edited(input.value, e)];
      assert db.inputs == PutInput(old(db.inputs), Edited(input.value, e));
    }

    /** Every input 0 .. amount - 1, in id order, creating the missing ones. */
    method List() returns (list: seq<Input>)
      modifies db`inputs
      ensures list == Listed(old(db.inputs), NumberOfInputs)
      ensures db.inputs == CreatedBelow(old(db.inputs), NumberOfInputs)
    {
      list := [];
      ghost var start := db.inputs;
      var amount := amp.GetInputAmount();
      var i: int32 := 0;
      while i < amount
        invariant 0 <= i <= amount
        invariant db.inputs == CreatedBelow(start, i)
        invariant list == Listed(start, i)
      {
        CreatedBelowStep(start, i);
        ListedStep(start, i);
        var input := GetInputAsync(i, true);
        assert input.value == FindInput(start, i).GetOr(DefaultInput(i));
        list := list + [input.value];
        i := i + 1;
      }
    }

    /** Input `id`, created with its default record when missing. */
    method Get(id: int32) returns (r: Result<Input, Status>)
      modifies db`inputs
      ensures !CheckId(id) ==> r == Failure(Inexistent) && db.inputs == old(db.inputs)
      ensures CheckId(id) ==>
        r == Success(FindInput(old(db.inputs), id).GetOr(DefaultInput(id)))
        && db.inputs == GetOrCreateInput(old(db.inputs), id)
    {
      if !CheckId(id) {
        return Failure(Inexistent);
      }
      var input := GetInputAsync(id, true);
      r := Success(input.value);
    }

    /** Renames input `id`; a missing body is a bad request. */
    method PostName(id: int32, input: Option<string>) returns (r: Status)
      modifies db`inputs
      ensures r == if !CheckId(id) then Inexistent else if input.None? then BadRequest else NoContent
      ensures r == NoContent ==> db.inputs == EditInput(old(db.inputs), id, NameTo(input.value))
      ensures r != NoContent ==> db.inputs == old(db.inputs)
    {
      if !CheckId(id) {
        return Inexistent;
      }
      if input.None? {
        return BadRequest;
      }
      EditAsync(id, NameTo(input.value));
      r := NoContent;
    }

    /** Sets input `id`'s display order; a missing body is a bad request. */
    method PostOrder(id: int32, input: Option<int32>) returns (r: Status)
      modifies db`inputs
      ensures r == if !CheckId(id) then Inexistent else if input.None? then BadRequest else NoContent
      ensures r == NoContent ==> db.inputs == EditInput(old(db.inputs), id, OrderTo(input.value))
      ensures r != NoContent ==> db.inputs == old(db.inputs)
    {
      if !CheckId(id) {
        return Inexistent;
      }
      if input.None? {
        return BadRequest;
      }
      EditAsync(id, OrderTo(input.value));
      r := NoContent;
    }

    /** Hides input `id`. */
    method Hide(id: int32) returns (r: Status)
      modifies db`inputs
      ensures r == if CheckId(id) then NoContent else Inexistent
      ensures r == NoContent ==> db.inputs == EditInput(old(db.inputs), id, HiddenTo(true))
      ensures r != NoContent ==> db.inputs == old(db.inputs)
    {
      if !CheckId(id) {
        return Inexistent;
      }
      EditAsync(id, HiddenTo(true));
      r := NoContent;
    }

    /** Shows input `id` again. */
    method Unhide(id: int32) returns (r: Status)
      modifies db`inputs
      ensures r == if CheckId(id) then NoContent else Inexistent
      ensures r == NoContent ==> db.inputs == EditInput(old(db.inputs), id, HiddenTo(false))
      ensures r != NoContent ==> db.inputs == old(db.inputs)
    {
      if !CheckId(id) {
        return Inexistent;
      }
      EditAsync(id, HiddenTo(false));
      r := NoContent;
    }
  }
}
