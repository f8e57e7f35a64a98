/**
 * The templates controller: templates and their entries as tables, and
 * applying a template, which walks the template's entries and, for each
 * stored zone an entry names, sends and stores only the settings that
 * differ from what is stored.
 */
module Templates {
  import opened Int32
  import opened Wrappers
  import opened Protocol
  import opened Models
  import opened Amplifier

  /** The first stored template with this id. */
  function FindTemplate(ts: seq<Template>, id: int32): (r: Option<Template>)
    ensures r.Some? <==> exists i :: 0 <= i < |ts| && ts[i].id == id
    ensures r.Some? ==> r.value.id == id && r.value in ts
  {
    match FirstIndex(TemplateIds(ts), id)
    case Some(i) => Some(ts[i])
    case None =>
      assert forall i :: 0 <= i < |ts| ==> TemplateIds(ts)[i] != id;
      None
  }

  /** The entries of template `id`, in table order. */
  function EntriesOf(es: seq<TemplateEntry>, id: int32): (r: seq<TemplateEntry>)
    ensures forall e :: e in r <==> e in es && e.templateId == id
    ensures |r| <= |es|
  {
    if es == [] then []
    else EntriesOf(es[..|es| - 1], id) + (if es[|es| - 1].templateId == id then [es[|es| - 1]] else [])
  }

  /** The entries of every template but `id`, in table order. */
  function EntriesNotOf(es: seq<TemplateEntry>, id: int32): (r: seq<TemplateEntry>)
    ensures forall e :: e in r <==> e in es && e.templateId != id
    ensures |r| <= |es|
  {
    if es == [] then []
    else EntriesNotOf(es[..|es| - 1], id) + (if es[|es| - 1].templateId != id then [es[|es| - 1]] else [])
  }

  /** A sequence with its element at `i` taken out. */
  function RemoveAt<T>(s: seq<T>, i: nat): (r: seq<T>)
    requires i < |s|
    ensures |r| == |s| - 1
    ensures forall k :: 0 <= k < i ==> r[k] == s[k]
    ensures forall k :: i <= k < |r| ==> r[k] == s[k + 1]
    ensures multiset(r) + multiset{s[i]} == multiset(s)
  {
    assert s == s[..i] + [s[i]] + s[i + 1..];
    s[..i] + s[i + 1..]
  }

  /** Filtering a table by template distributes over concatenation. */
  lemma {:induction false} EntriesOfConcat(a: seq<TemplateEntry>, b: seq<TemplateEntry>, id: int32)
    ensures EntriesOf(a + b, id) == EntriesOf(a, id) + EntriesOf(b, id)
    ensures EntriesNotOf(a + b, id) == EntriesNotOf(a, id) + EntriesNotOf(b, id)
    decreases |b|
  {
    if b == [] {
      assert a + b == a;
    } else {
      var b' := b[..|b| - 1];
      var last := b[|b| - 1];
      assert (a + b)[..|a + b| - 1] == a + b' && (a + b)[|a + b| - 1] == last;
      EntriesOfConcat(a, b', id);
      AppendAssoc(EntriesOf(a, id), EntriesOf(b', id), if last.templateId == id then [last] else []);
      AppendAssoc(EntriesNotOf(a, id), EntriesNotOf(b', id), if last.templateId != id then [last] else []);
    }
  }

  /** Every entry belongs either to template `id` or to another one: the two filters partition the table. */
  lemma {:induction false} EntriesPartition(es: seq<TemplateEntry>, id: int32)
    ensures multiset(EntriesOf(es, id)) + multiset(EntriesNotOf(es, id)) == multiset(es)
  {
    if es != [] {
      var init := es[..|es| - 1];
      EntriesPartition(init, id);
      assert es == init + [es[|es| - 1]];
    }
  }

  /** The cascade leaves no entry to the deleted template. */
  lemma {:induction false} CascadeLeavesNone(es: seq<TemplateEntry>, id: int32)
    ensures EntriesOf(EntriesNotOf(es, id), id) == []
  {
    if es != [] {
      var init := es[..|es| - 1];
      var last := es[|es| - 1];
      var tail := if last.templateId != id then [last] else [];
      CascadeLeavesNone(init, id);
      assert EntriesNotOf(es, id) == EntriesNotOf(init, id) + tail;
      EntriesOfConcat(EntriesNotOf(init, id), tail, id);
      assert EntriesOf(tail, id) == [] by {
        if tail != [] {
          EntriesOfSingle(last, id);
        }
      }
    }
  }

  /** The cascade keeps every other template's entries. */
  lemma {:induction false} CascadeKeepsOthers(es: seq<TemplateEntry>, id: int32, j: int32)
    requires j != id
    ensures EntriesOf(EntriesNotOf(es, id), j) == EntriesOf(es, j)
  {
    if es != [] {
      var init := es[..|es| - 1];
      var last := es[|es| - 1];
      var tail := if last.templateId != id then [last] else [];
      CascadeKeepsOthers(init, id, j);
      assert EntriesNotOf(es, id) == EntriesNotOf(init, id) + tail;
      EntriesOfConcat(EntriesNotOf(init, id), tail, j);
      if tail == [] {
        assert EntriesOf(tail, j) == [];
        assert last.templateId != j;
      } else {
        assert tail[..0] == [] && tail[0] == last;
      }
    }
  }

  /** A one-entry table of another template has no entries of `j`. */
  lemma EntriesOfSingle(x: TemplateEntry, j: int32)
    requires x.templateId != j
    ensures EntriesOf([x], j) == []
  {
    assert [x][..0] == [];
  }

  /** Taking out one entry of another template keeps the entries of template `j`. */
  lemma RemoveEntryKeepsOthers(es: seq<TemplateEntry>, i: nat, j: int32)
    requires i < |es| && es[i].templateId != j
    ensures EntriesOf(RemoveAt(es, i), j) == EntriesOf(es, j)
  {
    var a, x, b := es[..i], es[i], es[i + 1..];
    assert es == a + ([x] + b);
    assert RemoveAt(es, i) == a + b;
    EntriesOfConcat(a, [x] + b, j);
    EntriesOfConcat([x], b, j);
    EntriesOfSingle(x, j);
    assert [] + EntriesOf(b, j) == EntriesOf(b, j);
    EntriesOfConcat(a, b, j);
  }

  /** Taking out a template other than the first with id `j` keeps the lookup of `j`. */
  lemma RemoveTemplateKeepsOthers(ts: seq<Template>, i: nat, j: int32)
    requires i < |ts| && ts[i].id != j
    ensures FindTemplate(RemoveAt(ts, i), j) == FindTemplate(ts, j)
  {
    var r := RemoveAt(ts, i);
    match FirstIndex(TemplateIds(ts), j)
    case None =>
      assert forall k :: 0 <= k < |r| ==> r[k].id != j by {
        assert forall k :: 0 <= k < |ts| ==> TemplateIds(ts)[k] != j;
      }
    case Some(k) =>
      var k' := if k < i then k else k - 1;
      assert r[k'] == ts[k];
      assert forall m :: 0 <= m < k' ==> r[m].id != j by {
        assert forall m :: 0 <= m < k ==> TemplateIds(ts)[m] != j;
      }
      assert j !in TemplateIds(r)[..k'];
      assert FirstIndex(TemplateIds(r), j) == Some(k') by {
        FirstIndexAt(TemplateIds(r), j, k');
      }
  }

  /** The first occurrence is at `k` when the key is there and not before it. */
  lemma {:induction false} FirstIndexAt<K>(keys: seq<K>, key: K, k: nat)
    requires k < |keys| && keys[k] == key && key !in keys[..k]
    ensures FirstIndex(keys, key) == Some(k)
  {
    if k > 0 {
      assert keys[1..][..k - 1] == keys[..k][1..];
      FirstIndexAt(keys[1..], key, k - 1);
    }
  }

  /** With unique template ids, a deleted template is gone. */
  lemma DeletedTemplateIsGone(ts: seq<Template>, i: nat)
    requires i < |ts|
    requires forall a, b :: 0 <= a < b < |ts| ==> ts[a].id != ts[b].id
    ensures FindTemplate(RemoveAt(ts, i), ts[i].id).None?
  {
  }

  /** A zone record after an entry is applied: each setting the entry has a value for takes that value. */
  function ApplyToOutput(o: Output, e: TemplateEntry): (r: Output)
    ensures r.id == o.id && r.name == o.name && r.order == o.order && r.mute == o.mute && r.hidden == o.hidden
  {
    o.(bass := e.bass.GetOr(o.bass),
       treble := e.treble.GetOr(o.treble),
       volume := e.volume.GetOr(o.volume),
       on := e.onState.GetOr(o.on),
       linkInput := if e.linkWithInputId.Some? then e.linkWithInputId else o.linkInput)
  }

  /** A stored zone already agrees with an entry: every setting the entry has a value for is already that value. */
  predicate Matches(o: Output, e: TemplateEntry)
  {
    (e.bass.Some? ==> o.bass == e.bass.value)
    && (e.treble.Some? ==> o.treble == e.treble.value)
    && (e.volume.Some? ==> o.volume == e.volume.value)
    && (e.onState.Some? ==> o.on == e.onState.value)
    && (e.linkWithInputId.Some? ==> o.linkInput == e.linkWithInputId)
  }

  /** The bass call of an entry, when it has a bass that differs from the stored one. */
  function BassCall(o: Output, e: TemplateEntry): seq<AmpCall>
  {
    if e.bass.Some? && o.bass != e.bass.value then [AmpCall.SetBass(e.outputId, e.bass.value)] else []
  }

  /** The treble call of an entry, when it has a treble that differs from the stored one. */
  function TrebleCall(o: Output, e: TemplateEntry): seq<AmpCall>
  {
    if e.treble.Some? && o.treble != e.treble.value then [AmpCall.SetTreble(e.outputId, e.treble.value)] else []
  }

  /** The volume call of an entry, when it has a volume that differs from the stored one. */
  function VolumeCall(o: Output, e: TemplateEntry): seq<AmpCall>
  {
    if e.volume.Some? && o.volume != e.volume.value then [AmpCall.SetVolume(e.outputId, e.volume.value)] else []
  }

  /** The power call of an entry, when it has a power state that differs from the stored one. */
  function OnCall(o: Output, e: TemplateEntry): seq<AmpCall>
  {
    if e.onState.Some? && o.on != e.onState.value then [AmpCall.SetOnState(e.outputId, e.onState.value)] else []
  }

  /** The link call of an entry, when it has an input and the zone has none or another one. */
  function LinkCall(o: Output, e: TemplateEntry): seq<AmpCall>
  {
    if e.linkWithInputId.Some? && (o.linkInput.None? || o.linkInput.value != e.linkWithInputId.value)
    then [AmpCall.Link(e.linkWithInputId.value, e.outputId)] else []
  }

  /** The calls one entry makes on the stored zone it names. */
  function EntryCalls(o: Output, e: TemplateEntry): (calls: seq<AmpCall>)
    ensures |calls| <= 5
  {
    BassCall(o, e) + TrebleCall(o, e) + VolumeCall(o, e) + OnCall(o, e) + LinkCall(o, e)
  }

  /** Order of a call within one entry: bass, treble, volume, power, link. */
  function Rank(c: AmpCall): nat
  {
    match c
    case SetBass(_, _) => 0
    case SetTreble(_, _) => 1
    case SetVolume(_, _) => 2
    case SetOnState(_, _) => 3
    case _ => 4
  }

  /** An entry calls the amplifier exactly when the zone does not already match it. */
  lemma NoCallsIffMatches(o: Output, e: TemplateEntry)
    ensures EntryCalls(o, e) == [] <==> Matches(o, e)
  {
    if !Matches(o, e) {
      assert |EntryCalls(o, e)| > 0;
    }
  }

  /** After an entry is applied, the zone matches it; settings the entry has no value for are untouched. */
  lemma ApplyToOutputMatches(o: Output, e: TemplateEntry)
    ensures Matches(ApplyToOutput(o, e), e)
    ensures e.bass.None? ==> ApplyToOutput(o, e).bass == o.bass
    ensures e.treble.None? ==> ApplyToOutput(o, e).treble == o.treble
    ensures e.volume.None? ==> ApplyToOutput(o, e).volume == o.volume
    ensures e.onState.None? ==> ApplyToOutput(o, e).on == o.on
    ensures e.linkWithInputId.None? ==> ApplyToOutput(o, e).linkInput == o.linkInput
  {
  }

  /** A zone that already matches an entry is left as it is. */
  lemma MatchingIsUnchanged(o: Output, e: TemplateEntry)
    requires Matches(o, e)
    ensures ApplyToOutput(o, e) == o
  {
  }

  /** A call an entry may make on zone `o`: to the entry's zone, with the entry's value, which differs from the stored one. */
  predicate Justified(o: Output, e: TemplateEntry, c: AmpCall)
  {
    match c
    case SetBass(z, v) => z == e.outputId && e.bass == Some(v) && v != o.bass
    case SetTreble(z, v) => z == e.outputId && e.treble == Some(v) && v != o.treble
    case SetVolume(z, v) => z == e.outputId && e.volume == Some(v) && v != o.volume
    case SetOnState(z, b) => z == e.outputId && e.onState == Some(b) && b != o.on
    case Link(i, z) => z == e.outputId && e.linkWithInputId == Some(i) && o.linkInput != Some(i)
    case _ => false
  }

  /** Calls in strictly increasing rank. */
  predicate Ascending(calls: seq<AmpCall>)
  {
    forall i, j :: 0 <= i < j < |calls| ==> Rank(calls[i]) < Rank(calls[j])
  }

  /** At most one call, of rank `r`. */
  predicate OneOfRank(calls: seq<AmpCall>, r: nat)
  {
    |calls| <= 1 && forall c :: c in calls ==> Rank(c) == r
  }

  /** Ascending calls all below rank `r`, then at most one of rank `r`, are ascending and all of rank at most `r`. */
  lemma AscendingAppend(a: seq<AmpCall>, b: seq<AmpCall>, r: nat)
    requires Ascending(a) && (forall c :: c in a ==> Rank(c) < r) && OneOfRank(b, r)
    ensures Ascending(a + b) && forall c :: c in a + b ==> Rank(c) <= r
  {
    forall i, j | 0 <= i < j < |a + b|
      ensures Rank((a + b)[i]) < Rank((a + b)[j])
    {
      if j >= |a| {
        assert (a + b)[i] in a && (a + b)[j] in b;
      }
    }
  }

  /** Every call of an entry is justified by it. */
  lemma EntryCallsJustified(o: Output, e: TemplateEntry)
    ensures forall c :: c in EntryCalls(o, e) ==> Justified(o, e, c)
  {
    assert EntryCalls(o, e) == BassCall(o, e) + TrebleCall(o, e) + VolumeCall(o, e) + OnCall(o, e) + LinkCall(o, e);
  }

  /** Within one entry the calls go bass, treble, volume, power, link, each at most once. */
  lemma EntryCallsInOrder(o: Output, e: TemplateEntry)
    ensures Ascending(EntryCalls(o, e))
  {
    var b, t, v, n, l := BassCall(o, e), TrebleCall(o, e), VolumeCall(o, e), OnCall(o, e), LinkCall(o, e);
    assert OneOfRank(b, 0) && OneOfRank(t, 1) && OneOfRank(v, 2) && OneOfRank(n, 3) && OneOfRank(l, 4);
    assert Ascending([]) && [] + b == b;
    AscendingAppend([], b, 0);
    AscendingAppend(b, t, 1);
    AscendingAppend(b + t, v, 2);
    AscendingAppend(b + t + v, n, 3);
    AscendingAppend(b + t + v + n, l, 4);
  }

  /** The zone table after one entry is applied; an entry naming no stored zone is skipped. */
  function ApplyEntry(outs: seq<Output>, e: TemplateEntry): (r: seq<Output>)
    ensures OutputIds(r) == OutputIds(outs)
    ensures forall j :: j != e.outputId ==> FindOutput(r, j) == FindOutput(outs, j)
  {
    match FindOutput(outs, e.outputId)
    case None => outs
    case Some(o) => PutOutput(outs, ApplyToOutput(o, e))
  }

  /** The calls one entry makes against a zone table. */
  function EntryCallsIn(outs: seq<Output>, e: TemplateEntry): (calls: seq<AmpCall>)
    ensures |calls| <= 5
  {
    match FindOutput(outs, e.outputId)
    case None => []
    case Some(o) => EntryCalls(o, e)
  }

  /** The zone table after the entries are applied one after the other. */
  function ApplyEntries(outs: seq<Output>, es: seq<TemplateEntry>): (r: seq<Output>)
    ensures |r| == |outs|
  {
    if es == [] then outs else ApplyEntry(ApplyEntries(outs, es[..|es| - 1]), es[|es| - 1])
  }

  /** The calls the entries make, one entry after the other, each against the table its predecessors left. */
  function TemplateCalls(outs: seq<Output>, es: seq<TemplateEntry>): (calls: seq<AmpCall>)
    ensures |calls| <= 5 * |es|
  {
    if es == [] then []
    else TemplateCalls(outs, es[..|es| - 1]) + EntryCallsIn(ApplyEntries(outs, es[..|es| - 1]), es[|es| - 1])
  }

  /** Entries naming pairwise different zones. */
  predicate DistinctZones(es: seq<TemplateEntry>)
  {
    forall i, j :: 0 <= i < j < |es| ==> es[i].outputId != es[j].outputId
  }

  /** Every entry either names no stored zone or names one that already matches it. */
  predicate AllMatch(outs: seq<Output>, es: seq<TemplateEntry>)
  {
    forall k :: 0 <= k < |es| ==> FindOutput(outs, es[k].outputId).None? || Matches(FindOutput(outs, es[k].outputId).value, es[k])
  }

  /** Applying a template creates and removes no zone, and leaves every zone no entry names as it was. */
  lemma {:induction false} ApplyKeepsZones(outs: seq<Output>, es: seq<TemplateEntry>, j: int32)
    ensures OutputIds(ApplyEntries(outs, es)) == OutputIds(outs)
    ensures (forall k :: 0 <= k < |es| ==> es[k].outputId != j) ==> FindOutput(ApplyEntries(outs, es), j) == FindOutput(outs, j)
  {
    if es != [] {
      ApplyKeepsZones(outs, es[..|es| - 1], j);
    }
  }

  /** A stored zone that matches already is stored again as it is. */
  lemma PutSame(outs: seq<Output>, o: Output)
    requires FindOutput(outs, o.id) == Some(o)
    ensures PutOutput(outs, o) == outs
  {
    FoundOutputAt(outs, o.id);
  }

  /** A template whose entries all match the table changes nothing and calls the amplifier not at all. */
  lemma {:induction false} MatchingTemplateIsNoop(outs: seq<Output>, es: seq<TemplateEntry>)
    requires AllMatch(outs, es)
    ensures ApplyEntries(outs, es) == outs
    ensures TemplateCalls(outs, es) == []
  {
    if es != [] {
      var init := es[..|es| - 1];
      var last := es[|es| - 1];
      assert AllMatch(outs, init) by {
        forall k | 0 <= k < |init|
          ensures FindOutput(outs, init[k].outputId).None? || Matches(FindOutput(outs, init[k].outputId).value, init[k])
        {
          assert init[k] == es[k];
        }
      }
      MatchingTemplateIsNoop(outs, init);
      assert FindOutput(outs, last.outputId).None? || Matches(FindOutput(outs, last.outputId).value, last);
      match FindOutput(outs, last.outputId)
      case None =>
      case Some(o) =>
        NoCallsIffMatches(o, last);
        MatchingIsUnchanged(o, last);
        PutSame(outs, o);
    }
  }

  /** After an entry is applied, the zone it names matches it, or is still not stored. */
  lemma ApplyEntryMatches(outs: seq<Output>, e: TemplateEntry)
    ensures var after := ApplyEntry(outs, e);
      FindOutput(after, e.outputId).None? || Matches(FindOutput(after, e.outputId).value, e)
  {
    match FindOutput(outs, e.outputId)
    case None =>
    case Some(o) =>
      ApplyToOutputMatches(o, e);
      assert FindOutput(ApplyEntry(outs, e), e.outputId) == Some(ApplyToOutput(o, e));
  }

  /** Dropping the last entry keeps the zones distinct, and none of the others names the last one's zone. */
  lemma DistinctInit(es: seq<TemplateEntry>)
    requires es != [] && DistinctZones(es)
    ensures DistinctZones(es[..|es| - 1])
    ensures forall k :: 0 <= k < |es| - 1 ==> es[k].outputId != es[|es| - 1].outputId
  {
    var init := es[..|es| - 1];
    forall i, j | 0 <= i < j < |init|
      ensures init[i].outputId != init[j].outputId
    {
      assert init[i] == es[i] && init[j] == es[j];
    }
  }

  /** An entry for another zone that matched before a later entry is applied still matches after it. */
  lemma MatchSurvives(outs: seq<Output>, later: TemplateEntry, e: TemplateEntry)
    requires e.outputId != later.outputId
    requires FindOutput(outs, e.outputId).None? || Matches(FindOutput(outs, e.outputId).value, e)
    ensures var after := ApplyEntry(outs, later);
      FindOutput(after, e.outputId).None? || Matches(FindOutput(after, e.outputId).value, e)
  {
    assert FindOutput(ApplyEntry(outs, later), e.outputId) == FindOutput(outs, e.outputId);
  }

  /** After a template whose entries name distinct zones is applied, every entry matches the table. */
  lemma {:induction false} AppliedTemplateMatches(outs: seq<Output>, es: seq<TemplateEntry>)
    requires DistinctZones(es)
    ensures AllMatch(ApplyEntries(outs, es), es)
  {
    if es != [] {
      var init := es[..|es| - 1];
      var last := es[|es| - 1];
      DistinctInit(es);
      AppliedTemplateMatches(outs, init);
      AllMatchStep(ApplyEntries(outs, init), init, last);
      assert es == init + [last];
    }
  }

  /** Applying one more entry, for a zone no earlier entry names, keeps the earlier matches and adds its own. */
  lemma AllMatchStep(before: seq<Output>, init: seq<TemplateEntry>, last: TemplateEntry)
    requires AllMatch(before, init)
    requires forall k :: 0 <= k < |init| ==> init[k].outputId != last.outputId
    ensures AllMatch(ApplyEntry(before, last), init + [last])
  {
    var es := init + [last];
    var after := ApplyEntry(before, last);
    ApplyEntryMatches(before, last);
    forall k | 0 <= k < |es|
      ensures FindOutput(after, es[k].outputId).None? || Matches(FindOutput(after, es[k].outputId).value, es[k])
    {
      if k < |init| {
        assert es[k] == init[k];
        MatchSurvives(before, last, es[k]);
      } else {
        assert es[k] == last;
      }
    }
  }

  /** Applying a template whose entries name distinct zones a second time changes nothing and calls the amplifier not at all. */
  lemma ApplyTwice(outs: seq<Output>, es: seq<TemplateEntry>)
    requires DistinctZones(es)
    ensures ApplyEntries(ApplyEntries(outs, es), es) == ApplyEntries(outs, es)
    ensures TemplateCalls(ApplyEntries(outs, es), es) == []
  {
    AppliedTemplateMatches(outs, es);
    MatchingTemplateIsNoop(ApplyEntries(outs, es), es);
  }

  /** One entry's calls appended after earlier ones: the level calls, then the power and link calls. */
  lemma AppendEntryCalls(a: seq<AmpCall>, o: Output, e: TemplateEntry)
    ensures a + EntryCalls(o, e) ==
      (a + BassCall(o, e) + TrebleCall(o, e) + VolumeCall(o, e)) + OnCall(o, e) + LinkCall(o, e)
  {
  }

  /** The table and the calls one entry further into the template. */
  lemma TemplatePrefix(start: seq<AmpCall>, outs: seq<Output>, es: seq<TemplateEntry>, k: nat)
    requires k < |es|
    ensures ApplyEntries(outs, es[..k + 1]) == ApplyEntry(ApplyEntries(outs, es[..k]), es[k])
    ensures start + TemplateCalls(outs, es[..k + 1]) ==
      start + TemplateCalls(outs, es[..k]) + EntryCallsIn(ApplyEntries(outs, es[..k]), es[k])
  {
    var p := es[..k + 1];
    assert p[..|p| - 1] == es[..k] && p[|p| - 1] == es[k];
  }

  /** TemplatesController. */
  class TemplatesController {
    const amp: ControlAE6MC
    const db: AudioContext

    constructor (amplifier: ControlAE6MC, dbContext: AudioContext)
      ensures amp == amplifier && db == dbContext
    {
      amp := amplifier;
      db := dbContext;
    }

    /** Every template with its entries, in table order. */
    method GetAll() returns (list: seq<(Template, seq<TemplateEntry>)>)
      ensures |list| == |db.templates|
      ensures forall i :: 0 <= i < |list| ==> list[i].0 == db.templates[i] && list[i].1 == EntriesOf(db.entries, db.templates[i].id)
    {
      list := seq(|db.templates|, i requires 0 <= i < |db.templates| reads db => (db.templates[i], EntriesOf(db.entries, db.templates[i].id)));
    }

    /** Template `id` with its entries; NotFound when there is none. */
    method Get(id: int32) returns (r: Result<(Template, seq<TemplateEntry>), Status>)
      ensures FindTemplate(db.templates, id).None? <==> r == Failure(NotFound)
      ensures r.Success? ==>
        r.value.0 == FindTemplate(db.templates, id).value && r.value.0.id == id && r.value.1 == EntriesOf(db.entries, id)
    {
      var template := FindTemplate(db.templates, id);
      if template.None? {
        return Failure(NotFound);
      }
      r := Success((template.value, EntriesOf(db.entries, id)));
    }

    /** Deletes template `id` and, by cascade, its entries; a missing template is no error. */
    method Delete(id: int32) returns (r: Status)
      modifies db`templates, db`entries
      ensures r == NoContent
      ensures FindTemplate(old(db.templates), id).None? ==>
        db.templates == old(db.templates) && db.entries == old(db.entries)
      ensures FindTemplate(old(db.templates), id).Some? ==>
        db.templates == RemoveAt(old(db.templates), FirstIndex(TemplateIds(old(db.templates)), id).value)
        && db.entries == EntriesNotOf(old(db.entries), id)
    {
      var i := FirstIndex(TemplateIds(db.templates), id);
      if i.Some? {
        db.templates := RemoveAt(db.templates, i.value);
        db.entries := EntriesNotOf(db.entries, id);
      }
      r := NoContent;
    }

    /** Adds a template; `newId` is the id the database assigns when the given id is 0. */
    method Create(template: Template, newId: int32) returns (created: Template)
      modifies db`templates
      ensures created == template.(id := if template.id == 0 then newId else template.id)
      ensures db.templates == old(db.templates) + [created]
    {
      created := template.(id := if template.id == 0 then newId else template.id);
      db.templates := db.templates + [created];
    }

    /** Deletes entry `entryId` of template `id`; an entry not matching both is no error. */
    method DeleteTemplateEntry(id: int32, entryId: int32) returns (r: Status)
      modifies db`entries
      ensures r == NoContent
      ensures (id, entryId) !in EntryKeys(old(db.entries)) ==> db.entries == old(db.entries)
      ensures (id, entryId) in EntryKeys(old(db.entries)) ==>
        db.entries == RemoveAt(old(db.entries), FirstIndex(EntryKeys(old(db.entries)), (id, entryId)).value)
    {
      var i := FirstIndex(EntryKeys(db.entries), (id, entryId));
      if i.Some? {
        db.entries := RemoveAt(db.entries, i.value);
      }
      r := NoContent;
    }

    /** Adds an entry to template `id`; `newId` is the id the database assigns when the given id is 0. */
    method CreateTemplateEntry(id: int32, entry: TemplateEntry, newId: int32) returns (r: Result<TemplateEntry, Status>)
      modifies db`entries
      ensures FindTemplate(db.templates, id).None? <==> r == Failure(NotFound)
      ensures r.Failure? ==> db.entries == old(db.entries)
      ensures r.Success? ==>
        r.value == entry.(templateId := id, id := if entry.id == 0 then newId else entry.id)
        && db.entries == old(db.entries) + [r.value]
        && EntriesOf(db.entries, id) == EntriesOf(old(db.entries), id) + [r.value]
    {
      var template := FindTemplate(db.templates, id);
      if template.None? {
        return Failure(NotFound);
      }
      var stored := entry.(templateId := id, id := if entry.id == 0 then newId else entry.id);
      db.entries := db.entries + [stored];
      assert db.entries[..|db.entries| - 1] == old(db.entries);
      r := Success(stored);
    }

    /** Sends and stores the entry's bass when it differs from the stored one. */
    method ApplyBass(o: Output, e: TemplateEntry) returns (updated: Output)
      requires amp.Valid()
      modifies amp, amp.comm
      ensures updated == o.(bass := e.bass.GetOr(o.bass))
      ensures amp.Valid() && amp.comm.pending == old(amp.comm.pending)
      ensures amp.calls == old(amp.calls) + BassCall(o, e)
    {
      updated := o;
      if e.bass.Some? {
        if updated.bass != e.bass.value {
          amp.SetBassAsync(e.outputId, e.bass.value);
          updated := updated.(bass := e.bass.value);
        }
      }
    }

    /** Sends and stores the entry's treble when it differs from the stored one. */
    method ApplyTreble(o: Output, e: TemplateEntry) returns (updated: Output)
      requires amp.Valid()
      modifies amp, amp.comm
      ensures updated == o.(treble := e.treble.GetOr(o.treble))
      ensures amp.Valid() && amp.comm.pending == old(amp.comm.pending)
      ensures amp.calls == old(amp.calls) + TrebleCall(o, e)
    {
      updated := o;
      if e.treble.Some? {
        if updated.treble != e.treble.value {
          amp.SetTrebleAsync(e.outputId, e.treble.value);
          updated := updated.(treble := e.treble.value);
        }
      }
    }

    /** Sends and stores the entry's volume when it differs from the stored one. */
    method ApplyVolume(o: Output, e: TemplateEntry) returns (updated: Output)
      requires amp.Valid()
      modifies amp, amp.comm
      ensures updated == o.(volume := e.volume.GetOr(o.volume))
      ensures amp.Valid() && amp.comm.pending == old(amp.comm.pending)
      ensures amp.calls == old(amp.calls) + VolumeCall(o, e)
    {
      updated := o;
      if e.volume.Some? {
        if updated.volume != e.volume.value {
          amp.SetVolumeAsync(e.outputId, e.volume.value);
          updated := updated.(volume := e.volume.value);
        }
      }
    }

    /** Sends and stores the entry's power state when it differs from the stored one. */
    method ApplyOnState(o: Output, e: TemplateEntry) returns (updated: Output)
      requires amp.Valid()
      modifies amp, amp.comm
      ensures updated == o.(on := e.onState.GetOr(o.on))
      ensures amp.Valid() && amp.comm.pending == old(amp.comm.pending)
      ensures amp.calls == old(amp.calls) + OnCall(o, e)
    {
      updated := o;
      if e.onState.Some? {
        if updated.on != e.onState.value {
          amp.SetOnStateAsync(e.outputId, e.onState.value);
          updated := updated.(on := e.onState.value);
        }
      }
    }

    /** Sends and stores the entry's input when the zone has none or another one. */
    method ApplyLink(o: Output, e: TemplateEntry) returns (updated: Output)
      requires amp.Valid()
      modifies amp, amp.comm
      ensures updated == o.(linkInput := if e.linkWithInputId.Some? then e.linkWithInputId else o.linkInput)
      ensures amp.Valid() && amp.comm.pending == old(amp.comm.pending)
      ensures amp.calls == old(amp.calls) + LinkCall(o, e)
    {
      updated := o;
      if e.linkWithInputId.Some? {
        if updated.linkInput.None? || updated.linkInput.value != e.linkWithInputId.value {
          amp.LinkAsync(e.linkWithInputId.value, e.outputId);
          updated := updated.(linkInput := e.linkWithInputId);
        }
      }
    }

    /** Sends and stores the entry's bass, treble and volume where they differ from the stored ones. */
    method ApplyLevels(o: Output, e: TemplateEntry) returns (updated: Output)
      requires amp.Valid()
      modifies amp, amp.comm
      ensures updated == o.(bass := e.bass.GetOr(o.bass), treble := e.treble.GetOr(o.treble), volume := e.volume.GetOr(o.volume))
      ensures amp.Valid() && amp.comm.pending == old(amp.comm.pending)
      ensures amp.calls == old(amp.calls) + BassCall(o, e) + TrebleCall(o, e) + VolumeCall(o, e)
    {
      var u1 := ApplyBass(o, e);
      assert TrebleCall(u1, e) == TrebleCall(o, e);
      var u2 := ApplyTreble(u1, e);
      assert VolumeCall(u2, e) == VolumeCall(o, e);
      updated := ApplyVolume(u2, e);
    }

    /** Sends and stores the entry's power state and input where they differ from the stored ones. */
    method ApplyPowerAndLink(o: Output, e: TemplateEntry) returns (updated: Output)
      requires amp.Valid()
      modifies amp, amp.comm
      ensures updated == o.(on := e.onState.GetOr(o.on), linkInput := if e.linkWithInputId.Some? then e.linkWithInputId else o.linkInput)
      ensures amp.Valid() && amp.comm.pending == old(amp.comm.pending)
      ensures amp.calls == old(amp.calls) + OnCall(o, e) + LinkCall(o, e)
    {
      var u := ApplyOnState(o, e);
      assert LinkCall(u, e) == LinkCall(o, e);
      updated := ApplyLink(u, e);
    }

    /** Sends and stores the settings of one entry that differ from zone `o`'s: bass, treble, volume, power, link. */
    method ApplyToOutputAsync(o: Output, e: TemplateEntry) returns (updated: Output)
      requires amp.Valid()
      modifies amp, amp.comm
      ensures updated == ApplyToOutput(o, e)
      ensures amp.Valid() && amp.comm.pending == old(amp.comm.pending)
      ensures amp.calls == old(amp.calls) + EntryCalls(o, e)
    {
      ghost var start := amp.calls;
      var levels := ApplyLevels(o, e);
      assert OnCall(levels, e) == OnCall(o, e) && LinkCall(levels, e) == LinkCall(o, e);
      updated := ApplyPowerAndLink(levels, e);
      AppendEntryCalls(start, o, e);
    }

    /** Applies one entry to the zone it names, which is skipped when it is not stored. */
    method ApplyEntryAsync(e: TemplateEntry)
      requires amp.Valid()
      modifies db`outputs, amp, amp.comm
      ensures db.outputs == ApplyEntry(old(db.outputs), e)
      ensures amp.Valid() && amp.comm.pending == old(amp.comm.pending)
      ensures amp.calls == old(amp.calls) + EntryCallsIn(old(db.outputs), e)
    {
      var output := FindOutput(db.outputs, e.outputId);
      if output.None? {
        assert amp.calls == old(amp.calls) + [];
        return;
      }
      var updated := ApplyToOutputAsync(output.value, e);
      ghost var mid := amp.calls;
      FoundOutputAt(db.outputs, e.outputId);
      var i := FirstIndex(OutputIds(db.outputs), e.outputId).value;
      db.outputs := db.outputs[i := updated];
      assert amp.calls == mid && amp.Valid();
      assert db.outputs == PutOutput(old(db.outputs), updated);
    }

    /** Applies template `id`: its entries in table order; NotFound, with no call and no change, when there is none. */
    method ApplyTemplate(id: int32) returns (r: Status)
      requires amp.Valid()
      modifies db`outputs, amp, amp.comm
      ensures FindTemplate(db.templates, id).None? ==>
        r == NotFound && Appended(amp, []) && db.outputs == old(db.outputs)
      ensures FindTemplate(db.templates, id).Some? ==>
        r == NoContent
        && db.outputs == ApplyEntries(old(db.outputs), EntriesOf(db.entries, id))
        && Appended(amp, TemplateCalls(old(db.outputs), EntriesOf(db.entries, id)))
    {
      var template := FindTemplate(db.templates, id);
      if template.None? {
        return NotFound;
      }
      var entries := EntriesOf(db.entries, id);
      ghost var start := amp.calls;
      ghost var outs := db.outputs;
      var k := 0;
      while k < |entries|
        invariant 0 <= k <= |entries|
        invariant db.outputs == ApplyEntries(outs, entries[..k])
        invariant amp.Valid() && amp.comm.pending == old(amp.comm.pending)
        invariant amp.calls == start + TemplateCalls(outs, entries[..k])
      {
        ApplyEntryAsync(entries[k]);
        TemplatePrefix(start, outs, entries, k);
        k := k + 1;
      }
      assert entries[..k] == entries;
      r := NoContent;
    }
  }
}
