/**
The deltas of the indexer's own model and how they become the deltas clients see. Merging happens on
both sides of that conversion, and the two must agree.
*/
module ModelDeltas {
  import opened Wrappers
  import opened DeltaAlgebra

  datatype ModelStateDelta = ModelStateDelta(
    componentId: ComponentId, updated: map<string, Bytes>, deleted: set<string>, created: set<string>)

  /** A slot without a value was cleared. */
  datatype ModelAccountDelta = ModelAccountDelta(
    chain: string, address: Address, slots: map<Bytes, Option<Bytes>>, balance: Option<Bytes>, code: Option<Bytes>,
    change: ChangeType)

  datatype MergeError = IdMismatch

  function MergeModelState(a: ModelStateDelta, b: ModelStateDelta): Result<ModelStateDelta, MergeError> {
    if a.componentId != b.componentId then Err(IdMismatch)
    else Ok(ModelStateDelta(a.componentId, (a.updated - b.deleted) + b.updated,
                            (a.deleted - b.updated.Keys) + b.deleted, (a.created - b.deleted) + b.created))
  }

  function MergeModelAccount(a: ModelAccountDelta, b: ModelAccountDelta): Result<ModelAccountDelta, MergeError> {
    if a.address != b.address then Err(IdMismatch)
    else Ok(a.(slots := a.slots + b.slots, balance := OrElse(b.balance, a.balance), code := OrElse(b.code, a.code)))
  }

  function ToWireState(d: ModelStateDelta): StateDelta {
    StateDelta(d.componentId, d.updated, d.deleted)
  }

  /** A cleared slot as an empty value. */
  function Values(d: map<Bytes, Option<Bytes>>): map<Bytes, Bytes> {
    map k | k in d :: if d[k].Some? then d[k].value else ""
  }

  function ToWireAccount(d: ModelAccountDelta): AccountUpdate {
    AccountUpdate(d.address, d.chain, Values(d.slots), d.balance, d.code, d.change)
  }

  /** Off the wire, every slot is a write. */
  function Somes(slots: map<Bytes, Bytes>): map<Bytes, Option<Bytes>> {
    map k | k in slots :: Some(slots[k])
  }

  function FromWireAccount(u: AccountUpdate): ModelAccountDelta {
    ModelAccountDelta(u.chain, u.address, Somes(u.slots), u.balance, u.code, u.change)
  }

  /** Which attributes are new does not travel. */
  function FromWireState(u: StateDelta): ModelStateDelta {
    ModelStateDelta(u.componentId, u.updated, u.deleted, {})
  }

  /** Attributes: merging before the conversion and merging after it give the same delta. */
  lemma WireStateCommutes(a: ModelStateDelta, b: ModelStateDelta)
    requires a.componentId == b.componentId
    ensures MergeModelState(a, b).Ok?
    ensures ToWireState(MergeModelState(a, b).value) == MergeState(ToWireState(a), ToWireState(b))
  {}

  /**
  Accounts: the two merges agree in slots, balance and code. In the kind of change they agree exactly
  when the first delta creates the account or both are of one kind: the merge of the model keeps the
  older kind, the one of the wire takes the newer.
  */
  lemma WireAccountCommutesIff(a: ModelAccountDelta, b: ModelAccountDelta)
    requires a.address == b.address
    ensures MergeModelAccount(a, b).Ok?
    ensures var before := ToWireAccount(MergeModelAccount(a, b).value);
            var after := MergeAccount(ToWireAccount(a), ToWireAccount(b));
            && before.(change := after.change) == after
            && (before == after <==> a.change.Creation? || a.change == b.change)
  {
    var before := ToWireAccount(MergeModelAccount(a, b).value);
    var after := MergeAccount(ToWireAccount(a), ToWireAccount(b));
    assert before.slots == after.slots;
  }

  /** An update followed by a creation: an update to the one merge, a creation to the other. */
  lemma KindOfChangeDiffers(address: Address, chain: string)
    ensures var a := ModelAccountDelta(chain, address, map[], None, None, Update);
            var b := a.(change := Creation);
            && MergeModelAccount(a, b).Ok?
            && ToWireAccount(MergeModelAccount(a, b).value).change == Update
            && MergeAccount(ToWireAccount(a), ToWireAccount(b)).change == Creation
            && ToWireAccount(MergeModelAccount(a, b).value) != MergeAccount(ToWireAccount(a), ToWireAccount(b))
  {
    var a := ModelAccountDelta(chain, address, map[], None, None, Update);
    WireAccountCommutesIff(a, a.(change := Creation));
  }

  // ------------------------------------------------------------------ cleared slots

  /** How an account takes a delta. */
  function ApplySlots(slots: map<Bytes, Bytes>, d: map<Bytes, Option<Bytes>>): map<Bytes, Bytes> {
    slots + Values(d)
  }

  function Written(d: map<Bytes, Option<Bytes>>): map<Bytes, Bytes> {
    map k | k in d && d[k].Some? :: d[k].value
  }

  /** The feed passes over cleared slots when it brings a snapshot up to date. */
  function ApplySlotsInFeed(slots: map<Bytes, Bytes>, d: map<Bytes, Option<Bytes>>): map<Bytes, Bytes> {
    slots + Written(d)
  }

  /** The older delta sets a slot that the newer one clears, to something the account does not have there. */
  ghost predicate HidesWrite(
    slots: map<Bytes, Bytes>, a: map<Bytes, Option<Bytes>>, b: map<Bytes, Option<Bytes>>, k: Bytes)
  {
    && k in a && a[k].Some? && k in b && b[k].None?
    && !(k in slots && slots[k] == a[k].value)
  }

  lemma HiddenWriteAt(slots: map<Bytes, Bytes>, a: map<Bytes, Option<Bytes>>, b: map<Bytes, Option<Bytes>>, k: Bytes)
    ensures HidesWrite(slots, a, b, k)
      <==> !AgreeAt(ApplySlotsInFeed(slots, a + b), ApplySlotsInFeed(ApplySlotsInFeed(slots, a), b), k)
  {}

  lemma SlotsFuse(slots: map<Bytes, Bytes>, a: map<Bytes, Option<Bytes>>, b: map<Bytes, Option<Bytes>>)
    ensures ApplySlots(slots, a + b) == ApplySlots(ApplySlots(slots, a), b)
  {
    assert Values(a + b) == Values(a) + Values(b);
    OverwriteAssociative(slots, Values(a), Values(b));
  }

  lemma FeedFusesIff(slots: map<Bytes, Bytes>, a: map<Bytes, Option<Bytes>>, b: map<Bytes, Option<Bytes>>)
    ensures ApplySlotsInFeed(slots, a + b) == ApplySlotsInFeed(ApplySlotsInFeed(slots, a), b)
      <==> forall k :: !HidesWrite(slots, a, b, k)
  {
    AgreeEverywhere(ApplySlotsInFeed(slots, a + b), ApplySlotsInFeed(ApplySlotsInFeed(slots, a), b));
    forall k ensures HidesWrite(slots, a, b, k)
      <==> !AgreeAt(ApplySlotsInFeed(slots, a + b), ApplySlotsInFeed(ApplySlotsInFeed(slots, a), b), k)
    {
      HiddenWriteAt(slots, a, b, k);
    }
  }

  /**
  On an account, a merged delta does what its parts do one after the other. For a reader that passes
  over cleared slots it does so exactly when the newer part clears no slot that the older one writes.
  */
  lemma ClearedSlotsFuseIff(slots: map<Bytes, Bytes>, a: ModelAccountDelta, b: ModelAccountDelta)
    requires a.address == b.address
    ensures var merged := MergeModelAccount(a, b).value.slots;
            && ApplySlots(slots, merged) == ApplySlots(ApplySlots(slots, a.slots), b.slots)
            && (ApplySlotsInFeed(slots, merged) == ApplySlotsInFeed(ApplySlotsInFeed(slots, a.slots), b.slots)
                <==> forall k :: !HidesWrite(slots, a.slots, b.slots, k))
  {
    SlotsFuse(slots, a.slots, b.slots);
    FeedFusesIff(slots, a.slots, b.slots);
  }

  /** No such slot comes off the wire: a slot cleared in the indexer arrives as a write of the empty value. */
  lemma ClearedSlotsReachTheFeed(slots: map<Bytes, Bytes>, d: ModelAccountDelta)
    ensures ApplySlotsInFeed(slots, FromWireAccount(ToWireAccount(d)).slots) == ApplySlots(slots, d.slots)
  {
    WrittenSlots(Values(d.slots));
  }

  lemma WrittenSlots(slots: map<Bytes, Bytes>)
    ensures Written(Somes(slots)) == slots
  {}

  lemma WireHidesNoWrite(slots: map<Bytes, Bytes>, a: AccountUpdate, b: AccountUpdate, k: Bytes)
    ensures !HidesWrite(slots, FromWireAccount(a).slots, FromWireAccount(b).slots, k)
  {}

  /** So, for deltas off the wire, the reader that passes over cleared slots is safe with merged ones. */
  lemma WireSlotsFuse(slots: map<Bytes, Bytes>, a: AccountUpdate, b: AccountUpdate)
    requires a.address == b.address
    ensures var c, d := FromWireAccount(a), FromWireAccount(b);
            ApplySlotsInFeed(slots, MergeModelAccount(c, d).value.slots)
            == ApplySlotsInFeed(ApplySlotsInFeed(slots, c.slots), d.slots)
  {
    forall k ensures !HidesWrite(slots, FromWireAccount(a).slots, FromWireAccount(b).slots, k) {
      WireHidesNoWrite(slots, a, b, k);
    }
    ClearedSlotsFuseIff(slots, FromWireAccount(a), FromWireAccount(b));
  }

  class ProtocolComponentStateDelta {
    const componentId: ComponentId
    var updated: map<string, Bytes>
    var deleted: set<string>
    var created: set<string>

    constructor (d: ModelStateDelta)
      ensures View() == d
    {
      componentId, updated, deleted, created := d.componentId, d.updated, d.deleted, d.created;
    }

    ghost function View(): ModelStateDelta
      reads this
    {
      ModelStateDelta(componentId, updated, deleted, created)
    }

    /** What was set or created under a name that is gone now. */
    method Forget(names: set<string>)
      modifies this`updated, this`created
      ensures updated == old(updated) - names && created == old(created) - names
    {
      var done: set<string> := {};
      while names - done != {}
        invariant done <= names
        invariant updated == old(updated) - done && created == old(created) - done
        decreases names - done
      {
        var name :| name in names - done;
        updated, created := updated - {name}, created - {name};
        done := done + {name};
      }
    }

    method Undelete(names: set<string>)
      modifies this`deleted
      ensures deleted == old(deleted) - names
    {
      var done: set<string> := {};
      while names - done != {}
        invariant done <= names
        invariant deleted == old(deleted) - done
        decreases names - done
      {
        var name :| name in names - done;
        deleted := deleted - {name};
        done := done + {name};
      }
    }

    method Merge(other: ModelStateDelta) returns (r: Result<(), MergeError>)
      modifies this
      ensures r.Ok? <==> old(View()).componentId == other.componentId
      ensures r.Ok? ==> MergeModelState(old(View()), other) == Ok(View())
      ensures r.Err? ==> View() == old(View())
    {
      if componentId != other.componentId { return Err(IdMismatch); }
      Forget(other.deleted);
      Undelete(other.updated.Keys);
      updated, deleted, created := updated + other.updated, deleted + other.deleted, created + other.created;
      r := Ok(());
    }
  }

  // ------------------------------------------------------------------ there and back

  /** What came off the wire goes back onto it unchanged. */
  lemma WireRoundTrip(u: AccountUpdate, d: StateDelta)
    ensures ToWireAccount(FromWireAccount(u)) == u && ToWireState(FromWireState(d)) == d
  {
    assert Values(Somes(u.slots)) == u.slots;
  }

  /** A name counts as new when the newer delta creates it, or the older does and the newer does not delete it. */
  lemma CreatedAfterMerge(a: ModelStateDelta, b: ModelStateDelta, name: string)
    requires a.componentId == b.componentId
    ensures MergeModelState(a, b).Ok?
    ensures name in MergeModelState(a, b).value.created
      <==> name in b.created || (name in a.created && name !in b.deleted)
  {}

  /** Deltas of different components or accounts are not merged. */
  lemma MergedOnlyIfSame(a: ModelStateDelta, b: ModelStateDelta, c: ModelAccountDelta, d: ModelAccountDelta)
    ensures MergeModelState(a, b).Ok? <==> a.componentId == b.componentId
    ensures MergeModelAccount(c, d).Ok? <==> c.address == d.address
  {}
}
