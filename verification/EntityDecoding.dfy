/** From the changes of one entity, as they come over the wire of the indexer, to one delta. */
module EntityDecoding {
  import opened Wrappers
  import opened DeltaAlgebra

  /** One attribute change; `Unspecified` is what an unknown kind of change decodes to. */
  datatype AttributeChange = AttributeChange(name: string, value: Bytes, change: ChangeType) {
    predicate Sets() { change.Creation? || change.Update? }
  }

  /** A delta before it is sent to clients: it also knows which attributes are new. */
  datatype EntityDelta = EntityDelta(delta: StateDelta, created: set<string>)

  function Collect(d: EntityDelta, c: AttributeChange): EntityDelta {
    EntityDelta(
      if c.Sets() then d.delta.(updated := d.delta.updated[c.name := c.value])
      else if c.change.Deletion? then d.delta.(deleted := d.delta.deleted + {c.name})
      else d.delta,
      if c.change.Creation? then d.created + {c.name} else d.created)
  }

  /** What decoding a sequence of changes collects, the last value of a name winning. */
  function Collected(componentId: ComponentId, changes: seq<AttributeChange>): EntityDelta {
    if changes == [] then EntityDelta(StateDelta(componentId, map[], {}), {})
    else Collect(Collected(componentId, changes[..|changes| - 1]), changes[|changes| - 1])
  }

  lemma CollectedOne(componentId: ComponentId, changes: seq<AttributeChange>, i: nat)
    requires i < |changes|
    ensures Collected(componentId, changes[..i + 1]) == Collect(Collected(componentId, changes[..i]), changes[i])
    ensures Specified(changes[..i + 1]) <==> Specified(changes[..i]) && !changes[i].change.Unspecified?
  {
    assert changes[..i + 1][..i] == changes[..i];
    assert changes[..i + 1] == changes[..i] + [changes[i]];
  }

  ghost predicate Specified(changes: seq<AttributeChange>) {
    forall c <- changes :: !c.change.Unspecified?
  }

  method Decode(componentId: ComponentId, changes: seq<AttributeChange>) returns (r: Result<EntityDelta, string>)
    ensures r.Ok? <==> Specified(changes)
    ensures r.Ok? ==> r.value == Collected(componentId, changes) && r.value.delta.componentId == componentId
  {
    var updates: map<string, Bytes>, deletions: set<string>, created: set<string> := map[], {}, {};
    for i := 0 to |changes|
      invariant Specified(changes[..i])
      invariant Collected(componentId, changes[..i])
        == EntityDelta(StateDelta(componentId, updates, deletions), created)
    {
      CollectedOne(componentId, changes, i);
      var c := changes[i];
      match c.change {
        case Creation =>
          created := created + {c.name};
          updates := updates[c.name := c.value];
        case Update => updates := updates[c.name := c.value];
        case Deletion => deletions := deletions + {c.name};
        case Unspecified =>
          assert c in changes;
          return Err("unknown change type");
      }
    }
    assert changes[..|changes|] == changes;
    CollectedFor(componentId, changes);
    r := Ok(EntityDelta(StateDelta(componentId, updates, deletions), created));
  }

  lemma {:induction false} CollectedNames(componentId: ComponentId, changes: seq<AttributeChange>, name: string)
    ensures var d := Collected(componentId, changes);
            && (name in d.delta.updated <==> exists c <- changes :: c.name == name && c.Sets())
            && (name in d.delta.deleted <==> exists c <- changes :: c.name == name && c.change.Deletion?)
            && (name in d.created <==> exists c <- changes :: c.name == name && c.change.Creation?)
  {
    if changes == [] {
    } else {
      CollectedNames(componentId, changes[..|changes| - 1], name);
      assert changes == changes[..|changes| - 1] + [changes[|changes| - 1]];
    }
  }

  /** A decoded delta names nothing twice exactly when the entity sets no name that it also deletes. */
  lemma DecodedDisjointIff(componentId: ComponentId, changes: seq<AttributeChange>)
    ensures Disjoint(Collected(componentId, changes).delta) <==>
      forall c <- changes, d <- changes :: c.Sets() && d.change.Deletion? ==> c.name != d.name
  {
    var delta := Collected(componentId, changes).delta;
    forall name: string
      ensures name in delta.updated <==> exists c <- changes :: c.name == name && c.Sets()
      ensures name in delta.deleted <==> exists c <- changes :: c.name == name && c.change.Deletion?
    {
      CollectedNames(componentId, changes, name);
    }
    if Disjoint(delta) {
      forall c <- changes, d <- changes | c.Sets() && d.change.Deletion? ensures c.name != d.name {
        assert c.name in delta.updated && d.name in delta.deleted;
      }
    }
  }

  /** The changes carried out one after the other. */
  function Replay(attributes: map<string, Bytes>, changes: seq<AttributeChange>): map<string, Bytes> {
    if changes == [] then attributes
    else
      var before := Replay(attributes, changes[..|changes| - 1]);
      var c := changes[|changes| - 1];
      if c.Sets() then before[c.name := c.value] else if c.change.Deletion? then before - {c.name} else before
  }

  /** The last change that says something about `name`. */
  function LastWord(changes: seq<AttributeChange>, name: string): Option<AttributeChange> {
    if changes == [] then None
    else
      var c := changes[|changes| - 1];
      if c.name == name && !c.change.Unspecified? then Some(c) else LastWord(changes[..|changes| - 1], name)
  }

  /** In order, the last word about a name decides. */
  lemma {:induction false} ReplayLookup(attributes: map<string, Bytes>, changes: seq<AttributeChange>, name: string)
    ensures var last, after := LastWord(changes, name), Replay(attributes, changes);
            && (last.None? ==> (name in after <==> name in attributes))
            && (last.None? && name in after ==> after[name] == attributes[name])
            && (last.Some? && last.value.Sets() ==> name in after && after[name] == last.value.value)
            && (last.Some? && !last.value.Sets() ==> name !in after)
  {
    if changes == [] {
    } else {
      ReplayLookup(attributes, changes[..|changes| - 1], name);
    }
  }

  lemma {:induction false} CollectedLookup(componentId: ComponentId, changes: seq<AttributeChange>, name: string)
    ensures var last, delta := LastWord(changes, name), Collected(componentId, changes).delta;
            && (last.None? ==> name !in delta.updated && name !in delta.deleted)
            && (last.Some? && last.value.Sets() ==> name in delta.updated && delta.updated[name] == last.value.value)
            && (last.Some? && !last.value.Sets() ==> name in delta.deleted)
  {
    if changes == [] {
    } else {
      CollectedLookup(componentId, changes[..|changes| - 1], name);
    }
  }

  /** The last word about this name, if there is one, deletes it. */
  predicate EndsDeleted(changes: seq<AttributeChange>, name: string) {
    LastWord(changes, name).Some? && !LastWord(changes, name).value.Sets()
  }

  /** Every name that is deleted at all is deleted last. */
  ghost predicate DeletionsAreFinal(changes: seq<AttributeChange>) {
    forall d <- changes | d.change.Deletion? :: EndsDeleted(changes, d.name)
  }

  /** At one name, the delta does what the changes do in order unless it deletes a name that ends up set. */
  lemma DecodingAt(
    attributes: map<string, Bytes>, componentId: ComponentId, changes: seq<AttributeChange>, name: string)
    ensures var delta := Collected(componentId, changes).delta;
            AgreeAt(ApplyState(attributes, delta), Replay(attributes, changes), name)
            <==> (name in delta.deleted ==> EndsDeleted(changes, name))
  {
    ReplayLookup(attributes, changes, name);
    CollectedLookup(componentId, changes, name);
  }

  /**
  The decoded delta means the changes in their order exactly when every name that is deleted at all
  is deleted last: the delta forgets the order, and deletions are applied last.
  */
  lemma DecodingKeepsOrderIff(attributes: map<string, Bytes>, componentId: ComponentId, changes: seq<AttributeChange>)
    ensures ApplyState(attributes, Collected(componentId, changes).delta) == Replay(attributes, changes)
      <==> DeletionsAreFinal(changes)
  {
    var delta := Collected(componentId, changes).delta;
    var applied, replayed := ApplyState(attributes, delta), Replay(attributes, changes);
    AgreeEverywhere(applied, replayed);
    forall name: string
      ensures AgreeAt(applied, replayed, name) <==> (name in delta.deleted ==> EndsDeleted(changes, name))
    {
      DecodingAt(attributes, componentId, changes, name);
    }
    forall name: string ensures name in delta.deleted <==> exists c <- changes :: c.name == name && c.change.Deletion? {
      CollectedNames(componentId, changes, name);
    }
  }

  const REBORN := [AttributeChange("x", "", Deletion), AttributeChange("x", "1", Update)]

  /** A name that is deleted and then set again is gone after decoding. */
  lemma RebornNameIsLost(componentId: ComponentId)
    ensures Specified(REBORN)
    ensures Replay(map["x" := "0"], REBORN) == map["x" := "1"]
    ensures ApplyState(map["x" := "0"], Collected(componentId, REBORN).delta) == map[]
  {
    assert REBORN[..1] == [REBORN[0]] && REBORN[..1][..0] == [];
    assert Collected(componentId, REBORN[..1]) == EntityDelta(StateDelta(componentId, map[], {"x"}), {});
    assert Collected(componentId, REBORN) == EntityDelta(StateDelta(componentId, map["x" := "1"], {"x"}), {});
    assert Replay(map["x" := "0"], REBORN[..1]) == map[];
  }

  /** The decoded delta is for the component it was asked for. */
  lemma {:induction false} CollectedFor(componentId: ComponentId, changes: seq<AttributeChange>)
    ensures Collected(componentId, changes).delta.componentId == componentId
  {
    if changes == [] {
    } else {
      CollectedFor(componentId, changes[..|changes| - 1]);
    }
  }
}
