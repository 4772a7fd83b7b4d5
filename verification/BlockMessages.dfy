/** Block messages and their parts as the objects the code changes in place. */
module BlockMessages {
  import opened Wrappers
  import opened DeltaAlgebra

  /** Merges `other` entry by entry into `self`, in whatever order the entries come. */
  method MergeEntries<K(==), V>(self: map<K, V>, other: map<K, V>, merge: (V, V) -> V) returns (merged: map<K, V>)
    ensures merged == MergeMaps(self, other, merge)
  {
    merged := self;
    var rest := other.Keys;
    ghost var done: map<K, V> := map[];
    while rest != {}
      invariant rest <= other.Keys && done.Keys == other.Keys - rest
      invariant forall k <- done :: k in other && done[k] == other[k]
      invariant merged == MergeMaps(self, done, merge)
      decreases |rest|
    {
      var k :| k in rest;
      MergeOneMore(self, done, merge, k, other[k]);
      if k in merged {
        merged := merged[k := merge(merged[k], other[k])];
      } else {
        merged := merged[k := other[k]];
      }
      done, rest := done[k := other[k]], rest - {k};
    }
    assert done == other;
  }

  lemma MergeOneMore<K, V>(self: map<K, V>, done: map<K, V>, merge: (V, V) -> V, k: K, v: V)
    requires k !in done
    ensures var was := MergeMaps(self, done, merge);
      MergeMaps(self, done[k := v], merge) == was[k := if k in was then merge(was[k], v) else v]
  {}

  /** Throws out the entries whose keys are not to be kept, looking at them in whatever order they come. */
  method RetainEntries<K(==), V>(entries: map<K, V>, keep: K -> bool) returns (kept: map<K, V>)
    ensures kept == Retain(entries, keep)
  {
    kept := entries;
    var rest := entries.Keys;
    while rest != {}
      invariant rest <= entries.Keys && kept.Keys <= entries.Keys
      invariant forall k <- entries :: k in kept <==> k in rest || keep(k)
      invariant forall k <- kept :: kept[k] == entries[k]
      decreases |rest|
    {
      var k :| k in rest;
      if !keep(k) { kept := kept - {k}; }
      rest := rest - {k};
    }
  }

  class ProtocolStateDelta {
    var componentId: ComponentId
    var updatedAttributes: map<string, Bytes>
    var deletedAttributes: set<string>

    constructor (d: StateDelta)
      ensures View() == d
    {
      componentId, updatedAttributes, deletedAttributes := d.componentId, d.updated, d.deleted;
    }

    ghost function View(): StateDelta
      reads this
    {
      StateDelta(componentId, updatedAttributes, deletedAttributes)
    }

    /** Takes a newer delta in; whatever it says about a name replaces what was known about that name. */
    method Merge(other: ProtocolStateDelta)
      requires other != this
      modifies this
      ensures View() == MergeState(old(View()), other.View()) && other.View() == old(other.View())
    {
      updatedAttributes := updatedAttributes - other.deletedAttributes;
      deletedAttributes := deletedAttributes - other.updatedAttributes.Keys;
      updatedAttributes := updatedAttributes + other.updatedAttributes;
      deletedAttributes := deletedAttributes + other.deletedAttributes;
    }
  }

  class AccountUpdateCell {
    var address: Address
    var chain: string
    var slots: map<Bytes, Bytes>
    var balance: Option<Bytes>
    var code: Option<Bytes>
    var change: ChangeType

    constructor (u: AccountUpdate)
      ensures View() == u
    {
      address, chain, slots, balance, code, change := u.address, u.chain, u.slots, u.balance, u.code, u.change;
    }

    ghost function View(): AccountUpdate
      reads this
    {
      AccountUpdate(address, chain, slots, balance, code, change)
    }

    /** Takes a newer update in; fields it leaves out keep their values. */
    method Merge(other: AccountUpdateCell)
      requires other != this
      modifies this
      ensures View() == MergeAccount(old(View()), other.View()) && other.View() == old(other.View())
    {
      slots := slots + other.slots;
      if other.balance.Some? { balance := other.balance; }
      if other.code.Some? { code := other.code; }
      change := MergeChange(change, other.change);
    }
  }

  class BlockAggregatedChanges {
    const extractor: string
    const chain: string
    const finalizedBlockHeight: nat
    const newTokens: map<Token, string>
    const dciUpdate: string
    const partialBlockIndex: Option<nat>
    var block: Block
    var revert: bool
    var accountUpdates: map<Address, AccountUpdate>
    var stateUpdates: map<ComponentId, StateDelta>
    var newComponents: map<ComponentId, Component>
    var deletedComponents: map<ComponentId, Component>
    var componentBalances: map<ComponentId, map<Token, Balance>>
    var accountBalances: map<Address, map<Token, Balance>>
    var componentTvl: map<ComponentId, Tvl>

    constructor (m: BlockChanges)
      ensures View() == m
    {
      extractor, chain, finalizedBlockHeight := m.extractor, m.chain, m.finalizedBlockHeight;
      newTokens, dciUpdate, partialBlockIndex := m.newTokens, m.dciUpdate, m.partialBlockIndex;
      block, revert := m.block, m.revert;
      accountUpdates, stateUpdates := m.accountUpdates, m.stateUpdates;
      newComponents, deletedComponents := m.newComponents, m.deletedComponents;
      componentBalances, accountBalances, componentTvl := m.componentBalances, m.accountBalances, m.componentTvl;
    }

    ghost function View(): BlockChanges
      reads this
    {
      BlockChanges(extractor, chain, block, finalizedBlockHeight, revert, newTokens, accountUpdates, stateUpdates,
                   newComponents, deletedComponents, componentBalances, accountBalances, componentTvl, dciUpdate,
                   partialBlockIndex)
    }

    /** Takes a newer message in. */
    method Merge(other: BlockChanges)
      modifies this
      ensures View() == DeltaAlgebra.Merge(old(View()), other)
    {
      MergeUpdates(other);
      MergeAllBalances(other);
      componentTvl := componentTvl + other.componentTvl;
      newComponents := newComponents + other.newComponents;
      deletedComponents := deletedComponents + other.deletedComponents;
      revert := other.revert;
      block := other.block;
    }

    method MergeUpdates(other: BlockChanges)
      modifies this`accountUpdates, this`stateUpdates
      ensures accountUpdates == MergeMaps(old(accountUpdates), other.accountUpdates, MergeAccount)
      ensures stateUpdates == MergeMaps(old(stateUpdates), other.stateUpdates, MergeState)
    {
      accountUpdates := MergeEntries(accountUpdates, other.accountUpdates, MergeAccount);
      stateUpdates := MergeEntries(stateUpdates, other.stateUpdates, MergeState);
    }

    method MergeAllBalances(other: BlockChanges)
      modifies this`componentBalances, this`accountBalances
      ensures componentBalances == MergeMaps(old(componentBalances), other.componentBalances, MergeBalances)
      ensures accountBalances == MergeMaps(old(accountBalances), other.accountBalances, MergeBalances)
    {
      componentBalances := MergeEntries(componentBalances, other.componentBalances, MergeBalances);
      accountBalances := MergeEntries(accountBalances, other.accountBalances, MergeBalances);
    }

    method FilterByComponent(keep: ComponentId -> bool)
      modifies this
      ensures View() == DeltaAlgebra.FilterByComponent(old(View()), keep)
    {
      stateUpdates := RetainEntries(stateUpdates, keep);
      componentBalances := RetainEntries(componentBalances, keep);
      componentTvl := RetainEntries(componentTvl, keep);
    }

    method FilterByContract(keep: Address -> bool)
      modifies this
      ensures View() == DeltaAlgebra.FilterByContract(old(View()), keep)
    {
      accountUpdates := RetainEntries(accountUpdates, keep);
      accountBalances := RetainEntries(accountBalances, keep);
    }
  }
}
