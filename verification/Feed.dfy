/**
The client's feed: messages off the wire in the client's own model, snapshots that are brought up to date
with buffered messages, and messages that are merged while a delayed extractor catches up.
*/
module Feed {
  import opened DeltaAlgebra
  import opened ModelDeltas

  /** A block message as the client keeps it. */
  datatype ModelBlock = ModelBlock(
    block: Block,
    revert: bool,
    accountDeltas: map<Address, ModelAccountDelta>,
    stateDeltas: map<ComponentId, ModelStateDelta>,
    newComponents: map<ComponentId, Component>,
    deletedComponents: map<ComponentId, Component>,
    componentBalances: map<ComponentId, map<Token, Balance>>,
    accountBalances: map<Address, map<Token, Balance>>,
    componentTvl: map<ComponentId, Tvl>)

  function MapValues<K, V, W>(m: map<K, V>, f: V -> W): map<K, W> {
    map k | k in m :: f(m[k])
  }

  function FromWire(m: BlockChanges): ModelBlock {
    ModelBlock(m.block, m.revert,
               MapValues(m.accountUpdates, FromWireAccount), MapValues(m.stateUpdates, FromWireState),
               m.newComponents, m.deletedComponents, m.componentBalances, m.accountBalances, m.componentTvl)
  }

  function FromWireAll(messages: seq<BlockChanges>): (blocks: seq<ModelBlock>)
    ensures |blocks| == |messages|
  {
    seq(|messages|, i requires 0 <= i < |messages| => FromWire(messages[i]))
  }

  // ------------------------------------------------------------------ bringing a snapshot up to date

  function ApplyStateInFeed(attributes: map<string, Bytes>, d: ModelStateDelta): map<string, Bytes> {
    (attributes + d.updated) - d.deleted
  }

  function ApplyAccountInFeed(a: Account, d: ModelAccountDelta): Account {
    Account(ApplySlotsInFeed(a.slots, d.slots),
            if d.balance.Some? then d.balance.value else a.balance,
            if d.code.Some? then d.code.value else a.code)
  }

  /** A snapshot takes attributes and balances of its components, and accounts that are asked for. */
  function ApplyInFeed(s: Snapshot, m: ModelBlock, contracts: set<Address>): Snapshot {
    s.(attributes := ApplyMaps(s.attributes, m.stateDeltas, ApplyStateInFeed),
       balances := ApplyMaps(s.balances, m.componentBalances, ApplyBalances),
       accounts := ApplyMaps(s.accounts, Retain(m.accountDeltas, a => a in contracts), ApplyAccountInFeed))
  }

  /** The buffered messages after block `after`, one by one. */
  function ApplyBuffered(s: Snapshot, buffered: seq<ModelBlock>, after: nat, contracts: set<Address>): Snapshot {
    if buffered == [] then s
    else
      var before, last := ApplyBuffered(s, buffered[..|buffered| - 1], after, contracts), buffered[|buffered| - 1];
      if last.block.number <= after then before else ApplyInFeed(before, last, contracts)
  }

  /** Applies the deltas that are asked for to the entries that are there, in whatever order the deltas come. */
  method ApplyEntries<K(==), S, V>(state: map<K, S>, deltas: map<K, V>, asked: K -> bool, apply: (S, V) -> S)
    returns (next: map<K, S>)
    ensures next == ApplyMaps(state, Retain(deltas, asked), apply)
  {
    next := state;
    var rest := deltas.Keys;
    while rest != {}
      invariant rest <= deltas.Keys && next.Keys == state.Keys
      invariant forall k <- state ::
        next[k] == if k in deltas && k !in rest && asked(k) then apply(state[k], deltas[k]) else state[k]
      decreases |rest|
    {
      var k :| k in rest;
      if asked(k) && k in next { next := next[k := apply(next[k], deltas[k])]; }
      rest := rest - {k};
    }
  }

  class SnapshotCell {
    var attributes: map<ComponentId, map<string, Bytes>>
    var balances: map<ComponentId, map<Token, Balance>>
    var accounts: map<Address, Account>
    const accountBalances: map<Address, map<Token, Balance>>
    const tvl: map<ComponentId, Tvl>

    constructor (s: Snapshot)
      ensures View() == s
    {
      attributes, balances, accounts := s.attributes, s.balances, s.accounts;
      accountBalances, tvl := s.accountBalances, s.tvl;
    }

    ghost function View(): Snapshot
      reads this
    {
      Snapshot(attributes, balances, accounts, accountBalances, tvl)
    }

    method ApplyDelta(m: ModelBlock, contracts: set<Address>)
      modifies this
      ensures View() == ApplyInFeed(old(View()), m, contracts)
    {
      attributes := ApplyEntries(attributes, m.stateDeltas, _ => true, ApplyStateInFeed);
      balances := ApplyEntries(balances, m.componentBalances, _ => true, ApplyBalances);
      accounts := ApplyEntries(accounts, m.accountDeltas, a => a in contracts, ApplyAccountInFeed);
    }

    /** Brings the snapshot of block `after` up to date. */
    method ApplyDeltas(buffered: seq<ModelBlock>, after: nat, contracts: set<Address>)
      modifies this
      ensures View() == ApplyBuffered(old(View()), buffered, after, contracts)
    {
      for i := 0 to |buffered|
        invariant View() == ApplyBuffered(old(View()), buffered[..i], after, contracts)
      {
        assert buffered[..i + 1][..i] == buffered[..i];
        if buffered[i].block.number > after {
          ApplyDelta(buffered[i], contracts);
        }
      }
      assert buffered[..|buffered|] == buffered;
    }
  }

  // ------------------------------------------------------------------ the feed and the wire

  /** The parts of a snapshot the feed keeps up to date. */
  function Kept(s: Snapshot): Snapshot {
    s.(accountBalances := map[], tvl := map[])
  }

  predicate StateShows(d: ModelStateDelta, u: StateDelta) {
    ToWireState(d) == u
  }

  /** The kind of change is not part of what an account delta shows. */
  predicate AccountShows(d: ModelAccountDelta, u: AccountUpdate) {
    d.address == u.address && d.slots == Somes(u.slots) && d.balance == u.balance && d.code == u.code
  }

  ghost predicate Show<K, D, U>(ds: map<K, D>, us: map<K, U>, shows: (D, U) -> bool) {
    ds.Keys == us.Keys && forall k <- ds :: shows(ds[k], us[k])
  }

  /** The client's message says what the wire message says. */
  ghost predicate BlockShows(b: ModelBlock, m: BlockChanges) {
    && b.block == m.block && b.revert == m.revert
    && b.newComponents == m.newComponents && b.deletedComponents == m.deletedComponents
    && b.accountBalances == m.accountBalances && b.componentTvl == m.componentTvl
    && Show(b.stateDeltas, m.stateUpdates, StateShows)
    && Show(b.accountDeltas, m.accountUpdates, AccountShows)
    && b.componentBalances == m.componentBalances
  }

  lemma FromWireShows(m: BlockChanges)
    ensures BlockShows(FromWire(m), m)
  {}

  lemma ShownApply<K, S, D(!new), U(!new)>(
    state: map<K, S>, ds: map<K, D>, us: map<K, U>, shows: (D, U) -> bool, applyD: (S, D) -> S, applyU: (S, U) -> S)
    requires Show(ds, us, shows)
    requires forall s, d, u | shows(d, u) :: applyD(s, d) == applyU(s, u)
    ensures ApplyMaps(state, ds, applyD) == ApplyMaps(state, us, applyU)
  {}

  function Asked(m: BlockChanges, contracts: set<Address>): BlockChanges {
    FilterByContract(m, a => a in contracts)
  }

  lemma ShownAccount(a: Account, d: ModelAccountDelta, u: AccountUpdate)
    requires AccountShows(d, u)
    ensures ApplyAccountInFeed(a, d) == ApplyAccount(a, u)
  {
    WrittenSlots(u.slots);
  }

  /** The feed does with its message what the wire message means. */
  lemma FeedAppliesWire(s: Snapshot, b: ModelBlock, m: BlockChanges, contracts: set<Address>)
    requires BlockShows(b, m)
    ensures Kept(ApplyInFeed(s, b, contracts)) == Kept(Apply(s, Asked(m, contracts)))
  {
    ShownApply(s.attributes, b.stateDeltas, m.stateUpdates, StateShows, ApplyStateInFeed, ApplyState);
    forall a, d, u | AccountShows(d, u) ensures ApplyAccountInFeed(a, d) == ApplyAccount(a, u) {
      ShownAccount(a, d, u);
    }
    ShownApply(s.accounts, Retain(b.accountDeltas, a => a in contracts), Retain(m.accountUpdates, a => a in contracts),
               AccountShows, ApplyAccountInFeed, ApplyAccount);
  }

  /** The wire messages after block `after`, with the accounts that are asked for. */
  function Later(messages: seq<BlockChanges>, after: nat, contracts: set<Address>): seq<BlockChanges> {
    if messages == [] then []
    else
      var last := messages[|messages| - 1];
      Later(messages[..|messages| - 1], after, contracts)
      + if last.block.number <= after then [] else [Asked(last, contracts)]
  }

  /** Exactly the messages after the snapshot's block are applied. */
  lemma {:induction false} LaterIs(messages: seq<BlockChanges>, after: nat, contracts: set<Address>, x: BlockChanges)
    ensures x in Later(messages, after, contracts)
      <==> exists m <- messages :: m.block.number > after && x == Asked(m, contracts)
  {
    if messages == [] {
    } else {
      var init, last := messages[..|messages| - 1], messages[|messages| - 1];
      LaterIs(init, after, contracts, x);
      assert messages == init + [last];
    }
  }

  lemma SameKept(s: Snapshot, t: Snapshot, m: BlockChanges)
    requires Kept(s) == Kept(t)
    ensures Kept(Apply(s, m)) == Kept(Apply(t, m))
  {}

  lemma {:induction false} BufferedIsLater(
    s: Snapshot, messages: seq<BlockChanges>, after: nat, contracts: set<Address>)
    ensures Kept(ApplyBuffered(s, FromWireAll(messages), after, contracts))
         == Kept(ApplyAll(s, Later(messages, after, contracts)))
  {
    if messages == [] {
    } else {
      var init, last := messages[..|messages| - 1], messages[|messages| - 1];
      var buffered := FromWireAll(messages);
      assert buffered[..|buffered| - 1] == FromWireAll(init) && buffered[|buffered| - 1] == FromWire(last);
      BufferedIsLater(s, init, after, contracts);
      if last.block.number > after {
        var before := ApplyBuffered(s, FromWireAll(init), after, contracts);
        var wire := ApplyAll(s, Later(init, after, contracts));
        FromWireShows(last);
        FeedAppliesWire(before, FromWire(last), last, contracts);
        SameKept(before, wire, Asked(last, contracts));
        var later := Later(messages, after, contracts);
        assert later[..|later| - 1] == Later(init, after, contracts);
      } else {
        assert Later(messages, after, contracts) == Later(init, after, contracts);
      }
    }
  }

  /**
  A snapshot brought up to date with buffered messages is where one merged message, with everything after
  the snapshot's block in it, would have brought it.
  */
  lemma BufferedIsOneMerge(s: Snapshot, messages: seq<BlockChanges>, after: nat, contracts: set<Address>)
    ensures var later := Later(messages, after, contracts);
      Kept(ApplyBuffered(s, FromWireAll(messages), after, contracts))
      == Kept(if later == [] then s else Apply(s, MergeAll(later)))
  {
    BufferedIsLater(s, messages, after, contracts);
    if Later(messages, after, contracts) != [] { FoldFusion(s, Later(messages, after, contracts)); }
  }

  // ------------------------------------------------------------------ merging while catching up

  /** A merge that fails leaves the older delta as it was. */
  function MergeStateOrKeep(a: ModelStateDelta, b: ModelStateDelta): ModelStateDelta {
    var r := MergeModelState(a, b);
    if r.Ok? then r.value else a
  }

  function MergeAccountOrKeep(a: ModelAccountDelta, b: ModelAccountDelta): ModelAccountDelta {
    var r := MergeModelAccount(a, b);
    if r.Ok? then r.value else a
  }

  lemma MismatchKeepsTheOlder(a: ModelStateDelta, b: ModelStateDelta, c: ModelAccountDelta, d: ModelAccountDelta)
    ensures a.componentId != b.componentId ==> MergeStateOrKeep(a, b) == a
    ensures c.address != d.address ==> MergeAccountOrKeep(c, d) == c
  {}

  function MergeBlocks(a: ModelBlock, b: ModelBlock): ModelBlock {
    ModelBlock(b.block, b.revert,
               MergeMaps(a.accountDeltas, b.accountDeltas, MergeAccountOrKeep),
               MergeMaps(a.stateDeltas, b.stateDeltas, MergeStateOrKeep),
               a.newComponents + b.newComponents,
               a.deletedComponents + b.deletedComponents,
               MergeMaps(a.componentBalances, b.componentBalances, MergeBalances),
               MergeMaps(a.accountBalances, b.accountBalances, MergeBalances),
               a.componentTvl + b.componentTvl)
  }

  /** Every delta stands under the id it is for. */
  ghost predicate Keyed(m: BlockChanges) {
    && (forall k <- m.stateUpdates :: m.stateUpdates[k].componentId == k)
    && (forall k <- m.accountUpdates :: m.accountUpdates[k].address == k)
  }

  lemma MergeIsKeyed(a: BlockChanges, b: BlockChanges)
    requires Keyed(a) && Keyed(b)
    ensures Keyed(Merge(a, b))
  {}

  lemma MergedAccountShows(d: ModelAccountDelta, e: ModelAccountDelta, u: AccountUpdate, v: AccountUpdate)
    requires AccountShows(d, u) && AccountShows(e, v) && u.address == v.address
    ensures AccountShows(MergeAccountOrKeep(d, e), MergeAccount(u, v))
  {
    assert Somes(u.slots + v.slots) == Somes(u.slots) + Somes(v.slots);
  }

  lemma MergedMapsShow<K, D, U>(
    d: map<K, D>, e: map<K, D>, u: map<K, U>, v: map<K, U>,
    shows: (D, U) -> bool, mergeD: (D, D) -> D, mergeU: (U, U) -> U)
    requires Show(d, u, shows) && Show(e, v, shows)
    requires forall k | k in d && k in e :: shows(mergeD(d[k], e[k]), mergeU(u[k], v[k]))
    ensures Show(MergeMaps(d, e, mergeD), MergeMaps(u, v, mergeU), shows)
  {}

  /** Merging in the client's model shows what merging on the wire gives. */
  lemma MergedBlockShows(c: ModelBlock, d: ModelBlock, m: BlockChanges, n: BlockChanges)
    requires BlockShows(c, m) && BlockShows(d, n) && Keyed(m) && Keyed(n)
    ensures BlockShows(MergeBlocks(c, d), Merge(m, n))
  {
    forall k | k in c.accountDeltas && k in d.accountDeltas
      ensures AccountShows(MergeAccountOrKeep(c.accountDeltas[k], d.accountDeltas[k]),
                           MergeAccount(m.accountUpdates[k], n.accountUpdates[k]))
    {
      MergedAccountShows(c.accountDeltas[k], d.accountDeltas[k], m.accountUpdates[k], n.accountUpdates[k]);
    }
    MergedMapsShow(c.accountDeltas, d.accountDeltas, m.accountUpdates, n.accountUpdates,
                   AccountShows, MergeAccountOrKeep, MergeAccount);
    MergedMapsShow(c.stateDeltas, d.stateDeltas, m.stateUpdates, n.stateUpdates,
                   StateShows, MergeStateOrKeep, MergeState);
  }

  lemma {:induction false} ReducedShows(messages: seq<BlockChanges>)
    requires messages != [] && forall m <- messages :: Keyed(m)
    ensures BlockShows(Reduce(FromWireAll(messages), MergeBlocks), MergeAll(messages)) && Keyed(MergeAll(messages))
  {
    var blocks := FromWireAll(messages);
    var init, last := messages[..|messages| - 1], messages[|messages| - 1];
    FromWireShows(last);
    assert last in messages;
    if |messages| == 1 {
      assert Reduce(blocks, MergeBlocks) == FromWire(last);
    } else {
      assert blocks[..|blocks| - 1] == FromWireAll(init);
      ReducedShows(init);
      MergedBlockShows(Reduce(FromWireAll(init), MergeBlocks), FromWire(last), MergeAll(init), last);
      MergeIsKeyed(MergeAll(init), last);
    }
  }

  function AskedOf(messages: seq<BlockChanges>, contracts: set<Address>): (asked: seq<BlockChanges>)
    ensures |asked| == |messages|
  {
    seq(|messages|, i requires 0 <= i < |messages| => Asked(messages[i], contracts))
  }

  lemma {:induction false} AskedAll(messages: seq<BlockChanges>, contracts: set<Address>)
    requires messages != []
    ensures Asked(MergeAll(messages), contracts)
         == MergeAll(AskedOf(messages, contracts))
  {
    var asked := AskedOf(messages, contracts);
    if |messages| == 1 {
    } else {
      var init := messages[..|messages| - 1];
      AskedAll(init, contracts);
      assert asked[..|asked| - 1] == AskedOf(init, contracts);
      FilterByContractCommutes(MergeAll(init), messages[|messages| - 1], a => a in contracts);
    }
  }

  /**
  A consumer of the feed that gets one merged message while its extractor catches up ends up where it would
  have been with every message on its own, although the client merges in its own model and the indexer on
  the wire.
  */
  lemma CatchUpFuses(s: Snapshot, messages: seq<BlockChanges>, contracts: set<Address>)
    requires messages != [] && forall m <- messages :: Keyed(m)
    ensures Kept(ApplyInFeed(s, Reduce(FromWireAll(messages), MergeBlocks), contracts))
         == Kept(ApplyAll(s, AskedOf(messages, contracts)))
  {
    ReducedShows(messages);
    FeedAppliesWire(s, Reduce(FromWireAll(messages), MergeBlocks), MergeAll(messages), contracts);
    AskedAll(messages, contracts);
    FoldFusion(s, AskedOf(messages, contracts));
  }
}
