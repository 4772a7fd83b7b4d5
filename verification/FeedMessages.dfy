/**
Whole messages of the feed: snapshots of components that are tracked from now on, deltas for those that are
tracked already, and components that are tracked no more. A consumer takes out what is removed, puts in the
snapshots and then applies the deltas; a delayed extractor's messages are merged into one before that.
*/
module FeedMessages {
  import BlockMessages
  import opened DeltaAlgebra
  import opened Feed
  import opened ModelDeltas
  import opened Wrappers

  datatype ComponentState = ComponentState(attributes: map<string, Bytes>, balances: map<Token, Balance>)

  datatype Message = Message(
    states: map<ComponentId, ComponentState>,
    accounts: map<Address, Account>,
    deltas: Option<ModelBlock>,
    removed: map<ComponentId, Component>)

  /** What a consumer keeps. */
  datatype Tracked = Tracked(states: map<ComponentId, ComponentState>, accounts: map<Address, Account>)

  // ------------------------------------------------------------------ consuming

  /** What the deltas of a message say about one component; nothing if it has none. */
  function StateOf(deltas: Option<ModelBlock>, id: ComponentId): StateDelta {
    if deltas.Some? && id in deltas.value.stateDeltas then ToWireState(deltas.value.stateDeltas[id])
    else StateDelta(id, map[], {})
  }

  function BalancesOf(deltas: Option<ModelBlock>, id: ComponentId): map<Token, Balance> {
    if deltas.Some? && id in deltas.value.componentBalances then deltas.value.componentBalances[id] else map[]
  }

  function AccountOf(deltas: Option<ModelBlock>, address: Address): AccountUpdate {
    if deltas.Some? && address in deltas.value.accountDeltas then ToWireAccount(deltas.value.accountDeltas[address])
    else AccountUpdate(address, "", map[], None, None, Unspecified)
  }

  function ApplyToComponent(deltas: Option<ModelBlock>, id: ComponentId, s: ComponentState): ComponentState {
    ComponentState(ApplyState(s.attributes, StateOf(deltas, id)), ApplyBalances(s.balances, BalancesOf(deltas, id)))
  }

  function ApplyToAccount(deltas: Option<ModelBlock>, address: Address, a: Account): Account {
    ApplyAccount(a, AccountOf(deltas, address))
  }

  /** Takes out, puts in, and then applies to whatever is there. */
  function Consumed<K, S>(state: map<K, S>, removed: set<K>, put: map<K, S>, apply: (K, S) -> S): map<K, S> {
    map k | k in (state - removed) + put :: apply(k, ((state - removed) + put)[k])
  }

  function Consume(t: Tracked, m: Message): Tracked {
    Tracked(Consumed(t.states, m.removed.Keys, m.states, (id, s) => ApplyToComponent(m.deltas, id, s)),
            Consumed(t.accounts, {}, m.accounts, (address, a) => ApplyToAccount(m.deltas, address, a)))
  }

  /** What a message has no deltas for stays as it is. */
  lemma NoDeltaNoChange(deltas: Option<ModelBlock>, id: ComponentId, s: ComponentState)
    requires !Touches(deltas, id)
    ensures ApplyToComponent(deltas, id, s) == s
  {
    assert s.attributes + map[] - {} == s.attributes && s.balances + map[] == s.balances;
  }

  lemma NoAccountDeltaNoChange(deltas: Option<ModelBlock>, address: Address, a: Account)
    requires !TouchesAccount(deltas, address)
    ensures ApplyToAccount(deltas, address, a) == a
  {
    assert a.slots + map[] == a.slots;
  }

  predicate Touches(deltas: Option<ModelBlock>, id: ComponentId) {
    deltas.Some? && (id in deltas.value.stateDeltas || id in deltas.value.componentBalances)
  }

  predicate TouchesAccount(deltas: Option<ModelBlock>, address: Address) {
    deltas.Some? && address in deltas.value.accountDeltas
  }

  // ------------------------------------------------------------------ merging

  function MergeDeltas(a: Option<ModelBlock>, b: Option<ModelBlock>): Option<ModelBlock> {
    if a.None? then b else if b.None? then a else Some(MergeBlocks(a.value, b.value))
  }

  function MergeMessages(a: Message, b: Message): Message {
    Message((a.states - b.removed.Keys) + b.states, a.accounts + b.accounts, MergeDeltas(a.deltas, b.deltas),
            (a.removed - b.states.Keys) + b.removed)
  }

  /** The merge as it is written: two loops that throw entries out, and what is left is extended. */
  method Merge(self: Message, other: Message) returns (merged: Message)
    ensures merged == MergeMessages(self, other)
  {
    var removed := BlockMessages.RetainEntries(self.removed, id => id !in other.states);
    var states := BlockMessages.RetainEntries(self.states, id => id !in other.removed);
    var deltas := other.deltas;
    if self.deltas.Some? {
      deltas := if other.deltas.Some? then Some(MergeBlocks(self.deltas.value, other.deltas.value)) else self.deltas;
    }
    assert removed == self.removed - other.states.Keys && states == self.states - other.removed.Keys;
    merged := Message(states + other.states, self.accounts + other.accounts, deltas, removed + other.removed);
  }

  /** Every delta stands under the id it is for. */
  ghost predicate KeyedDeltas(deltas: Option<ModelBlock>) {
    deltas.Some? ==>
      && (forall k <- deltas.value.stateDeltas :: deltas.value.stateDeltas[k].componentId == k)
      && (forall k <- deltas.value.accountDeltas :: deltas.value.accountDeltas[k].address == k)
  }

  lemma MergedStateOf(a: Option<ModelBlock>, b: Option<ModelBlock>, id: ComponentId, attributes: map<string, Bytes>)
    requires KeyedDeltas(a) && KeyedDeltas(b)
    ensures ApplyState(attributes, StateOf(MergeDeltas(a, b), id))
         == ApplyState(ApplyState(attributes, StateOf(a, id)), StateOf(b, id))
  {
    var d, e := StateOf(a, id), StateOf(b, id);
    StateFusion(attributes, d, e);
    MergedStateIs(a, b, id);
  }

  lemma MergedStateIs(a: Option<ModelBlock>, b: Option<ModelBlock>, id: ComponentId)
    requires KeyedDeltas(a) && KeyedDeltas(b)
    ensures StateOf(MergeDeltas(a, b), id) == MergeState(StateOf(a, id), StateOf(b, id))
  {
    var d, e := StateOf(a, id), StateOf(b, id);
    assert d.updated - {} + map[] == d.updated && (d.deleted - {}) + {} == d.deleted;
    assert map[] - e.deleted + e.updated == e.updated && ({} - e.updated.Keys) + e.deleted == e.deleted;
  }

  lemma MergedBalancesOf(a: Option<ModelBlock>, b: Option<ModelBlock>, id: ComponentId)
    ensures BalancesOf(MergeDeltas(a, b), id) == BalancesOf(a, id) + BalancesOf(b, id)
  {}

  lemma MergedAccountOf(a: Option<ModelBlock>, b: Option<ModelBlock>, address: Address, acc: Account)
    requires KeyedDeltas(a) && KeyedDeltas(b)
    ensures ApplyAccount(acc, AccountOf(MergeDeltas(a, b), address))
         == ApplyAccount(ApplyAccount(acc, AccountOf(a, address)), AccountOf(b, address))
  {
    MergedAccountIs(a, b, address);
    AccountFusion(acc, AccountOf(a, address), AccountOf(b, address));
    assert ApplyAccount(acc, AccountOf(MergeDeltas(a, b), address))
        == ApplyAccount(acc, MergeAccount(AccountOf(a, address), AccountOf(b, address)));
  }

  /** The same account update but for what no account is made of: chain, address and kind of change. */
  lemma MergedAccountIs(a: Option<ModelBlock>, b: Option<ModelBlock>, address: Address)
    requires KeyedDeltas(a) && KeyedDeltas(b)
    ensures var u := AccountOf(MergeDeltas(a, b), address);
            var v := MergeAccount(AccountOf(a, address), AccountOf(b, address));
            u.slots == v.slots && u.balance == v.balance && u.code == v.code
  {
    if TouchesAccount(a, address) && TouchesAccount(b, address) {
      WireAccountCommutesIff(a.value.accountDeltas[address], b.value.accountDeltas[address]);
    } else {
      var c, d := AccountOf(a, address), AccountOf(b, address);
      assert c.slots + map[] == c.slots && map[] + d.slots == d.slots;
    }
  }

  lemma DeltasFuse(a: Option<ModelBlock>, b: Option<ModelBlock>, id: ComponentId, s: ComponentState)
    requires KeyedDeltas(a) && KeyedDeltas(b)
    ensures ApplyToComponent(MergeDeltas(a, b), id, s) == ApplyToComponent(b, id, ApplyToComponent(a, id, s))
  {
    MergedStateOf(a, b, id, s.attributes);
    MergedBalancesOf(a, b, id);
    OverwriteAssociative(s.balances, BalancesOf(a, id), BalancesOf(b, id));
  }

  lemma AccountDeltasFuse(a: Option<ModelBlock>, b: Option<ModelBlock>, address: Address, acc: Account)
    requires KeyedDeltas(a) && KeyedDeltas(b)
    ensures ApplyToAccount(MergeDeltas(a, b), address, acc)
         == ApplyToAccount(b, address, ApplyToAccount(a, address, acc))
  {
    MergedAccountOf(a, b, address, acc);
  }

  // ------------------------------------------------------------------ when a merged message means its parts

  lemma ConsumedAt<K, S>(state: map<K, S>, ra: set<K>, rb: set<K>, pa: map<K, S>, pb: map<K, S>,
                         fa: (K, S) -> S, fb: (K, S) -> S, fab: (K, S) -> S, k: K)
    requires forall x: S :: fab(k, x) == fb(k, fa(k, x))
    ensures AgreeAt(Consumed(state, (ra - pb.Keys) + rb, (pa - rb) + pb, fab),
                    Consumed(Consumed(state, ra, pa, fa), rb, pb, fb), k)
            <==> (k in pb ==> fb(k, fa(k, pb[k])) == fb(k, pb[k]))
  {}

  lemma ConsumedTwiceIff<K(!new), S>(state: map<K, S>, ra: set<K>, rb: set<K>, pa: map<K, S>, pb: map<K, S>,
                                     fa: (K, S) -> S, fb: (K, S) -> S, fab: (K, S) -> S)
    requires forall k, x: S :: fab(k, x) == fb(k, fa(k, x))
    ensures Consumed(state, (ra - pb.Keys) + rb, (pa - rb) + pb, fab)
         == Consumed(Consumed(state, ra, pa, fa), rb, pb, fb)
      <==> forall k <- pb :: fb(k, fa(k, pb[k])) == fb(k, pb[k])
  {
    var once := Consumed(state, (ra - pb.Keys) + rb, (pa - rb) + pb, fab);
    var twice := Consumed(Consumed(state, ra, pa, fa), rb, pb, fb);
    AgreeEverywhere(once, twice);
    forall k ensures AgreeAt(once, twice, k) <==> (k in pb ==> fb(k, fa(k, pb[k])) == fb(k, pb[k])) {
      ConsumedAt(state, ra, rb, pa, pb, fa, fb, fab, k);
    }
  }

  /** What an older delta says about a name, a newer delta or the newer snapshot itself says too. */
  predicate NameSettled(snapshot: map<string, Bytes>, older: StateDelta, newer: StateDelta, name: string) {
    || name in newer.updated || name in newer.deleted
    || if name in older.deleted then name !in snapshot
       else name in older.updated ==> name in snapshot && snapshot[name] == older.updated[name]
  }

  ghost predicate AttributesSettled(snapshot: map<string, Bytes>, older: StateDelta, newer: StateDelta) {
    forall name :: NameSettled(snapshot, older, newer, name)
  }

  ghost predicate EntriesSettled<K, V>(snapshot: map<K, V>, older: map<K, V>, newer: map<K, V>) {
    forall k <- older :: k in newer || (k in snapshot && snapshot[k] == older[k])
  }

  predicate FieldSettled(snapshot: Bytes, older: Option<Bytes>, newer: Option<Bytes>) {
    older.None? || newer.Some? || older.value == snapshot
  }

  /** The older message's deltas for a component do not show through the newer message's snapshot of it. */
  ghost predicate ComponentSettled(a: Message, b: Message, id: ComponentId)
    requires id in b.states
  {
    && AttributesSettled(b.states[id].attributes, StateOf(a.deltas, id), StateOf(b.deltas, id))
    && EntriesSettled(b.states[id].balances, BalancesOf(a.deltas, id), BalancesOf(b.deltas, id))
  }

  ghost predicate AccountSettled(a: Message, b: Message, address: Address)
    requires address in b.accounts
  {
    var acc, older, newer := b.accounts[address], AccountOf(a.deltas, address), AccountOf(b.deltas, address);
    && EntriesSettled(acc.slots, older.slots, newer.slots)
    && FieldSettled(acc.balance, older.balance, newer.balance)
    && FieldSettled(acc.code, older.code, newer.code)
  }

  lemma NameSettledIff(snapshot: map<string, Bytes>, older: StateDelta, newer: StateDelta, name: string)
    ensures NameSettled(snapshot, older, newer, name)
      <==> AgreeAt(ApplyState(ApplyState(snapshot, older), newer), ApplyState(snapshot, newer), name)
  {}

  lemma AttributesSettledIff(snapshot: map<string, Bytes>, older: StateDelta, newer: StateDelta)
    ensures AttributesSettled(snapshot, older, newer)
      <==> ApplyState(ApplyState(snapshot, older), newer) == ApplyState(snapshot, newer)
  {
    AgreeEverywhere(ApplyState(ApplyState(snapshot, older), newer), ApplyState(snapshot, newer));
    forall name ensures NameSettled(snapshot, older, newer, name)
      <==> AgreeAt(ApplyState(ApplyState(snapshot, older), newer), ApplyState(snapshot, newer), name)
    {
      NameSettledIff(snapshot, older, newer, name);
    }
  }

  lemma EntriesSettledIff<K(!new), V>(snapshot: map<K, V>, older: map<K, V>, newer: map<K, V>)
    ensures EntriesSettled(snapshot, older, newer) <==> snapshot + older + newer == snapshot + newer
  {
    AgreeEverywhere(snapshot + older + newer, snapshot + newer);
    forall k ensures AgreeAt(snapshot + older + newer, snapshot + newer, k)
      <==> (k in older ==> k in newer || (k in snapshot && snapshot[k] == older[k])) {}
  }

  lemma ComponentSettledIff(a: Message, b: Message, id: ComponentId)
    requires id in b.states
    ensures var s := b.states[id];
      ComponentSettled(a, b, id)
      <==> ApplyToComponent(b.deltas, id, ApplyToComponent(a.deltas, id, s)) == ApplyToComponent(b.deltas, id, s)
  {
    AttributesSettledIff(b.states[id].attributes, StateOf(a.deltas, id), StateOf(b.deltas, id));
    EntriesSettledIff(b.states[id].balances, BalancesOf(a.deltas, id), BalancesOf(b.deltas, id));
  }

  lemma AccountSettledIff(a: Message, b: Message, address: Address)
    requires address in b.accounts
    ensures var acc := b.accounts[address];
      AccountSettled(a, b, address)
      <==> ApplyToAccount(b.deltas, address, ApplyToAccount(a.deltas, address, acc))
           == ApplyToAccount(b.deltas, address, acc)
  {
    var acc, older, newer := b.accounts[address], AccountOf(a.deltas, address), AccountOf(b.deltas, address);
    EntriesSettledIff(acc.slots, older.slots, newer.slots);
  }

  /** No delta of the older message shows through a snapshot of the newer one. */
  ghost predicate Settled(a: Message, b: Message) {
    && (forall id <- b.states :: ComponentSettled(a, b, id))
    && (forall address <- b.accounts :: AccountSettled(a, b, address))
  }

  lemma StatesFuseIff(t: Tracked, a: Message, b: Message)
    requires KeyedDeltas(a.deltas) && KeyedDeltas(b.deltas)
    ensures Consume(t, MergeMessages(a, b)).states == Consume(Consume(t, a), b).states
      <==> forall id <- b.states :: ComponentSettled(a, b, id)
  {
    var fa := (id: ComponentId, s: ComponentState) => ApplyToComponent(a.deltas, id, s);
    var fb := (id: ComponentId, s: ComponentState) => ApplyToComponent(b.deltas, id, s);
    var fab := (id: ComponentId, s: ComponentState) => ApplyToComponent(MergeDeltas(a.deltas, b.deltas), id, s);
    forall id, s ensures fab(id, s) == fb(id, fa(id, s)) { DeltasFuse(a.deltas, b.deltas, id, s); }
    ConsumedTwiceIff(t.states, a.removed.Keys, b.removed.Keys, a.states, b.states, fa, fb, fab);
    assert ((a.removed - b.states.Keys) + b.removed).Keys == (a.removed.Keys - b.states.Keys) + b.removed.Keys;
    forall id | id in b.states
      ensures ComponentSettled(a, b, id) <==> fb(id, fa(id, b.states[id])) == fb(id, b.states[id])
    {
      ComponentSettledIff(a, b, id);
    }
  }

  lemma AccountsFuseIff(t: Tracked, a: Message, b: Message)
    requires KeyedDeltas(a.deltas) && KeyedDeltas(b.deltas)
    ensures Consume(t, MergeMessages(a, b)).accounts == Consume(Consume(t, a), b).accounts
      <==> forall address <- b.accounts :: AccountSettled(a, b, address)
  {
    var fa := (address: Address, s: Account) => ApplyToAccount(a.deltas, address, s);
    var fb := (address: Address, s: Account) => ApplyToAccount(b.deltas, address, s);
    var fab := (address: Address, s: Account) => ApplyToAccount(MergeDeltas(a.deltas, b.deltas), address, s);
    forall address, s ensures fab(address, s) == fb(address, fa(address, s)) {
      AccountDeltasFuse(a.deltas, b.deltas, address, s);
    }
    ConsumedTwiceIff(t.accounts, {}, {}, a.accounts, b.accounts, fa, fb, fab);
    assert ({} - b.accounts.Keys) + {} == {} && a.accounts - {} == a.accounts;
    forall address | address in b.accounts
      ensures AccountSettled(a, b, address)
        <==> fb(address, fa(address, b.accounts[address])) == fb(address, b.accounts[address])
    {
      AccountSettledIff(a, b, address);
    }
  }

  /**
  Consuming the merge of two messages is consuming one after the other exactly when no delta of the older
  message shows through a snapshot of the newer one: the merge puts the snapshot in first and applies the
  older delta to it again.
  */
  lemma MergeFusesIff(t: Tracked, a: Message, b: Message)
    requires KeyedDeltas(a.deltas) && KeyedDeltas(b.deltas)
    ensures Consume(t, MergeMessages(a, b)) == Consume(Consume(t, a), b) <==> Settled(a, b)
  {
    StatesFuseIff(t, a, b);
    AccountsFuseIff(t, a, b);
  }

  // ------------------------------------------------------------------ whole catch-ups

  lemma MergedKeyed(a: Option<ModelBlock>, b: Option<ModelBlock>)
    requires KeyedDeltas(a) && KeyedDeltas(b)
    ensures KeyedDeltas(MergeDeltas(a, b))
  {}

  lemma MergedTouches(a: Option<ModelBlock>, b: Option<ModelBlock>)
    ensures forall id :: Touches(MergeDeltas(a, b), id) <==> Touches(a, id) || Touches(b, id)
    ensures forall address ::
      TouchesAccount(MergeDeltas(a, b), address) <==> TouchesAccount(a, address) || TouchesAccount(b, address)
  {}

  /** The older deltas are about nothing that the newer message has a snapshot of. */
  ghost predicate Untouched(older: Option<ModelBlock>, newer: Message) {
    && (forall id <- newer.states :: !Touches(older, id))
    && (forall address <- newer.accounts :: !TouchesAccount(older, address))
  }

  lemma UntouchedIsSettled(a: Message, b: Message)
    requires Untouched(a.deltas, b)
    ensures Settled(a, b)
  {
    forall id | id in b.states ensures ComponentSettled(a, b, id) {
      NoDeltaNoChange(a.deltas, id, b.states[id]);
      ComponentSettledIff(a, b, id);
    }
    forall address | address in b.accounts ensures AccountSettled(a, b, address) {
      NoAccountDeltaNoChange(a.deltas, address, b.accounts[address]);
      AccountSettledIff(a, b, address);
    }
  }

  function ConsumeAll(t: Tracked, messages: seq<Message>): Tracked {
    if messages == [] then t else Consume(ConsumeAll(t, messages[..|messages| - 1]), messages[|messages| - 1])
  }

  /** No message has deltas for what a later one has a snapshot of. */
  ghost predicate Orderly(messages: seq<Message>) {
    forall i, j | 0 <= i < j < |messages| :: Untouched(messages[i].deltas, messages[j])
  }

  lemma {:induction false} ReducedIs(messages: seq<Message>, newer: Message)
    requires messages != [] && forall m <- messages :: KeyedDeltas(m.deltas)
    requires forall m <- messages :: Untouched(m.deltas, newer)
    ensures var merged := Reduce(messages, MergeMessages); KeyedDeltas(merged.deltas) && Untouched(merged.deltas, newer)
  {
    var init, last := messages[..|messages| - 1], messages[|messages| - 1];
    assert last in messages;
    if |messages| == 1 {
    } else {
      ReducedIs(init, newer);
      MergedKeyed(Reduce(init, MergeMessages).deltas, last.deltas);
      MergedTouches(Reduce(init, MergeMessages).deltas, last.deltas);
    }
  }

  /** A catch-up in which no delta is older than a snapshot of the same thing loses and invents nothing. */
  lemma {:induction false} CatchUpMeansItsMessages(t: Tracked, messages: seq<Message>)
    requires messages != [] && Orderly(messages) && forall m <- messages :: KeyedDeltas(m.deltas)
    ensures Consume(t, Reduce(messages, MergeMessages)) == ConsumeAll(t, messages)
  {
    var init, last := messages[..|messages| - 1], messages[|messages| - 1];
    if |messages| == 1 {
      assert ConsumeAll(t, init) == t;
    } else {
      CatchUpMeansItsMessages(t, init);
      assert last in messages;
      forall m | m in init ensures Untouched(m.deltas, last) {
        var i :| 0 <= i < |init| && init[i] == m;
        assert messages[i] == m;
      }
      ReducedIs(init, last);
      UntouchedIsSettled(Reduce(init, MergeMessages), last);
      MergeFusesIff(t, Reduce(init, MergeMessages), last);
    }
  }

  const NOTHING := ModelBlock(Block(2, ""), false, map[], map[], map[], map[], map[], map[], map[])
  const OLDER := NOTHING.(stateDeltas := map["c" := ModelStateDelta("c", map["x" := "1"], {}, {})])

  /** Component c is changed, then tracked no more, then tracked again with a newer value. */
  const CHANGED := Message(map[], map[], Some(OLDER), map[])
  const DROPPED := Message(map[], map[], Some(NOTHING), map["c" := ""])
  const RETRACKED := Message(map["c" := ComponentState(map["x" := "2"], map[])], map[], Some(NOTHING), map[])

  lemma OlderMerged()
    ensures MergeMessages(MergeMessages(CHANGED, DROPPED), RETRACKED).states == RETRACKED.states
    ensures MergeMessages(MergeMessages(CHANGED, DROPPED), RETRACKED).deltas.value.stateDeltas == OLDER.stateDeltas
  {
    var once := MergeDeltas(CHANGED.deltas, DROPPED.deltas);
    assert once.value.stateDeltas == OLDER.stateDeltas;
    assert MergeDeltas(once, RETRACKED.deltas).value.stateDeltas == OLDER.stateDeltas;
  }

  lemma SnapshotTaken(t: Tracked, m: Message)
    requires "c" in m.states
    ensures "c" in Consume(t, m).states && Consume(t, m).states["c"] == ApplyToComponent(m.deltas, "c", m.states["c"])
  {}

  lemma ChangedSnapshot(deltas: Option<ModelBlock>)
    requires deltas.Some?
    ensures deltas.value.stateDeltas == OLDER.stateDeltas ==>
      ApplyToComponent(deltas, "c", RETRACKED.states["c"]).attributes == map["x" := "1"]
    ensures deltas.value.stateDeltas == map[] ==>
      ApplyToComponent(deltas, "c", RETRACKED.states["c"]).attributes == map["x" := "2"]
  {
    assert map["x" := "2"] + map["x" := "1"] - {} == map["x" := "1"];
    assert map["x" := "2"] + map[] - {} == map["x" := "2"];
  }

  /** One by one the new value stands; merged, the old change is made to the new snapshot. */
  lemma OldChangeShowsThroughNewSnapshot(t: Tracked)
    ensures "c" in Consume(Consume(Consume(t, CHANGED), DROPPED), RETRACKED).states
    ensures Consume(Consume(Consume(t, CHANGED), DROPPED), RETRACKED).states["c"].attributes == map["x" := "2"]
    ensures var merged := MergeMessages(MergeMessages(CHANGED, DROPPED), RETRACKED);
            "c" in Consume(t, merged).states && Consume(t, merged).states["c"].attributes == map["x" := "1"]
  {
    var merged := MergeMessages(MergeMessages(CHANGED, DROPPED), RETRACKED);
    OlderMerged();
    SnapshotTaken(Consume(Consume(t, CHANGED), DROPPED), RETRACKED);
    SnapshotTaken(t, merged);
    ChangedSnapshot(RETRACKED.deltas);
    ChangedSnapshot(merged.deltas);
  }

  /** What a consumer has after a message: snapshots replace, removals take out, and only then deltas are applied. */
  lemma ConsumeMeans(t: Tracked, m: Message, id: ComponentId, address: Address)
    ensures var next := Consume(t, m);
            && (id in next.states <==> id in m.states || (id in t.states && id !in m.removed))
            && (id in m.states ==> next.states[id] == ApplyToComponent(m.deltas, id, m.states[id]))
            && (id in next.states && id !in m.states ==>
                  next.states[id] == ApplyToComponent(m.deltas, id, t.states[id]))
            && (address in next.accounts <==> address in m.accounts || address in t.accounts)
            && (address in m.accounts ==>
                  next.accounts[address] == ApplyToAccount(m.deltas, address, m.accounts[address]))
            && (address in next.accounts && address !in m.accounts ==>
                  next.accounts[address] == ApplyToAccount(m.deltas, address, t.accounts[address]))
  {}

  lemma WireAttributes(m: BlockChanges, id: ComponentId, attributes: map<string, Bytes>)
    ensures ApplyState(attributes, StateOf(Some(FromWire(m)), id))
         == if id in m.stateUpdates then ApplyState(attributes, m.stateUpdates[id]) else attributes
  {
    if id in m.stateUpdates {
      assert StateOf(Some(FromWire(m)), id) == m.stateUpdates[id];
    } else {
      assert attributes + map[] - {} == attributes;
    }
  }

  lemma WireBalances(m: BlockChanges, id: ComponentId, balances: map<Token, Balance>)
    ensures ApplyBalances(balances, BalancesOf(Some(FromWire(m)), id))
         == if id in m.componentBalances then ApplyBalances(balances, m.componentBalances[id]) else balances
  {
    assert balances + map[] == balances;
  }

  lemma DeltasOnly(t: Tracked, deltas: Option<ModelBlock>, id: ComponentId, address: Address)
    requires id in t.states && address in t.accounts
    ensures var next := Consume(t, Message(map[], map[], deltas, map[]));
            && next.states.Keys == t.states.Keys && next.accounts.Keys == t.accounts.Keys
            && next.states[id] == ApplyToComponent(deltas, id, t.states[id])
            && next.accounts[address] == ApplyToAccount(deltas, address, t.accounts[address])
  {}

  lemma WireAccount(m: BlockChanges, address: Address, a: Account)
    ensures ApplyToAccount(Some(FromWire(m)), address, a)
         == if address in m.accountUpdates then ApplyAccount(a, m.accountUpdates[address]) else a
  {
    if address in m.accountUpdates {
      WireRoundTrip(m.accountUpdates[address], StateDelta("", map[], {}));
      assert AccountOf(Some(FromWire(m)), address) == m.accountUpdates[address];
    } else {
      NoAccountDeltaNoChange(Some(FromWire(m)), address, a);
    }
  }

  /** A message with nothing but deltas off the wire does to a consumer what the wire message means. */
  lemma ConsumeAppliesWire(t: Tracked, m: BlockChanges, id: ComponentId, address: Address)
    requires id in t.states && address in t.accounts
    ensures var next := Consume(t, Message(map[], map[], Some(FromWire(m)), map[]));
            var s, a := t.states[id], t.accounts[address];
            && next.states.Keys == t.states.Keys && next.accounts.Keys == t.accounts.Keys
            && next.states[id].attributes
               == (if id in m.stateUpdates then ApplyState(s.attributes, m.stateUpdates[id]) else s.attributes)
            && next.states[id].balances
               == (if id in m.componentBalances then ApplyBalances(s.balances, m.componentBalances[id]) else s.balances)
            && next.accounts[address]
               == if address in m.accountUpdates then ApplyAccount(a, m.accountUpdates[address]) else a
  {
    WireAttributes(m, id, t.states[id].attributes);
    WireBalances(m, id, t.states[id].balances);
    WireAccount(m, address, t.accounts[address]);
    DeltasOnly(t, Some(FromWire(m)), id, address);
  }

  /** A merged message removes what the newer does, and what the older does unless the newer has a snapshot of it. */
  lemma MergedRemovals(a: Message, b: Message, id: ComponentId)
    ensures var removed := MergeMessages(a, b).removed;
            && (id in removed <==> id in b.removed || (id in a.removed && id !in b.states))
            && (id in b.removed ==> removed[id] == b.removed[id])
            && (id in removed && id !in b.removed ==> removed[id] == a.removed[id])
  {}
}
