/**
The algebra of deltas: what a delta means, how two of them are merged into one, and that merging keeps
the meaning. Keys and values that the algebra never looks into are plain strings.
*/
module DeltaAlgebra {
  import opened Wrappers

  type Bytes = string
  type Address = Bytes
  type Token = Bytes
  type ComponentId = string
  type Balance = string
  type Component = string
  type Tvl = string

  datatype ChangeType = Update | Deletion | Creation | Unspecified

  /** A change in the attributes of one protocol component. */
  datatype StateDelta = StateDelta(componentId: ComponentId, updated: map<string, Bytes>, deleted: set<string>)

  /** A change of one account; absent fields are unchanged. */
  datatype AccountUpdate = AccountUpdate(
    address: Address,
    chain: string,
    slots: map<Bytes, Bytes>,
    balance: Option<Bytes>,
    code: Option<Bytes>,
    change: ChangeType)

  datatype Block = Block(number: nat, hash: string)

  /** Everything one extractor reports about one block. */
  datatype BlockChanges = BlockChanges(
    extractor: string,
    chain: string,
    block: Block,
    finalizedBlockHeight: nat,
    revert: bool,
    newTokens: map<Token, string>,
    accountUpdates: map<Address, AccountUpdate>,
    stateUpdates: map<ComponentId, StateDelta>,
    newComponents: map<ComponentId, Component>,
    deletedComponents: map<ComponentId, Component>,
    componentBalances: map<ComponentId, map<Token, Balance>>,
    accountBalances: map<Address, map<Token, Balance>>,
    componentTvl: map<ComponentId, Tvl>,
    dciUpdate: string,
    partialBlockIndex: Option<nat>)

  // ------------------------------------------------------------------ merging

  function MergeState(a: StateDelta, b: StateDelta): StateDelta {
    StateDelta(a.componentId,
               (a.updated - b.deleted) + b.updated,
               (a.deleted - b.updated.Keys) + b.deleted)
  }

  function MergeChange(a: ChangeType, b: ChangeType): ChangeType {
    if a.Creation? then Creation else b
  }

  function OrElse<T>(newer: Option<T>, older: Option<T>): Option<T> {
    if newer.Some? then newer else older
  }

  function MergeAccount(a: AccountUpdate, b: AccountUpdate): AccountUpdate {
    AccountUpdate(a.address, a.chain, a.slots + b.slots, OrElse(b.balance, a.balance), OrElse(b.code, a.code),
                  MergeChange(a.change, b.change))
  }

  function MergeBalances(a: map<Token, Balance>, b: map<Token, Balance>): map<Token, Balance> {
    a + b
  }

  /** Entry by entry: shared keys are merged, all others are taken over. */
  function MergeMaps<K, V>(a: map<K, V>, b: map<K, V>, merge: (V, V) -> V): map<K, V> {
    map k | k in a.Keys + b.Keys ::
      if k in a && k in b then merge(a[k], b[k]) else if k in a then a[k] else b[k]
  }

  function Merge(a: BlockChanges, b: BlockChanges): BlockChanges {
    a.(accountUpdates := MergeMaps(a.accountUpdates, b.accountUpdates, MergeAccount),
       stateUpdates := MergeMaps(a.stateUpdates, b.stateUpdates, MergeState),
       componentBalances := MergeMaps(a.componentBalances, b.componentBalances, MergeBalances),
       accountBalances := MergeMaps(a.accountBalances, b.accountBalances, MergeBalances),
       componentTvl := a.componentTvl + b.componentTvl,
       newComponents := a.newComponents + b.newComponents,
       deletedComponents := a.deletedComponents + b.deletedComponents,
       revert := b.revert,
       block := b.block)
  }

  // ------------------------------------------------------------------ meaning

  datatype Account = Account(slots: map<Bytes, Bytes>, balance: Bytes, code: Bytes)

  /** What a consumer keeps: components with attributes and balances, and contract accounts. */
  datatype Snapshot = Snapshot(
    attributes: map<ComponentId, map<string, Bytes>>,
    balances: map<ComponentId, map<Token, Balance>>,
    accounts: map<Address, Account>,
    accountBalances: map<Address, map<Token, Balance>>,
    tvl: map<ComponentId, Tvl>)

  /** Updates first, deletions second. */
  function ApplyState(attributes: map<string, Bytes>, d: StateDelta): map<string, Bytes> {
    (attributes + d.updated) - d.deleted
  }

  function ApplyAccount(a: Account, u: AccountUpdate): Account {
    Account(a.slots + u.slots,
            if u.balance.Some? then u.balance.value else a.balance,
            if u.code.Some? then u.code.value else a.code)
  }

  function ApplyBalances(held: map<Token, Balance>, b: map<Token, Balance>): map<Token, Balance> {
    held + b
  }

  /** A delta touches only what the consumer already has. */
  function ApplyMaps<K, S, V>(state: map<K, S>, deltas: map<K, V>, apply: (S, V) -> S): map<K, S> {
    map k | k in state :: if k in deltas then apply(state[k], deltas[k]) else state[k]
  }

  function Apply(s: Snapshot, m: BlockChanges): Snapshot {
    Snapshot(ApplyMaps(s.attributes, m.stateUpdates, ApplyState),
             ApplyMaps(s.balances, m.componentBalances, ApplyBalances),
             ApplyMaps(s.accounts, m.accountUpdates, ApplyAccount),
             ApplyMaps(s.accountBalances, m.accountBalances, ApplyBalances),
             s.tvl + m.componentTvl)
  }

  /** Two maps have the same entry, or none, at `k`. */
  ghost predicate AgreeAt<K, V>(m: map<K, V>, n: map<K, V>, k: K) {
    (k in m <==> k in n) && (k in m ==> m[k] == n[k])
  }

  lemma AgreeEverywhere<K(!new), V>(m: map<K, V>, n: map<K, V>)
    ensures m == n <==> forall k :: AgreeAt(m, n, k)
  {
    if forall k :: AgreeAt(m, n, k) {
      forall k ensures k in m <==> k in n { assert AgreeAt(m, n, k); }
      forall k | k in m ensures m[k] == n[k] { assert AgreeAt(m, n, k); }
    }
  }

  // ------------------------------------------------------------------ merging keeps the meaning

  lemma StateFusion(attributes: map<string, Bytes>, a: StateDelta, b: StateDelta)
    ensures ApplyState(attributes, MergeState(a, b)) == ApplyState(ApplyState(attributes, a), b)
  {}

  lemma AccountFusion(acc: Account, a: AccountUpdate, b: AccountUpdate)
    ensures ApplyAccount(acc, MergeAccount(a, b)) == ApplyAccount(ApplyAccount(acc, a), b)
  {}

  /** Applying a merge is applying twice. */
  ghost predicate Fuses<S(!new), V(!new)>(apply: (S, V) -> S, merge: (V, V) -> V) {
    forall s: S, v: V, w: V :: apply(s, merge(v, w)) == apply(apply(s, v), w)
  }

  lemma EntriesFuse()
    ensures Fuses(ApplyState, MergeState) && Fuses(ApplyAccount, MergeAccount) && Fuses(ApplyBalances, MergeBalances)
  {
    forall s, v, w ensures ApplyState(s, MergeState(v, w)) == ApplyState(ApplyState(s, v), w) {
      StateFusion(s, v, w);
    }
    forall s, v, w ensures ApplyAccount(s, MergeAccount(v, w)) == ApplyAccount(ApplyAccount(s, v), w) {
      AccountFusion(s, v, w);
    }
    forall s, v, w ensures ApplyBalances(s, MergeBalances(v, w)) == ApplyBalances(ApplyBalances(s, v), w) {
      assert s + (v + w) == s + v + w;
    }
  }

  lemma MapsFusion<K, S(!new), V(!new)>(
    state: map<K, S>, a: map<K, V>, b: map<K, V>, apply: (S, V) -> S, merge: (V, V) -> V)
    requires Fuses(apply, merge)
    ensures ApplyMaps(state, MergeMaps(a, b, merge), apply) == ApplyMaps(ApplyMaps(state, a, apply), b, apply)
  {}

  /** Applying the merge of two messages is applying one after the other. */
  lemma Fusion(s: Snapshot, a: BlockChanges, b: BlockChanges)
    ensures Apply(s, Merge(a, b)) == Apply(Apply(s, a), b)
  {
    EntriesFuse();
    MapsFusion(s.attributes, a.stateUpdates, b.stateUpdates, ApplyState, MergeState);
    MapsFusion(s.accounts, a.accountUpdates, b.accountUpdates, ApplyAccount, MergeAccount);
    MapsFusion(s.balances, a.componentBalances, b.componentBalances, ApplyBalances, MergeBalances);
    MapsFusion(s.accountBalances, a.accountBalances, b.accountBalances, ApplyBalances, MergeBalances);
    assert s.tvl + (a.componentTvl + b.componentTvl) == s.tvl + a.componentTvl + b.componentTvl;
  }

  function ApplyAll(s: Snapshot, messages: seq<BlockChanges>): Snapshot {
    if messages == [] then s else Apply(ApplyAll(s, messages[..|messages| - 1]), messages[|messages| - 1])
  }

  /** Reduces a sequence from the left. */
  function Reduce<T>(xs: seq<T>, merge: (T, T) -> T): T
    requires xs != []
  {
    if |xs| == 1 then xs[0] else merge(Reduce(xs[..|xs| - 1], merge), xs[|xs| - 1])
  }

  /** Merging from the left, as a consumer that is catching up does. */
  function MergeAll(messages: seq<BlockChanges>): BlockChanges
    requires messages != []
  {
    Reduce(messages, Merge)
  }

  /** A consumer that merged any number of messages ends up where one that applied each of them does. */
  lemma {:induction false} FoldFusion(s: Snapshot, messages: seq<BlockChanges>)
    requires messages != []
    ensures Apply(s, MergeAll(messages)) == ApplyAll(s, messages)
  {
    if |messages| == 1 {
      assert ApplyAll(s, messages[..0]) == s;
    } else {
      FoldFusion(s, messages[..|messages| - 1]);
      Fusion(s, MergeAll(messages[..|messages| - 1]), messages[|messages| - 1]);
    }
  }

  // ------------------------------------------------------------------ merging is associative

  lemma StateAssociative(a: StateDelta, b: StateDelta, c: StateDelta)
    ensures MergeState(MergeState(a, b), c) == MergeState(a, MergeState(b, c))
  {
    var l, r := MergeState(MergeState(a, b), c), MergeState(a, MergeState(b, c));
    assert l.updated == r.updated;
    assert l.deleted == r.deleted;
  }

  lemma AccountAssociative(a: AccountUpdate, b: AccountUpdate, c: AccountUpdate)
    ensures MergeAccount(MergeAccount(a, b), c) == MergeAccount(a, MergeAccount(b, c))
  {
    assert a.slots + b.slots + c.slots == a.slots + (b.slots + c.slots);
  }

  ghost predicate Associative<V(!new)>(merge: (V, V) -> V) {
    forall u: V, v: V, w: V :: merge(merge(u, v), w) == merge(u, merge(v, w))
  }

  lemma EntriesAssociative()
    ensures Associative(MergeState) && Associative(MergeAccount) && Associative(MergeBalances)
  {
    forall u, v, w ensures MergeState(MergeState(u, v), w) == MergeState(u, MergeState(v, w)) {
      StateAssociative(u, v, w);
    }
    forall u, v, w ensures MergeAccount(MergeAccount(u, v), w) == MergeAccount(u, MergeAccount(v, w)) {
      AccountAssociative(u, v, w);
    }
    forall u, v, w ensures MergeBalances(MergeBalances(u, v), w) == MergeBalances(u, MergeBalances(v, w)) {
      assert u + v + w == u + (v + w);
    }
  }

  lemma MapsAssociative<K, V(!new)>(a: map<K, V>, b: map<K, V>, c: map<K, V>, merge: (V, V) -> V)
    requires Associative(merge)
    ensures MergeMaps(MergeMaps(a, b, merge), c, merge) == MergeMaps(a, MergeMaps(b, c, merge), merge)
  {}

  lemma OverwriteAssociative<K, V>(a: map<K, V>, b: map<K, V>, c: map<K, V>)
    ensures a + b + c == a + (b + c)
  {}

  /** Merging is associative, field by field, without any condition on the messages. */
  lemma MergeAssociative(a: BlockChanges, b: BlockChanges, c: BlockChanges)
    ensures Merge(Merge(a, b), c) == Merge(a, Merge(b, c))
  {
    EntriesAssociative();
    MapsAssociative(a.accountUpdates, b.accountUpdates, c.accountUpdates, MergeAccount);
    MapsAssociative(a.stateUpdates, b.stateUpdates, c.stateUpdates, MergeState);
    MapsAssociative(a.componentBalances, b.componentBalances, c.componentBalances, MergeBalances);
    MapsAssociative(a.accountBalances, b.accountBalances, c.accountBalances, MergeBalances);
    OverwriteAssociative(a.componentTvl, b.componentTvl, c.componentTvl);
    OverwriteAssociative(a.newComponents, b.newComponents, c.newComponents);
    OverwriteAssociative(a.deletedComponents, b.deletedComponents, c.deletedComponents);
  }

  lemma MergesAssociate()
    ensures Associative(Merge)
  {
    forall a, b, c ensures Merge(Merge(a, b), c) == Merge(a, Merge(b, c)) { MergeAssociative(a, b, c); }
  }

  /** Any way of putting brackets around a sequence of messages. */
  datatype Grouping = One(message: BlockChanges) | Pair(first: Grouping, second: Grouping)

  function Flatten(g: Grouping): (messages: seq<BlockChanges>)
    ensures messages != []
  {
    match g
    case One(m) => [m]
    case Pair(l, r) => Flatten(l) + Flatten(r)
  }

  function MergeGrouped(g: Grouping): BlockChanges {
    match g
    case One(m) => m
    case Pair(l, r) => Merge(MergeGrouped(l), MergeGrouped(r))
  }

  lemma {:induction false} ReduceAppends<T(!new)>(first: seq<T>, second: seq<T>, merge: (T, T) -> T)
    requires first != [] && second != [] && Associative(merge)
    ensures Reduce(first + second, merge) == merge(Reduce(first, merge), Reduce(second, merge))
  {
    var all := first + second;
    if |second| == 1 {
      assert all[..|all| - 1] == first;
    } else {
      assert all[..|all| - 1] == first + second[..|second| - 1];
      ReduceAppends(first, second[..|second| - 1], merge);
    }
  }

  /** However the messages are grouped, the same message comes out. */
  lemma {:induction false} GroupingDoesNotMatter(g: Grouping)
    ensures MergeGrouped(g) == MergeAll(Flatten(g))
  {
    if g.Pair? {
      GroupingDoesNotMatter(g.first);
      GroupingDoesNotMatter(g.second);
      MergesAssociate();
      ReduceAppends(Flatten(g.first), Flatten(g.second), Merge);
    }
  }

  // ------------------------------------------------------------------ names set and deleted

  ghost predicate Disjoint(d: StateDelta) {
    d.updated.Keys !! d.deleted
  }

  /**
  A merge names nothing twice exactly when neither side does, except for what `a` names twice and `b`
  names once: there `b` decides.
  */
  lemma MergeDisjointIff(a: StateDelta, b: StateDelta)
    ensures Disjoint(MergeState(a, b)) <==>
      Disjoint(b) && a.updated.Keys * a.deleted <= b.updated.Keys + b.deleted
  {
    var m := MergeState(a, b);
    if Disjoint(m) {
      forall k | k in b.updated ensures k !in b.deleted { assert k in m.updated; }
      forall k | k in a.updated && k in a.deleted ensures k in b.updated.Keys + b.deleted {
        assert !(k in m.updated && k in m.deleted);
      }
    }
  }

  // ------------------------------------------------------------------ filtering

  function Retain<K, V>(m: map<K, V>, keep: K -> bool): map<K, V> {
    map k | k in m && keep(k) :: m[k]
  }

  function FilterByComponent(m: BlockChanges, keep: ComponentId -> bool): BlockChanges {
    m.(stateUpdates := Retain(m.stateUpdates, keep),
       componentBalances := Retain(m.componentBalances, keep),
       componentTvl := Retain(m.componentTvl, keep))
  }

  function FilterByContract(m: BlockChanges, keep: Address -> bool): BlockChanges {
    m.(accountUpdates := Retain(m.accountUpdates, keep),
       accountBalances := Retain(m.accountBalances, keep))
  }

  lemma RetainCommutes<K, V>(a: map<K, V>, b: map<K, V>, merge: (V, V) -> V, keep: K -> bool)
    ensures Retain(MergeMaps(a, b, merge), keep) == MergeMaps(Retain(a, keep), Retain(b, keep), merge)
  {}

  /** It does not matter whether messages are filtered before or after they are merged. */
  lemma FilterByComponentCommutes(a: BlockChanges, b: BlockChanges, keep: ComponentId -> bool)
    ensures FilterByComponent(Merge(a, b), keep) == Merge(FilterByComponent(a, keep), FilterByComponent(b, keep))
  {
    RetainCommutes(a.stateUpdates, b.stateUpdates, MergeState, keep);
    RetainCommutes(a.componentBalances, b.componentBalances, MergeBalances, keep);
    RetainOverwrite(a.componentTvl, b.componentTvl, keep);
  }

  lemma RetainOverwrite<K, V>(a: map<K, V>, b: map<K, V>, keep: K -> bool)
    ensures Retain(a + b, keep) == Retain(a, keep) + Retain(b, keep)
  {}

  lemma FilterByContractCommutes(a: BlockChanges, b: BlockChanges, keep: Address -> bool)
    ensures FilterByContract(Merge(a, b), keep) == Merge(FilterByContract(a, keep), FilterByContract(b, keep))
  {
    RetainCommutes(a.accountUpdates, b.accountUpdates, MergeAccount, keep);
    RetainCommutes(a.accountBalances, b.accountBalances, MergeBalances, keep);
  }

  /** A filtered message has exactly the entries that are to be kept, and everything the filter is not about. */
  lemma ComponentFilterKeeps(m: BlockChanges, keep: ComponentId -> bool, id: ComponentId)
    ensures var f := FilterByComponent(m, keep);
            && (if keep(id) then AgreeAt(f.stateUpdates, m.stateUpdates, id) else id !in f.stateUpdates)
            && (if keep(id) then AgreeAt(f.componentBalances, m.componentBalances, id) else id !in f.componentBalances)
            && (if keep(id) then AgreeAt(f.componentTvl, m.componentTvl, id) else id !in f.componentTvl)
            && f.(stateUpdates := m.stateUpdates, componentBalances := m.componentBalances,
                  componentTvl := m.componentTvl) == m
  {}

  lemma ContractFilterKeeps(m: BlockChanges, keep: Address -> bool, a: Address)
    ensures var f := FilterByContract(m, keep);
            && (if keep(a) then AgreeAt(f.accountUpdates, m.accountUpdates, a) else a !in f.accountUpdates)
            && (if keep(a) then AgreeAt(f.accountBalances, m.accountBalances, a) else a !in f.accountBalances)
            && f.(accountUpdates := m.accountUpdates, accountBalances := m.accountBalances) == m
  {}

  /** A consumer of filtered messages sees what a consumer of all of them sees, of the components it wants. */
  lemma ComponentFilterMeans(s: Snapshot, m: BlockChanges, keep: ComponentId -> bool, id: ComponentId)
    ensures var filtered, all := Apply(s, FilterByComponent(m, keep)), Apply(s, m);
            && AgreeAt(filtered.attributes, if keep(id) then all.attributes else s.attributes, id)
            && AgreeAt(filtered.balances, if keep(id) then all.balances else s.balances, id)
            && AgreeAt(filtered.tvl, if keep(id) then all.tvl else s.tvl, id)
            && filtered.accounts == all.accounts && filtered.accountBalances == all.accountBalances
  {
    ComponentFilterKeeps(m, keep, id);
  }

  lemma ContractFilterMeans(s: Snapshot, m: BlockChanges, keep: Address -> bool, a: Address)
    ensures var filtered, all := Apply(s, FilterByContract(m, keep)), Apply(s, m);
            && AgreeAt(filtered.accounts, if keep(a) then all.accounts else s.accounts, a)
            && AgreeAt(filtered.accountBalances, if keep(a) then all.accountBalances else s.accountBalances, a)
            && filtered.attributes == all.attributes && filtered.balances == all.balances && filtered.tvl == all.tvl
  {
    ContractFilterKeeps(m, keep, a);
  }
}
