/**
What sequences of block messages say about each single place of a snapshot: whoever speaks of it last is heard,
however the messages are applied or merged.
*/
module MessageMeaning {
  import opened DeltaAlgebra
  import opened Wrappers

  /** What one message says about one place. */
  datatype Word<V> = Silent | Gone | Says(value: V)

  function Heard<V>(was: Option<V>, word: Word<V>): Option<V> {
    match word
    case Silent => was
    case Gone => None
    case Says(v) => Some(v)
  }

  function Look<K, V>(m: map<K, V>, k: K): Option<V> {
    if k in m then Some(m[k]) else None
  }

  function Entry<K, V>(m: map<K, V>, k: K): Word<V> {
    if k in m then Says(m[k]) else Silent
  }

  function Look2<J, K, V>(m: map<J, map<K, V>>, j: J, k: K): Option<V> {
    if j in m then Look(m[j], k) else None
  }

  function Entry2<J, K, V>(m: map<J, map<K, V>>, j: J, k: K): Word<V> {
    if j in m then Entry(m[j], k) else Silent
  }

  // ------------------------------------------------------------------ the places of a snapshot

  datatype Place =
    | Attribute(id: ComponentId, name: string)
    | ComponentBalance(id: ComponentId, token: Token)
    | ComponentTvl(id: ComponentId)
    | Slot(address: Address, slot: Bytes)
    | NativeBalance(address: Address)
    | Code(address: Address)
    | TokenBalance(address: Address, token: Token)

  /** The consumer keeps this place. */
  predicate Keeps(s: Snapshot, p: Place) {
    match p
    case Attribute(id, _) => id in s.attributes
    case ComponentBalance(id, _) => id in s.balances
    case ComponentTvl(_) => true
    case Slot(a, _) => a in s.accounts
    case NativeBalance(a) => a in s.accounts
    case Code(a) => a in s.accounts
    case TokenBalance(a, _) => a in s.accountBalances
  }

  function At(s: Snapshot, p: Place): Option<string>
    requires Keeps(s, p)
  {
    match p
    case Attribute(id, name) => Look(s.attributes[id], name)
    case ComponentBalance(id, token) => Look(s.balances[id], token)
    case ComponentTvl(id) => Look(s.tvl, id)
    case Slot(a, slot) => Look(s.accounts[a].slots, slot)
    case NativeBalance(a) => Some(s.accounts[a].balance)
    case Code(a) => Some(s.accounts[a].code)
    case TokenBalance(a, token) => Look(s.accountBalances[a], token)
  }

  function Field(f: Option<Bytes>): Word<string> {
    if f.Some? then Says(f.value) else Silent
  }

  function WordOf(m: BlockChanges, p: Place): Word<string> {
    match p
    case Attribute(id, name) =>
      if id !in m.stateUpdates then Silent
      else if name in m.stateUpdates[id].deleted then Gone
      else Entry(m.stateUpdates[id].updated, name)
    case ComponentBalance(id, token) => Entry2(m.componentBalances, id, token)
    case ComponentTvl(id) => Entry(m.componentTvl, id)
    case Slot(a, slot) => if a in m.accountUpdates then Entry(m.accountUpdates[a].slots, slot) else Silent
    case NativeBalance(a) => if a in m.accountUpdates then Field(m.accountUpdates[a].balance) else Silent
    case Code(a) => if a in m.accountUpdates then Field(m.accountUpdates[a].code) else Silent
    case TokenBalance(a, token) => Entry2(m.accountBalances, a, token)
  }

  function LastWordOn(messages: seq<BlockChanges>, p: Place): Word<string> {
    if messages == [] then Silent
    else
      var last := WordOf(messages[|messages| - 1], p);
      if last.Silent? then LastWordOn(messages[..|messages| - 1], p) else last
  }

  /** Whatever a consumer has, a merged message says what the newer part says, or else what the older does. */
  lemma MergedWord(a: BlockChanges, b: BlockChanges, p: Place)
    ensures WordOf(Merge(a, b), p) == if WordOf(b, p).Silent? then WordOf(a, p) else WordOf(b, p)
  {}

  lemma WordIsHeard(s: Snapshot, m: BlockChanges, p: Place)
    ensures Keeps(Apply(s, m), p) <==> Keeps(s, p)
    ensures Keeps(s, p) ==> At(Apply(s, m), p) == Heard(At(s, p), WordOf(m, p))
  {}

  /**
  After any sequence of messages every place a consumer keeps holds what the last message that speaks of it
  says, and what it held before if none does; and no place comes or goes.
  */
  lemma {:induction false} LastWordIsHeard(s: Snapshot, messages: seq<BlockChanges>, p: Place)
    ensures Keeps(ApplyAll(s, messages), p) <==> Keeps(s, p)
    ensures Keeps(s, p) ==> At(ApplyAll(s, messages), p) == Heard(At(s, p), LastWordOn(messages, p))
  {
    if messages == [] {
    } else {
      var init, last := messages[..|messages| - 1], messages[|messages| - 1];
      LastWordIsHeard(s, init, p);
      WordIsHeard(ApplyAll(s, init), last, p);
    }
  }

  /** A merged message says the last word of its parts about every place. */
  lemma MergeSaysLastWord(s: Snapshot, messages: seq<BlockChanges>, p: Place)
    requires messages != [] && Keeps(s, p)
    ensures Keeps(Apply(s, MergeAll(messages)), p)
    ensures At(Apply(s, MergeAll(messages)), p) == Heard(At(s, p), LastWordOn(messages, p))
  {
    FoldFusion(s, messages);
    LastWordIsHeard(s, messages, p);
  }

  // ------------------------------------------------------------------ what is not applied

  /** Components that either message reports as new or deleted are reported so, as the newer one has them. */
  lemma MergeReportsComponents(a: BlockChanges, b: BlockChanges, id: ComponentId)
    ensures var m := Merge(a, b);
            && Look(m.newComponents, id) == Heard(Look(a.newComponents, id), Entry(b.newComponents, id))
            && Look(m.deletedComponents, id) == Heard(Look(a.deletedComponents, id), Entry(b.deletedComponents, id))
  {}

  /** Many messages merged: block and revert flag are the last one's, what merging leaves alone the first one's. */
  lemma {:induction false} MergeAllHeads(messages: seq<BlockChanges>)
    requires messages != []
    ensures var m, first, last := MergeAll(messages), messages[0], messages[|messages| - 1];
            && m.block == last.block && m.revert == last.revert
            && m.extractor == first.extractor && m.chain == first.chain && m.newTokens == first.newTokens
            && m.finalizedBlockHeight == first.finalizedBlockHeight && m.dciUpdate == first.dciUpdate
            && m.partialBlockIndex == first.partialBlockIndex
  {
    if |messages| == 1 {
    } else {
      MergeAllHeads(messages[..|messages| - 1]);
    }
  }

  /** Many changes of an account merged: a creation if any of them is one, otherwise of the kind of the last. */
  lemma {:induction false} CreationWins(changes: seq<ChangeType>)
    requires changes != []
    ensures Reduce(changes, MergeChange) == if Creation in changes then Creation else changes[|changes| - 1]
  {
    if |changes| == 1 {
    } else {
      var init, last := changes[..|changes| - 1], changes[|changes| - 1];
      CreationWins(init);
      assert changes == init + [last];
    }
  }

  /** What a merged account update is for, and of which kind. */
  lemma MergedAccountHead(a: AccountUpdate, b: AccountUpdate)
    ensures var m := MergeAccount(a, b);
            m.address == a.address && m.chain == a.chain && m.change == MergeChange(a.change, b.change)
  {}
}
