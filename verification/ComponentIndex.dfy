/** The integration runner's cache of components, states and ids by protocol, and the choice of what to simulate. */
module ComponentIndex {
  import opened Sequences

  type Id = string
  type Protocol = string
  datatype Component = Component(protocol: Protocol, details: string)
  type SimState = string

  datatype UpdateType = OnChain | Rfq
  datatype SyncState = Ready | NotReady
  datatype Update = Update(kind: UpdateType, newPairs: map<Id, Component>, states: map<Id, SimState>,
                           removedPairs: map<Id, Component>, syncStates: map<Protocol, SyncState>)

  datatype Cache = Cache(components: map<Id, Component>, states: map<Id, SimState>, index: map<Protocol, set<Id>>)

  const EMPTY := Cache(map[], map[], map[])

  // ------------------------------------------------------------------ one update

  function IdsOf(index: map<Protocol, set<Id>>, p: Protocol): set<Id> {
    if p in index then index[p] else {}
  }

  function Under(pairs: map<Id, Component>, p: Protocol): set<Id> {
    set id <- pairs | pairs[id].protocol == p
  }

  function Protocols(pairs: map<Id, Component>): set<Protocol> {
    set id <- pairs :: pairs[id].protocol
  }

  /** The index with every pair entered under its protocol. */
  function Entered(index: map<Protocol, set<Id>>, pairs: map<Id, Component>): map<Protocol, set<Id>> {
    map p | p in index.Keys + Protocols(pairs) :: IdsOf(index, p) + Under(pairs, p)
  }

  /** The index with every pair taken out from under its protocol. */
  function Withdrawn(index: map<Protocol, set<Id>>, pairs: map<Id, Component>): map<Protocol, set<Id>> {
    map p | p in index :: index[p] - Under(pairs, p)
  }

  function After(c: Cache, u: Update): Cache {
    Cache(c.components + u.newPairs - u.removedPairs.Keys,
          c.states + u.states - u.removedPairs.Keys,
          Withdrawn(Entered(c.index, u.newPairs), u.removedPairs))
  }

  class TychoState {
    var states: map<Id, SimState>
    var components: map<Id, Component>
    var idsByProtocol: map<Protocol, set<Id>>

    constructor ()
      ensures View() == EMPTY
    {
      states, components, idsByProtocol := map[], map[], map[];
    }

    ghost function View(): Cache
      reads this
    {
      Cache(components, states, idsByProtocol)
    }

    /** Enters new pairs, then new states, then takes removed pairs out, each in whatever order they come. */
    method ApplyUpdate(u: Update)
      modifies this
      ensures View() == After(old(View()), u)
    {
      AddPairs(u.newPairs);
      AddStates(u.states);
      RemovePairs(u.removedPairs);
    }

    method AddPairs(pairs: map<Id, Component>)
      modifies `components, `idsByProtocol
      ensures components == old(components) + pairs
      ensures idsByProtocol == Entered(old(idsByProtocol), pairs)
    {
      var rest := pairs.Keys;
      ghost var start, done: map<Id, Component> := View(), map[];
      NoPairs(idsByProtocol);
      while rest != {}
        invariant rest <= pairs.Keys && Covers(done, pairs, rest)
        invariant HasEntered(start, done)
        decreases |rest|
      {
        var id :| id in rest;
        AddPair(id, pairs[id], start, done);
        rest := rest - {id};
        done := done[id := pairs[id]];
      }
      assert done == pairs;
    }

    ghost predicate HasEntered(start: Cache, done: map<Id, Component>)
      reads `components, `idsByProtocol
    {
      components == start.components + done && idsByProtocol == Entered(start.index, done)
    }

    method AddPair(id: Id, c: Component, ghost start: Cache, ghost done: map<Id, Component>)
      requires id !in done && HasEntered(start, done)
      modifies `components, `idsByProtocol
      ensures HasEntered(start, done[id := c])
    {
      EnterOne(start.index, done, id, c);
      UnionThenUpdate(start.components, done, id, c);
      components := components[id := c];
      if c.protocol !in idsByProtocol {
        idsByProtocol := idsByProtocol[c.protocol := {}];
      }
      idsByProtocol := idsByProtocol[c.protocol := idsByProtocol[c.protocol] + {id}];
    }

    method AddStates(newer: map<Id, SimState>)
      modifies `states
      ensures states == old(states) + newer
    {
      var rest := newer.Keys;
      while rest != {}
        invariant rest <= newer.Keys
        invariant states == old(states) + (newer - rest)
        decreases |rest|
      {
        var id :| id in rest;
        states := states[id := newer[id]];
        rest := rest - {id};
      }
      assert newer - rest == newer;
    }

    method RemovePairs(pairs: map<Id, Component>)
      modifies this
      ensures components == old(components) - pairs.Keys && states == old(states) - pairs.Keys
      ensures idsByProtocol == Withdrawn(old(idsByProtocol), pairs)
    {
      var rest := pairs.Keys;
      ghost var start, done: map<Id, Component> := View(), map[];
      NoPairs(idsByProtocol);
      while rest != {}
        invariant rest <= pairs.Keys && Covers(done, pairs, rest)
        invariant HasWithdrawn(start, done)
        decreases |rest|
      {
        var id :| id in rest;
        RemovePair(id, pairs[id], start, done);
        rest := rest - {id};
        done := done[id := pairs[id]];
      }
      assert done == pairs;
    }

    ghost predicate HasWithdrawn(start: Cache, done: map<Id, Component>)
      reads this
    {
      && components == start.components - done.Keys && states == start.states - done.Keys
      && idsByProtocol == Withdrawn(start.index, done)
    }

    method RemovePair(id: Id, c: Component, ghost start: Cache, ghost done: map<Id, Component>)
      requires id !in done && HasWithdrawn(start, done)
      modifies this
      ensures HasWithdrawn(start, done[id := c])
    {
      WithdrawOne(start.index, done, id, c);
      components := components - {id};
      states := states - {id};
      if c.protocol in idsByProtocol {
        idsByProtocol := idsByProtocol[c.protocol := idsByProtocol[c.protocol] - {id}];
      }
    }
  }

  /** `done` holds what `pairs` has outside `rest`. */
  ghost predicate Covers(done: map<Id, Component>, pairs: map<Id, Component>, rest: set<Id>) {
    && done.Keys == pairs.Keys - rest
    && forall id <- done :: id in pairs && done[id] == pairs[id]
  }

  lemma UnionThenUpdate<K, V>(m: map<K, V>, done: map<K, V>, k: K, v: V)
    ensures (m + done)[k := v] == m + done[k := v]
  {}

  /** Nothing entered and nothing withdrawn leave the index alone. */
  lemma NoPairs(index: map<Protocol, set<Id>>)
    ensures Entered(index, map[]) == index && Withdrawn(index, map[]) == index
  {
    forall p: Protocol ensures Under(map[], p) == {} {}
    assert Protocols(map[]) == {};
    assert Entered(index, map[]).Keys == index.Keys;
    forall p <- index ensures Entered(index, map[])[p] == index[p] && Withdrawn(index, map[])[p] == index[p] {}
  }

  lemma OneMoreUnder(pairs: map<Id, Component>, id: Id, c: Component, p: Protocol)
    requires id !in pairs
    ensures Under(pairs[id := c], p) == Under(pairs, p) + if p == c.protocol then {id} else {}
  {}

  lemma OneMoreProtocol(pairs: map<Id, Component>, id: Id, c: Component)
    requires id !in pairs
    ensures Protocols(pairs[id := c]) == Protocols(pairs) + {c.protocol}
  {
    var now := pairs[id := c];
    assert id in now && now[id].protocol == c.protocol;
    forall p | p in Protocols(pairs) ensures p in Protocols(now) {
      var other :| other in pairs && pairs[other].protocol == p;
      assert now[other].protocol == p;
    }
  }

  lemma EnterOne(index: map<Protocol, set<Id>>, pairs: map<Id, Component>, id: Id, c: Component)
    requires id !in pairs
    ensures var was := Entered(index, pairs);
      Entered(index, pairs[id := c]) == was[c.protocol := IdsOf(was, c.protocol) + {id}]
  {
    var p, was, next := c.protocol, Entered(index, pairs), Entered(index, pairs[id := c]);
    OneMoreProtocol(pairs, id, c);
    var expected := was[p := IdsOf(was, p) + {id}];
    assert next.Keys == expected.Keys;
    assert p !in Protocols(pairs) ==> Under(pairs, p) == {};
    forall q | q in next ensures next[q] == expected[q] {
      OneMoreUnder(pairs, id, c, q);
    }
  }

  lemma WithdrawOne(index: map<Protocol, set<Id>>, pairs: map<Id, Component>, id: Id, c: Component)
    requires id !in pairs
    ensures var p, was := c.protocol, Withdrawn(index, pairs);
      Withdrawn(index, pairs[id := c]) == if p in was then was[p := was[p] - {id}] else was
  {
    var p, was, next := c.protocol, Withdrawn(index, pairs), Withdrawn(index, pairs[id := c]);
    var expected := if p in was then was[p := was[p] - {id}] else was;
    assert next.Keys == expected.Keys;
    forall q | q in next ensures next[q] == expected[q] {
      OneMoreUnder(pairs, id, c, q);
    }
  }

  // ------------------------------------------------------------------ the index and the components

  ghost predicate ListedRight(c: Cache, p: Protocol, id: Id) {
    id in IdsOf(c.index, p) <==> id in c.components && c.components[id].protocol == p
  }

  /** Every component is listed under its own protocol and nowhere else, and nothing else is listed. */
  ghost predicate Indexed(c: Cache) {
    forall p, id :: ListedRight(c, p, id)
  }

  /** The update does not move this id: its old, new and removed protocols agree where they exist. */
  ghost predicate Steady(c: Cache, u: Update, id: Id) {
    if id in u.removedPairs then
      && (id in c.components ==> c.components[id].protocol == u.removedPairs[id].protocol)
      && (id in u.newPairs ==> u.newPairs[id].protocol == u.removedPairs[id].protocol)
    else
      id in u.newPairs && id in c.components ==> c.components[id].protocol == u.newPairs[id].protocol
  }

  lemma ListedAfter(c: Cache, u: Update, p: Protocol, id: Id)
    requires ListedRight(c, p, id)
    ensures id in IdsOf(After(c, u).index, p)
      <==> ((id in c.components && c.components[id].protocol == p) || id in Under(u.newPairs, p))
           && id !in Under(u.removedPairs, p)
  {}

  lemma SteadyIdStaysListed(c: Cache, u: Update, p: Protocol, id: Id)
    requires ListedRight(c, p, id) && Steady(c, u, id)
    ensures ListedRight(After(c, u), p, id)
  {
    ListedAfter(c, u, p, id);
  }

  /** A moved id is left listed under a protocol that is not, or no longer, its own. */
  lemma MovedIdIsMisplaced(c: Cache, u: Update, id: Id) returns (p: Protocol)
    requires Indexed(c) && !Steady(c, u, id)
    ensures !ListedRight(After(c, u), p, id)
  {
    if id in c.components && (id !in u.removedPairs || c.components[id].protocol != u.removedPairs[id].protocol) {
      p := c.components[id].protocol;
    } else {
      p := u.newPairs[id].protocol;
    }
    assert ListedRight(c, p, id);
    ListedAfter(c, u, p, id);
  }

  /** One update keeps index and components in step exactly when it moves no id between protocols. */
  lemma UpdateKeepsIndexIff(c: Cache, u: Update)
    requires Indexed(c)
    ensures Indexed(After(c, u)) <==> forall id :: Steady(c, u, id)
  {
    if id :| !Steady(c, u, id) {
      var p := MovedIdIsMisplaced(c, u, id);
    } else {
      forall p, id ensures ListedRight(After(c, u), p, id) {
        assert ListedRight(c, p, id);
        SteadyIdStaysListed(c, u, p, id);
      }
    }
  }

  function History(c: Cache, us: seq<Update>): Cache
    decreases |us|
  {
    if us == [] then c else After(History(c, us[..|us| - 1]), us[|us| - 1])
  }

  /** Each id always carries the same protocol system. */
  ghost predicate CarriesOne(us: seq<Update>, home: map<Id, Protocol>) {
    forall i | 0 <= i < |us| :: AtHome(us[i].newPairs, home) && AtHome(us[i].removedPairs, home)
  }

  ghost predicate AtHome(pairs: map<Id, Component>, home: map<Id, Protocol>) {
    forall id <- pairs :: id in home && home[id] == pairs[id].protocol
  }

  lemma {:induction false} HistoryIsIndexed(us: seq<Update>, home: map<Id, Protocol>)
    requires CarriesOne(us, home)
    ensures Indexed(History(EMPTY, us)) && AtHome(History(EMPTY, us).components, home)
  {
    if us == [] {
    } else {
      var init, last := us[..|us| - 1], us[|us| - 1];
      assert CarriesOne(init, home);
      HistoryIsIndexed(init, home);
      assert us[|us| - 1] == last;
      UpdateKeepsIndexIff(History(EMPTY, init), last);
    }
  }

  /**
   * After any updates in which each id carries one protocol, the listed ids are cut up by protocol exactly as the
   * components are.
   */
  lemma IndexPartitionsComponents(us: seq<Update>, home: map<Id, Protocol>)
    requires CarriesOne(us, home)
    ensures var c := History(EMPTY, us);
      && (forall p <- c.index :: c.index[p] == Under(c.components, p))
      && (forall p, q | p in c.index && q in c.index && p != q :: c.index[p] !! c.index[q])
      && c.components.Keys == set p, id | p in c.index && id in c.index[p] :: id
  {
    HistoryIsIndexed(us, home);
    var c := History(EMPTY, us);
    forall p | p in c.index ensures c.index[p] == Under(c.components, p) {
      forall id ensures id in c.index[p] <==> id in Under(c.components, p) {
        assert ListedRight(c, p, id);
      }
    }
    forall id | id in c.components
      ensures c.components[id].protocol in c.index && id in c.index[c.components[id].protocol]
    {
      assert ListedRight(c, c.components[id].protocol, id);
    }
  }

  /** Update `i` is the last that carries `id`, and neither it nor a later one removes it. */
  ghost predicate LastCarrier<V>(us: seq<Update>, carried: Update -> map<Id, V>, id: Id, i: nat) {
    && i < |us| && id in carried(us[i])
    && (forall j | i < j < |us| :: id !in carried(us[j]))
    && (forall j | i <= j < |us| :: id !in us[j].removedPairs)
  }

  /** An entry is kept exactly as long as no update removes it, with the value of the last update that carries it. */
  ghost predicate HeldAsCarried<V>(held: map<Id, V>, us: seq<Update>, carried: Update -> map<Id, V>, id: Id) {
    && (id in held <==> exists i: nat :: LastCarrier(us, carried, id, i))
    && (forall i: nat | LastCarrier(us, carried, id, i) :: id in held && held[id] == carried(us[i])[id])
  }

  lemma CarriedOneMore<V>(before: map<Id, V>, after: map<Id, V>, us: seq<Update>, u: Update,
                          carried: Update -> map<Id, V>, id: Id)
    requires HeldAsCarried(before, us, carried, id)
    requires after == before + carried(u) - u.removedPairs.Keys
    ensures HeldAsCarried(after, us + [u], carried, id)
  {
    var all := us + [u];
    forall i: nat | LastCarrier(all, carried, id, i) ensures id in after && after[id] == carried(all[i])[id] {
      assert all[|us|] == u;
      if i < |us| {
        assert LastCarrier(us, carried, id, i) by {
          assert forall j | i <= j < |us| :: all[j] == us[j];
        }
      }
    }
    if id in after {
      if id in carried(u) {
        assert LastCarrier(all, carried, id, |us|);
      } else {
        var i: nat :| LastCarrier(us, carried, id, i);
        assert LastCarrier(all, carried, id, i);
      }
    }
  }

  /**
  After any updates the cache has a state, and a component, for an id exactly when some update carried one and
  neither that update nor a later one removed it; it is the one of the last update that carried one.
  */
  lemma {:induction false} CacheHoldsWhatUpdatesCarried(us: seq<Update>, id: Id)
    ensures HeldAsCarried(History(EMPTY, us).states, us, (u: Update) => u.states, id)
    ensures HeldAsCarried(History(EMPTY, us).components, us, (u: Update) => u.newPairs, id)
  {
    if us == [] {
    } else {
      var init, last := us[..|us| - 1], us[|us| - 1];
      CacheHoldsWhatUpdatesCarried(init, id);
      var before := History(EMPTY, init);
      assert us == init + [last];
      CarriedOneMore(before.states, After(before, last).states, init, last, (u: Update) => u.states, id);
      CarriedOneMore(before.components, After(before, last).components, init, last, (u: Update) => u.newPairs, id);
    }
  }

  // ------------------------------------------------------------------ choosing what to simulate

  datatype Pick = Pick(id: Id, component: Component, state: SimState)

  function Ids(picks: seq<Pick>): (ids: seq<Id>)
    ensures |ids| == |picks| && forall i | 0 <= i < |ids| :: ids[i] == picks[i].id
  {
    seq(|picks|, i requires 0 <= i < |picks| => picks[i].id)
  }

  /** The members of `s` that are in `a`, in order and as often as they occur. */
  function Keep(s: seq<Id>, a: set<Id>): (r: seq<Id>)
    ensures |r| <= |s| && forall id :: id in r <==> id in s && id in a
  {
    if s == [] then [] else
      var last := s[|s| - 1];
      assert s == s[..|s| - 1] + [last];
      Keep(s[..|s| - 1], a) + if last in a then [last] else []
  }

  lemma {:induction false} KeepConcat(s: seq<Id>, t: seq<Id>, a: set<Id>)
    ensures Keep(s + t, a) == Keep(s, a) + Keep(t, a)
  {
    if t == [] {
      assert s + t == s;
    } else {
      assert (s + t)[..|s + t| - 1] == s + t[..|t| - 1];
      KeepConcat(s, t[..|t| - 1], a);
    }
  }

  lemma {:induction false} KeepTwice(s: seq<Id>, a: set<Id>, b: set<Id>)
    ensures Keep(Keep(s, a), b) == Keep(s, a * b)
  {
    if s == [] {
    } else {
      var init, last := s[..|s| - 1], s[|s| - 1];
      KeepTwice(init, a, b);
      var tail := if last in a then [last] else [];
      assert Keep(s, a) == Keep(init, a) + tail;
      KeepConcat(Keep(init, a), tail, b);
      assert Keep(tail, b) == if last in a * b then [last] else [];
    }
  }

  lemma DistinctConcat(s: seq<Id>, t: seq<Id>)
    requires forall id :: !(id in s && id in t)
    ensures Distinct(s + t) <==> Distinct(s) && Distinct(t)
  {
    var r := s + t;
    assert forall i | 0 <= i < |s| :: r[i] == s[i] && s[i] in s;
    assert forall i | 0 <= i < |t| :: r[|s| + i] == t[i] && t[i] in t;
    assert forall i | |s| <= i < |r| :: r[i] == t[i - |s|];
  }

  lemma {:induction false} KeepDistinct(s: seq<Id>, a: set<Id>)
    requires Distinct(s)
    ensures Distinct(Keep(s, a))
  {
    if s == [] {
    } else {
      var init, last := s[..|s| - 1], s[|s| - 1];
      KeepDistinct(init, a);
      assert last !in init;
      DistinctConcat(Keep(init, a), if last in a then [last] else []);
    }
  }

  /** Every pick is for a known component and carries the state it is to be simulated with. */
  ghost predicate Faithful(picks: seq<Pick>, known: map<Id, Component>, states: map<Id, SimState>) {
    forall i | 0 <= i < |picks| :: var id := picks[i].id;
      id in known && id in states && picks[i] == Pick(id, known[id], states[id])
  }

  /** `picks` are the known ones among `seen`, each once. */
  ghost predicate Took(picks: seq<Pick>, seen: set<Id>, known: map<Id, Component>, states: map<Id, SimState>) {
    && Distinct(Ids(picks)) && Faithful(picks, known, states)
    && forall id :: id in Ids(picks) <==> id in seen && id in known
  }

  lemma TookOneMore(picks: seq<Pick>, seen: set<Id>, known: map<Id, Component>, states: map<Id, SimState>, id: Id)
    requires Took(picks, seen, known, states) && id in states && id !in seen
    ensures id !in known ==> Took(picks, seen + {id}, known, states)
    ensures id in known ==> Took(picks + [Pick(id, known[id], states[id])], seen + {id}, known, states)
  {
    if id in known {
      assert Ids(picks + [Pick(id, known[id], states[id])]) == Ids(picks) + [id];
      DistinctConcat(Ids(picks), [id]);
    }
  }

  /** Looks at the first `max` updated ids, in whatever order they come, and picks those that are known. */
  method TakeUpdated(u: Update, known: map<Id, Component>, max: nat) returns (picks: seq<Pick>, ghost seen: set<Id>)
    ensures seen <= u.states.Keys && |seen| == Min(max, |u.states.Keys|)
    ensures |u.states.Keys| <= max ==> seen == u.states.Keys
    ensures Took(picks, seen, known, u.states) && |picks| <= max
  {
    picks, seen := [], {};
    var rest, taken := u.states.Keys, 0;
    while rest != {} && taken < max
      invariant seen + rest == u.states.Keys && seen !! rest
      invariant |seen| + |rest| == |u.states.Keys| && |picks| <= |seen| == taken <= max
      invariant Took(picks, seen, known, u.states)
    {
      var id :| id in rest;
      TookOneMore(picks, seen, known, u.states, id);
      if id in known {
        picks := picks + [Pick(id, known[id], u.states[id])];
      }
      seen, rest, taken := seen + {id}, rest - {id}, taken + 1;
    }
    assert |u.states.Keys| <= max ==> rest == {};
  }

  /** As many of the available ids as asked for, or all of them. */
  method ChooseMultiple(available: set<Id>, n: nat) returns (picked: seq<Id>)
    ensures |picked| == Min(n, |available|) && Distinct(picked)
    ensures forall id <- picked :: id in available
    ensures |available| <= n ==> forall id <- available :: id in picked
  {
    picked := [];
    var rest := available;
    while rest != {} && |picked| < n
      invariant rest <= available && |picked| + |rest| == |available| && |picked| <= n
      invariant Distinct(picked) && forall id :: id in picked <==> id in available - rest
    {
      var id :| id in rest;
      DistinctConcat(picked, [id]);
      picked, rest := picked + [id], rest - {id};
    }
  }

  predicate IsReady(p: Protocol, c: Cache, u: Update) {
    p in c.index && p in u.syncStates && u.syncStates[p] == Ready
  }

  function ReadyProtocols(c: Cache, u: Update): set<Protocol> {
    set p <- c.index | IsReady(p, c, u)
  }

  /** Ids the runner may be asked to test again although the update says nothing about them. */
  function Idle(c: Cache, u: Update): set<Id> {
    c.components.Keys - u.states.Keys
  }

  /** `some` are as many ids of a protocol as its quota allows, none of them updated and all of them selected. */
  ghost predicate FillsQuota(some: seq<Id>, ids: set<Id>, u: Update, selected: seq<Id>, maxStale: nat) {
    Distinct(some) && |some| == maxStale && forall id <- some :: id in ids && id !in u.states && id in selected
  }

  /** A protocol's quota is used up, or none of its ids that were not updated is left over. */
  ghost predicate Served(ids: set<Id>, u: Update, selected: seq<Id>, maxStale: nat) {
    || (forall id <- ids :: id in u.states || id in selected)
    || exists some :: FillsQuota(some, ids, u, selected, maxStale)
  }

  lemma ServedStays(ids: set<Id>, u: Update, selected: seq<Id>, more: seq<Id>, maxStale: nat)
    requires Served(ids, u, selected, maxStale)
    ensures Served(ids, u, selected + more, maxStale)
  {
    if some :| FillsQuota(some, ids, u, selected, maxStale) {
      assert FillsQuota(some, ids, u, selected + more, maxStale);
    }
  }

  /** Some ids of one protocol that were neither updated nor selected before. */
  method PickStale(ids: set<Id>, u: Update, selected: seq<Id>, maxStale: nat) returns (picked: seq<Id>)
    ensures Distinct(picked) && |picked| <= maxStale
    ensures forall id <- picked :: id in ids && id !in u.states && id !in selected
    ensures Served(ids, u, selected + picked, maxStale)
  {
    var available := set id <- ids | id !in u.states && id !in selected;
    picked := ChooseMultiple(available, maxStale);
    if |available| > maxStale {
      assert FillsQuota(picked, ids, u, selected + picked, maxStale);
    }
  }

  /** `stale` are fresh ids of protocols among `ps`, at most `maxStale` for each. */
  ghost predicate StaleOf(stale: seq<Id>, c: Cache, u: Update, first: seq<Id>, ps: set<Protocol>, maxStale: nat)
    requires ps <= c.index.Keys
  {
    && Distinct(stale) && |stale| <= maxStale * |ps|
    && (forall id <- stale :: id !in u.states && id !in first && exists p :: p in ps && id in c.index[p])
    && (forall p <- ps :: Served(c.index[p], u, first + stale, maxStale))
  }

  lemma StaleGrows(stale: seq<Id>, picked: seq<Id>, c: Cache, u: Update, first: seq<Id>, ps: set<Protocol>,
                   p: Protocol, maxStale: nat)
    requires ps <= c.index.Keys && p in c.index && p !in ps && StaleOf(stale, c, u, first, ps, maxStale)
    requires Distinct(picked) && |picked| <= maxStale
    requires forall id <- picked :: id in c.index[p] && id !in u.states && id !in first + stale
    requires Served(c.index[p], u, first + stale + picked, maxStale)
    ensures StaleOf(stale + picked, c, u, first, ps + {p}, maxStale)
  {
    DistinctConcat(stale, picked);
    assert maxStale * |ps + {p}| == maxStale * |ps| + maxStale;
    assert first + (stale + picked) == first + stale + picked;
    forall q | q in ps ensures Served(c.index[q], u, first + (stale + picked), maxStale) {
      ServedStays(c.index[q], u, first + stale, picked, maxStale);
    }
  }

  /** Picks for one more protocol; `stale` were picked for `served` before. */
  method Serve(p: Protocol, c: Cache, u: Update, selected: seq<Id>, maxStale: nat,
               ghost first: seq<Id>, ghost stale: seq<Id>, ghost served: set<Protocol>) returns (picked: seq<Id>)
    requires served <= c.index.Keys && p in c.index && p !in served
    requires selected == first + stale && StaleOf(stale, c, u, first, served, maxStale)
    ensures StaleOf(stale + picked, c, u, first, served + {p}, maxStale)
  {
    picked := PickStale(c.index[p], u, selected, maxStale);
    StaleGrows(stale, picked, c, u, first, served, p, maxStale);
  }

  /** The ids that are always tested, unless the update has them or their component is not there. */
  method SelectAlways(c: Cache, u: Update, always: seq<Id>) returns (selected: seq<Id>)
    ensures selected == Keep(always, Idle(c, u))
  {
    selected := [];
    for i := 0 to |always|
      invariant selected == Keep(always[..i], Idle(c, u))
    {
      assert always[..i + 1][..i] == always[..i];
      if always[i] !in u.states && always[i] in c.components {
        selected := selected + [always[i]];
      }
    }
    assert always[..|always|] == always;
  }

  /** Adds to the selection some ids of every protocol in sync, one protocol after the other. */
  method AddStale(c: Cache, u: Update, first: seq<Id>, maxStale: nat) returns (selected: seq<Id>)
    ensures first <= selected && StaleOf(selected[|first|..], c, u, first, ReadyProtocols(c, u), maxStale)
  {
    selected := first;
    ghost var stale: seq<Id>, served: set<Protocol> := [], {};
    var rest := c.index.Keys;
    while rest != {}
      invariant rest <= c.index.Keys && selected == first + stale
      invariant served <= c.index.Keys - rest && StaleOf(stale, c, u, first, served, maxStale)
      invariant forall p :: p in served <==> p !in rest && IsReady(p, c, u)
      decreases |rest|
    {
      var p :| p in rest;
      if p in u.syncStates && u.syncStates[p] == Ready {
        var picked := Serve(p, c, u, selected, maxStale, first, stale, served);
        selected, stale, served := selected + picked, stale + picked, served + {p};
      }
      rest := rest - {p};
    }
    assert served == ReadyProtocols(c, u) && selected[|first|..] == stale;
  }

  /** The ids to test again: those always tested first, then some of every protocol that is in sync. */
  method SelectStale(c: Cache, u: Update, always: seq<Id>, maxStale: nat) returns (selected: seq<Id>)
    ensures forall id <- selected :: id !in u.states
    ensures forall id <- selected | id !in always ::
      exists p :: p in u.syncStates && u.syncStates[p] == Ready && p in c.index && id in c.index[p]
    ensures var first := Keep(always, Idle(c, u));
      first <= selected && StaleOf(selected[|first|..], c, u, first, ReadyProtocols(c, u), maxStale)
  {
    selected := SelectAlways(c, u, always);
    selected := AddStale(c, u, selected, maxStale);
  }

  /** Pairs the ids with their components and states and passes over those that lack either. */
  method Resolve(ids: seq<Id>, c: Cache) returns (picks: seq<Pick>)
    ensures Ids(picks) == Keep(ids, c.components.Keys * c.states.Keys) && Faithful(picks, c.components, c.states)
  {
    picks := [];
    for i := 0 to |ids|
      invariant Ids(picks) == Keep(ids[..i], c.components.Keys * c.states.Keys)
      invariant Faithful(picks, c.components, c.states)
    {
      var id := ids[i];
      assert ids[..i + 1][..i] == ids[..i];
      ghost var before := picks;
      if id in c.components && id in c.states {
        picks := picks + [Pick(id, c.components[id], c.states[id])];
        assert Ids(picks) == Ids(before) + [id];
      }
    }
    assert ids[..|ids|] == ids;
  }

  lemma StaleIsNotUpdated(ids: seq<Id>, stale: seq<Id>, u: Update)
    requires forall id <- ids :: id in u.states
    requires forall id <- stale :: id !in u.states
    ensures Distinct(ids + stale) <==> Distinct(ids) && Distinct(stale)
  {
    DistinctConcat(ids, stale);
  }

  /** Always-tested ids that are there to be tested and were not updated. */
  function Due(always: seq<Id>, c: Cache, u: Update): seq<Id> {
    Keep(always, Idle(c, u) * c.states.Keys)
  }

  /** What is resolved of a selection: what is due, then the stale ids that have all they need. */
  lemma ResolvedSelection(c: Cache, u: Update, always: seq<Id>, stale: seq<Id>, maxStale: nat)
    requires StaleOf(stale, c, u, Keep(always, Idle(c, u)), ReadyProtocols(c, u), maxStale)
    ensures var known := c.components.Keys * c.states.Keys;
      var ids := Keep(Keep(always, Idle(c, u)) + stale, known);
      && ids == Due(always, c, u) + Keep(stale, known)
      && (forall id <- ids :: id !in u.states)
      && (Distinct(ids) <==> Distinct(Due(always, c, u)))
      && |ids| <= |always| + maxStale * |ReadyProtocols(c, u)|
  {
    var known := c.components.Keys * c.states.Keys;
    KeepConcat(Keep(always, Idle(c, u)), stale, known);
    KeepTwice(always, Idle(c, u), known);
    assert Idle(c, u) * known == Idle(c, u) * c.states.Keys;
    KeepDistinct(stale, known);
    DistinctConcat(Due(always, c, u), Keep(stale, known));
  }

  /** With index and components in step, no selected id lacks its component. */
  lemma SelectedIsCached(c: Cache, u: Update, always: seq<Id>, stale: seq<Id>, maxStale: nat, id: Id)
    requires Indexed(c) && StaleOf(stale, c, u, Keep(always, Idle(c, u)), ReadyProtocols(c, u), maxStale)
    requires id in Keep(always, Idle(c, u)) + stale
    ensures id in c.components
  {
    if id in stale {
      var p :| p in ReadyProtocols(c, u) && id in c.index[p];
      assert ListedRight(c, p, id);
    }
  }

  /** `selected` is what is always tested and, for every protocol in sync, ids up to its quota. */
  ghost predicate Selection(selected: seq<Id>, c: Cache, u: Update, always: seq<Id>, maxStale: nat) {
    var first := Keep(always, Idle(c, u));
    first <= selected && StaleOf(selected[|first|..], c, u, first, ReadyProtocols(c, u), maxStale)
  }

  /** The picks to test again, for protocols on chain. */
  method SelectAgain(c: Cache, u: Update, always: seq<Id>, maxStale: nat)
    returns (again: seq<Pick>, ghost selected: seq<Id>)
    ensures Selection(selected, c, u, always, maxStale)
    ensures Ids(again) == Keep(selected, c.components.Keys * c.states.Keys) && Faithful(again, c.components, c.states)
    ensures forall id <- Ids(again) :: id !in u.states
    ensures Due(always, c, u) <= Ids(again)
    ensures Distinct(Ids(again)) <==> Distinct(Due(always, c, u))
    ensures |again| <= |always| + maxStale * |ReadyProtocols(c, u)|
  {
    var ids := SelectStale(c, u, always, maxStale);
    again := Resolve(ids, c);
    selected := ids;
    ghost var first := Keep(always, Idle(c, u));
    assert ids == first + ids[|first|..];
    ResolvedSelection(c, u, always, ids[|first|..], maxStale);
  }

  /**
   * What to simulate after an update. Updated ids come first, with the update's states: the known ones among as
   * many as are looked at. Ids to test again follow, with the cached states; the list is the one part after the
   * other. No id comes twice exactly when the always-test list repeats no id that is due.
   */
  method SelectComponents(c: Cache, u: Update, always: seq<Id>, maxSimulations: nat, maxStale: nat)
    returns (updated: seq<Pick>, again: seq<Pick>, ghost seen: set<Id>, ghost selected: seq<Id>)
    ensures seen <= u.states.Keys && |seen| == Min(maxSimulations, |u.states.Keys|)
    ensures Took(updated, seen, if u.kind.OnChain? then c.components else u.newPairs, u.states)
    ensures u.kind.OnChain? ==>
      && Selection(selected, c, u, always, maxStale)
      && Ids(again) == Keep(selected, c.components.Keys * c.states.Keys) && Due(always, c, u) <= Ids(again)
    ensures Faithful(again, c.components, c.states)
    ensures Distinct(Ids(updated) + Ids(again)) <==> u.kind.Rfq? || Distinct(Due(always, c, u))
    ensures |updated| <= maxSimulations
    ensures |again| <= if u.kind.Rfq? then 0 else |always| + maxStale * |ReadyProtocols(c, u)|
  {
    updated, seen := TakeUpdated(u, if u.kind.OnChain? then c.components else u.newPairs, maxSimulations);
    again, selected := [], [];
    if u.kind.OnChain? {
      again, selected := SelectAgain(c, u, always, maxStale);
    }
    StaleIsNotUpdated(Ids(updated), Ids(again), u);
  }
}
