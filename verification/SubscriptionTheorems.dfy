/** What the subscription protocol promises about every run of a client. */
module SubscriptionTheorems {
  import Connection
  import opened Wrappers
  import opened Subscriptions
  import opened SubscriptionInvariant

  // ------------------------------------------------------------------ delivery

  /** An embedding of a whole sequence into one of the same length is the sequence itself. */
  lemma {:induction false} FullEmbeddingStep(part: seq<Message>, whole: seq<Message>, positions: seq<nat>, i: nat)
    requires Embeds(part, whole, positions) && i < |part|
    ensures i <= positions[i]
  {
    if i > 0 { FullEmbeddingStep(part, whole, positions, i - 1); }
  }

  lemma {:induction false} FullEmbeddingTight(part: seq<Message>, whole: seq<Message>, positions: seq<nat>, i: nat)
    requires Embeds(part, whole, positions) && |part| == |whole| && i < |part|
    ensures positions[i] <= i
    decreases |part| - i
  {
    if i + 1 < |part| { FullEmbeddingTight(part, whole, positions, i + 1); }
  }

  lemma ChannelGapFreeIff(ch: Channel, bufferSize: nat)
    requires ChannelOk(ch, bufferSize)
    ensures ch.Delivered() == ch.received <==> ch.refused == 0
  {
    if ch.refused == 0 {
      forall i: nat | i < |ch.received| ensures ch.Delivered()[i] == ch.received[i] {
        FullEmbeddingStep(ch.Delivered(), ch.received, ch.picks, i);
        FullEmbeddingTight(ch.Delivered(), ch.received, ch.picks, i);
      }
    }
  }

  ghost predicate GapFree(c: Client, id: Uuid) {
    && c.inner.Some? && id in c.inner.value.sender && c.inner.value.sender[id] < |c.channels|
    && var ch := c.channels[c.inner.value.sender[id]];
    && ch.id == id
    && ch.consumed + ch.lost + ch.buffered == ch.received
    && (ch.open ==> ch.consumed + ch.buffered == ch.received)
  }

  lemma ActiveGapFree(c: Client, id: Uuid)
    requires TablesOk(c.inner, c.channels) && ChannelsOk(c.channels, c.bufferSize) && ActiveOk(c.inner, c.channels)
    requires IsActive(c.inner, id)
    ensures GapFree(c, id)
  {
    var ch := c.channels[c.inner.value.sender[id]];
    ChannelGapFreeIff(ch, c.bufferSize);
    assert ch.open ==> ch.consumed + ch.buffered == ch.Delivered();
  }

  /** The next action brings a message of the server for channel `k`. */
  ghost predicate Addresses(c: Client, a: Action, k: nat) {
    && c.stalled.None? && c.inner.Some? && a.Handle? && a.message.Deltas?
    && a.message.id in c.inner.value.sender && c.inner.value.sender[a.message.id] == k
  }

  /** Every message of the server for channel `k` in the run, in order. */
  ghost function Addressed(bufferSize: nat, actions: seq<Action>, k: nat): seq<Message> {
    if actions == [] then []
    else
      var init, last := actions[..|actions| - 1], actions[|actions| - 1];
      Addressed(bufferSize, init, k)
      + if Addresses(Reached(bufferSize, init), last, k) then [last.message.msg] else []
  }

  lemma ReceivedDeltas(c: Client, id: Uuid, msg: Message, sent: bool, k: nat)
    requires SendersExist(c) && c.inner.Some? && k < |c.channels|
    ensures var next := HandleBlockChanges(c, id, msg, sent).0;
            && |next.channels| == |c.channels|
            && next.channels[k].received == c.channels[k].received
                 + if id in c.inner.value.sender && c.inner.value.sender[id] == k then [msg] else []
  {}

  lemma ReceivedStep(c: Client, a: Action, k: nat)
    requires SendersExist(c)
    ensures |c.channels| <= |Step(c, a).channels|
    ensures k < |c.channels| ==>
              Step(c, a).channels[k].received
              == c.channels[k].received + if Addresses(c, a, k) then [a.message.msg] else []
    ensures |c.channels| <= k < |Step(c, a).channels| ==> Step(c, a).channels[k].received == []
  {
    if c.stalled.None? && c.inner.Some? && a.Handle? && a.message.Deltas? && k < |c.channels| {
      ReceivedDeltas(c, a.message.id, a.message.msg, a.message.sent, k);
    }
  }

  /** The history of a channel is what the run addressed to it. */
  lemma {:induction false} ReceivedIsAddressed(bufferSize: nat, actions: seq<Action>, k: nat)
    ensures var c := Reached(bufferSize, actions);
            if k < |c.channels| then c.channels[k].received == Addressed(bufferSize, actions, k)
            else Addressed(bufferSize, actions, k) == []
  {
    if actions == [] {
    } else {
      var init, last := actions[..|actions| - 1], actions[|actions| - 1];
      ReceivedIsAddressed(bufferSize, init, k);
      ReceivedStep(Reached(bufferSize, init), last, k);
    }
  }

  /**
  While a subscription is active its consumer has seen, or will find in the buffer, exactly what the
  server sent since the activation.
  */
  lemma ActiveIsGapFree(bufferSize: nat, actions: seq<Action>, id: Uuid)
    requires IsActive(Reached(bufferSize, actions).inner, id)
    ensures GapFree(Reached(bufferSize, actions), id)
    ensures var c := Reached(bufferSize, actions);
            var k := c.inner.value.sender[id];
            && c.channels[k].consumed + c.channels[k].lost + c.channels[k].buffered == Addressed(bufferSize, actions, k)
            && (c.channels[k].open ==>
                  c.channels[k].consumed + c.channels[k].buffered == Addressed(bufferSize, actions, k))
  {
    var c := Reached(bufferSize, actions);
    ReachedOk(bufferSize, actions);
    ActiveGapFree(c, id);
    ReceivedIsAddressed(bufferSize, actions, c.inner.value.sender[id]);
  }

  lemma {:induction false} BufferSizeFixed(bufferSize: nat, actions: seq<Action>)
    ensures Reached(bufferSize, actions).bufferSize == bufferSize
  {
    if actions == [] {
    } else {
      BufferSizeFixed(bufferSize, actions[..|actions| - 1]);
    }
  }

  /**
  Whatever happens afterwards, what a consumer ever sees of an activation is part of what the server
  sent, in order and nothing twice, and the buffer never outgrows its size.
  */
  lemma DeliveryIsSubsequence(bufferSize: nat, actions: seq<Action>, k: nat)
    requires k < |Reached(bufferSize, actions).channels|
    ensures var ch := Reached(bufferSize, actions).channels[k];
            && (exists positions :: Embeds(ch.consumed + ch.buffered, Addressed(bufferSize, actions, k), positions))
            && |ch.buffered| <= bufferSize
  {
    ReceivedIsAddressed(bufferSize, actions, k);
    ReachedOk(bufferSize, actions);
    BufferSizeFixed(bufferSize, actions);
    var ch := Reached(bufferSize, actions).channels[k];
    var positions := ch.picks[..|ch.consumed|] + ch.picks[|ch.consumed| + |ch.lost|..];
    assert Embeds(ch.consumed + ch.buffered, ch.received, positions);
  }

  /** The next action offers channel `k` a message it cannot take. */
  ghost predicate TurnsAway(c: Client, a: Action, k: nat) {
    && c.stalled.None? && c.inner.Some? && a.Handle? && a.message.Deltas?
    && a.message.id in c.inner.value.sender && c.inner.value.sender[a.message.id] == k
    && k < |c.channels|
    && (!c.channels[k].open || |c.channels[k].buffered| >= c.bufferSize)
  }

  lemma RefusedDeltas(c: Client, id: Uuid, msg: Message, sent: bool, k: nat)
    requires SendersExist(c) && c.inner.Some?
    ensures var next := HandleBlockChanges(c, id, msg, sent).0;
            && |next.channels| == |c.channels|
            && (k < |c.channels| ==>
                  next.channels[k].refused == c.channels[k].refused
                    + (if id in c.inner.value.sender && c.inner.value.sender[id] == k
                          && (!c.channels[k].open || |c.channels[k].buffered| >= c.bufferSize) then 1 else 0))
  {}

  lemma RefusedStep(c: Client, a: Action, k: nat)
    requires SendersExist(c)
    ensures |c.channels| <= |Step(c, a).channels|
    ensures k < |c.channels| ==>
              Step(c, a).channels[k].refused == c.channels[k].refused + (if TurnsAway(c, a, k) then 1 else 0)
    ensures |c.channels| <= k < |Step(c, a).channels| ==> Step(c, a).channels[k].refused == 0
  {
    if c.stalled.None? && c.inner.Some? && a.Handle? && a.message.Deltas? {
      RefusedDeltas(c, a.message.id, a.message.msg, a.message.sent, k);
    }
  }

  /** No action of the run so far offered channel `k` a message it could not take. */
  ghost predicate NeverTurnedAway(bufferSize: nat, actions: seq<Action>, k: nat) {
    actions != [] ==>
      var init, last := actions[..|actions| - 1], actions[|actions| - 1];
      NeverTurnedAway(bufferSize, init, k) && !TurnsAway(Reached(bufferSize, init), last, k)
  }

  lemma {:induction false} RefusedIff(bufferSize: nat, actions: seq<Action>, k: nat)
    ensures k < |Reached(bufferSize, actions).channels| ==>
              (Reached(bufferSize, actions).channels[k].refused == 0 <==> NeverTurnedAway(bufferSize, actions, k))
    ensures k >= |Reached(bufferSize, actions).channels| ==> NeverTurnedAway(bufferSize, actions, k)
  {
    if actions == [] {
    } else {
      var init, last := actions[..|actions| - 1], actions[|actions| - 1];
      var c := Reached(bufferSize, init);
      ReachedOk(bufferSize, init);
      RefusedIff(bufferSize, init, k);
      RefusedStep(c, last, k);
    }
  }

  /**
  An activation loses a message exactly when, at some point of the run, a message came for it while
  its receiver was gone or its buffer full.
  */
  lemma GapFreeIff(bufferSize: nat, actions: seq<Action>, k: nat)
    requires k < |Reached(bufferSize, actions).channels|
    ensures var ch := Reached(bufferSize, actions).channels[k];
            ch.consumed + ch.lost + ch.buffered == Addressed(bufferSize, actions, k)
            <==> NeverTurnedAway(bufferSize, actions, k)
  {
    ReceivedIsAddressed(bufferSize, actions, k);
    ReachedOk(bufferSize, actions);
    RefusedIff(bufferSize, actions, k);
    ChannelGapFreeIff(Reached(bufferSize, actions).channels[k], Reached(bufferSize, actions).bufferSize);
  }

  /** A client with the one subscription 7 on its first connection. */
  function OneSubscription(info: SubscriptionInfo, requests: seq<Request>, replies: map<Token, Reply>,
                           waiting: set<Token>, channel: Channel, stalled: Option<Token>): Client
  {
    Client(1, 1, Some(Inner(map[], map[7 := info], map[7 := 0])), requests, replies, waiting, [channel], stalled)
  }

  const GAP_SETUP: seq<Action> := [Connect, DoSubscribe("vm:pool", true), Handle(NewSubscriptionMsg("vm:pool", 7))]
  const GAP_OPENED := Channel(7, 0, true, [], [], [], [], [], 0, 0)

  lemma GapSetup()
    ensures Reached(1, GAP_SETUP) ==
      OneSubscription(Active, [Subscribe("vm:pool", 1)], map[0 := Subscribed(0)], {}, GAP_OPENED, None)
  {
    var one, two := [Connect], [Connect, GAP_SETUP[1]];
    RunOne(1, [], Connect);
    RunOne(1, one, GAP_SETUP[1]);
    RunOne(1, two, GAP_SETUP[2]);
    assert [] + [Connect] == one && one + [GAP_SETUP[1]] == two && two + [GAP_SETUP[2]] == GAP_SETUP;
    var asked := RequestedSubscription(0);
    assert Reached(1, one) == Client(1, 1, Some(EMPTY), [], map[], {}, [], None);
    assert Reached(1, two) == Client(1, 1, Some(Inner(map["vm:pool" := asked], map[], map[])),
                                     [Subscribe("vm:pool", 1)], map[], {0}, [], None);
    assert map["vm:pool" := asked] - {"vm:pool"} == map[];
    assert {0} - {0} == {};
  }

  const GAP_ASKED := Subscribe("vm:pool", 1)
  const GAP_ENDED := Unsubscribe(7, 1, true)
  const GAP_FIRST := GAP_OPENED.(received := [10], picks := [0], buffered := [10])
  const GAP_REFUSED := GAP_FIRST.(received := [10, 11], refused := 1, forced := 1)
  const GAP_TAKEN := GAP_REFUSED.(consumed := [10], buffered := [])
  const GAP_LATER := GAP_TAKEN.(received := [10, 11, 12], picks := [0, 2], buffered := [12])

  function GapEnding(waiting: set<Token>, channel: Channel, stalled: Option<Token>): Client {
    OneSubscription(RequestedUnsubscription(1), [GAP_ASKED, GAP_ENDED], map[0 := Subscribed(0)],
                    waiting, channel, stalled)
  }

  lemma GapAccepted(c: Client)
    requires c == OneSubscription(Active, [GAP_ASKED], map[0 := Subscribed(0)], {}, GAP_OPENED, None)
    ensures Step(c, Handle(Deltas(7, 10, true))) == c.(channels := [GAP_FIRST])
  {
    assert [GAP_OPENED][0 := GAP_FIRST] == [GAP_FIRST];
    assert Offer(GAP_OPENED, 1, 10).0 == GAP_FIRST;
  }

  lemma GapRefused(c: Client)
    requires c == OneSubscription(Active, [GAP_ASKED], map[0 := Subscribed(0)], {}, GAP_FIRST, None)
    ensures Step(c, Handle(Deltas(7, 11, true))) == GapEnding({1}, GAP_REFUSED, Some(1))
  {
    var seen := Offer(GAP_FIRST, 1, 11).0;
    assert seen.(forced := 1) == GAP_REFUSED;
    assert [GAP_FIRST][0 := seen][0 := GAP_REFUSED] == [GAP_REFUSED];
    assert map[7 := Active][7 := RequestedUnsubscription(1)] == map[7 := RequestedUnsubscription(1)];
    assert [GAP_ASKED] + [GAP_ENDED] == [GAP_ASKED, GAP_ENDED];
  }

  lemma GapDelivered(c: Client)
    requires c == GapEnding({1}, GAP_REFUSED, Some(1))
    ensures Step(Step(Step(c, ForceTimeout), Consume(0)), Handle(Deltas(7, 12, true))) == GapEnding({}, GAP_LATER, None)
  {
    assert Take(GAP_REFUSED) == GAP_TAKEN;
    assert [GAP_REFUSED][0 := GAP_TAKEN] == [GAP_TAKEN];
    assert Step(Step(c, ForceTimeout), Consume(0)) == GapEnding({}, GAP_TAKEN, None);
    assert Offer(GAP_TAKEN, 1, 12).0 == GAP_LATER;
    assert [GAP_TAKEN][0 := GAP_LATER] == [GAP_LATER];
  }

  const GAP_RUN: seq<Action> :=
    [Handle(Deltas(7, 10, true)), Handle(Deltas(7, 11, true)), ForceTimeout, Consume(0), Handle(Deltas(7, 12, true))]

  /** After a message was turned away later ones can still reach the consumer: `[10, 12]` out of `[10, 11, 12]`. */
  lemma GapAfterRefusal()
    ensures var c := Reached(1, GAP_SETUP + GAP_RUN);
            && |c.channels| == 1
            && c.channels[0].received == [10, 11, 12]
            && c.channels[0].consumed + c.channels[0].buffered == [10, 12]
            && c.channels[0].forced == 1
  {
    GapSetup();
    GapAccepted(Reached(1, GAP_SETUP));
    GapRefused(Step(Reached(1, GAP_SETUP), GAP_RUN[0]));
    GapDelivered(GapEnding({1}, GAP_REFUSED, Some(1)));
    RunOne(1, GAP_SETUP, GAP_RUN[0]);
    RunOne(1, GAP_SETUP + [GAP_RUN[0]], GAP_RUN[1]);
    RunOne(1, GAP_SETUP + [GAP_RUN[0]] + [GAP_RUN[1]], GAP_RUN[2]);
    RunOne(1, GAP_SETUP + [GAP_RUN[0]] + [GAP_RUN[1]] + [GAP_RUN[2]], GAP_RUN[3]);
    RunOne(1, GAP_SETUP + [GAP_RUN[0]] + [GAP_RUN[1]] + [GAP_RUN[2]] + [GAP_RUN[3]], GAP_RUN[4]);
    assert GAP_SETUP + GAP_RUN
        == GAP_SETUP + [GAP_RUN[0]] + [GAP_RUN[1]] + [GAP_RUN[2]] + [GAP_RUN[3]] + [GAP_RUN[4]];
  }

  lemma RunOne(bufferSize: nat, actions: seq<Action>, a: Action)
    ensures Reached(bufferSize, actions + [a]) == Step(Reached(bufferSize, actions), a)
  {
    assert (actions + [a])[..|actions|] == actions;
  }

  // ------------------------------------------------------------------ unreachable branches

  /**
  The internal-inconsistency errors for tables that drifted apart, and the branches for an entry in the
  wrong state, are never taken: the error that stands for them comes from the socket alone.
  */
  lemma NoInternalFatal(bufferSize: nat, actions: seq<Action>, m: ServerMessage)
    requires Reached(bufferSize, actions).stalled.None?
    ensures var c := Reached(bufferSize, actions);
            && (HandleMsg(c, m).1.FatalError? <==> m.SocketOther?)
            && (HandleMsg(c, m).1.NotConnectedError? ==> c.inner.None?)
            && (c.inner.Some? ==>
                  && c.inner.value.subscriptions.Keys == c.inner.value.sender.Keys
                  && (forall e <- c.inner.value.pending :: c.inner.value.pending[e].RequestedSubscription?)
                  && (forall id <- c.inner.value.subscriptions ::
                        !c.inner.value.subscriptions[id].RequestedSubscription?))
  {
    ReachedOk(bufferSize, actions);
  }

  /** What the connect task makes of a handled message: it goes on, reconnects, or ends. */
  function Outcome(h: Handling): Connection.Event {
    match h
    case Handled => Connection.MessageHandled
    case ConnectionClosed => Connection.ConnectionLost
    case ConnectionError => Connection.ConnectionLost
    case NotConnectedError => Connection.FatalMessage
    case ServerFailure => Connection.FatalMessage
    case FatalError => Connection.FatalMessage
  }

  predicate EndsTask(m: ServerMessage) {
    m.ParseError? || m.CompressionError? || m.SocketOther?
  }

  predicate LosesConnection(m: ServerMessage) {
    m.CloseFrame? || m.SocketClosed? || m.SocketAlreadyClosed? || m.SocketIoOrProtocol?
  }

  /**
  On a connection, a message ends the connect task for good exactly when it is one of two errors of the
  server or an unknown failure of the socket, and makes it reconnect exactly when it says that the
  connection is gone.
  */
  lemma MessageEndsTaskIff(bufferSize: nat, actions: seq<Action>, m: ServerMessage,
                           t: Connection.Task, s: Connection.Shared)
    requires Reached(bufferSize, actions).stalled.None? && Reached(bufferSize, actions).inner.Some?
    requires t.pc.Receiving?
    ensures var outcome := Outcome(HandleMsg(Reached(bufferSize, actions), m).1);
            var next := Connection.TaskStep(t, s, outcome).0;
            && (outcome.FatalMessage? <==> EndsTask(m)) && (outcome.ConnectionLost? <==> LosesConnection(m))
            && (next.pc.Exiting? && next.result == Connection.Failed <==> EndsTask(m))
            && (next.pc.Clearing? && next.retries == t.retries + 1 <==> LosesConnection(m))
            && (next == t <==> !EndsTask(m) && !LosesConnection(m))
  {
    NoInternalFatal(bufferSize, actions, m);
  }

  /** The client itself asks for the end of an activation at most once. */
  lemma AtMostOneForcedEnd(bufferSize: nat, actions: seq<Action>, k: nat)
    requires k < |Reached(bufferSize, actions).channels|
    ensures Reached(bufferSize, actions).channels[k].forced <= 1
  {
    ReachedOk(bufferSize, actions);
    assert ChannelOk(Reached(bufferSize, actions).channels[k], Reached(bufferSize, actions).bufferSize);
  }

  // ------------------------------------------------------------------ replies

  /** The event that may answer token `t` with `reply` in state `c`. */
  ghost predicate Causes(c: Client, a: Action, t: Token, reply: Reply) {
    && c.stalled.None? && t < |c.requests| && t !in c.replies && c.inner.Some? && a.Handle?
    && c.requests[t].connection == c.connection
    && match reply {
         case Subscribed(k) =>
           && a.message.NewSubscriptionMsg? && t in c.waiting && k == |c.channels|
           && c.requests[t] == Subscribe(a.message.extractor, c.connection)
           && a.message.extractor in c.inner.value.pending
           && c.inner.value.pending[a.message.extractor] == RequestedSubscription(t)
         case Refused =>
           && (a.message.ExtractorNotFound? || a.message.SubscribeError?) && t in c.waiting
           && c.requests[t] == Subscribe(a.message.extractor, c.connection)
         case Unsubscribed(k) =>
           && (a.message.SubscriptionEnded? || a.message.SubscriptionNotFound?) && t in c.waiting
           && c.requests[t].Unsubscribe? && c.requests[t].id == a.message.id
           && a.message.id in c.inner.value.sender && c.inner.value.sender[a.message.id] == k
           && a.message.id in c.inner.value.subscriptions
           && c.inner.value.subscriptions[a.message.id] == RequestedUnsubscription(t)
         case Dropped => false
       }
  }

  /** From `c` to `next` no answer is taken back, and one that says something was caused by `a`. */
  ghost predicate AnswersOk(c: Client, a: Action, next: Client, t: Token) {
    && (t in c.replies ==> t in next.replies && next.replies[t] == c.replies[t])
    && (t !in c.replies && t in next.replies ==> next.replies[t].Dropped? || Causes(c, a, t, next.replies[t]))
  }

  lemma MarkActiveAnswers(c: Client, e: Extractor, id: Uuid, t: Token)
    requires TableInv(c) && c.inner.Some? && c.stalled.None?
    ensures AnswersOk(c, Handle(NewSubscriptionMsg(e, id)), MarkActive(c, e, id), t)
  {}

  lemma RemoveAnswers(c: Client, id: Uuid, t: Token)
    requires TableInv(c) && c.inner.Some? && c.stalled.None?
    ensures AnswersOk(c, Handle(SubscriptionEnded(id)), RemoveSubscription(c, id).0, t)
    ensures AnswersOk(c, Handle(SubscriptionNotFound(id)), RemoveSubscription(c, id).0, t)
  {}

  lemma CancelAnswers(c: Client, e: Extractor, t: Token)
    requires TableInv(c) && c.inner.Some? && c.stalled.None?
    ensures AnswersOk(c, Handle(ExtractorNotFound(e)), CancelPending(c, e), t)
    ensures AnswersOk(c, Handle(SubscribeError(e)), CancelPending(c, e), t)
  {}

  lemma DeltasAnswers(c: Client, id: Uuid, msg: Message, sent: bool, t: Token)
    requires HeldInv(c) && TableInv(c) && SendersExist(c) && c.inner.Some? && c.stalled.None?
    ensures AnswersOk(c, Handle(Deltas(id, msg, sent)), HandleBlockChanges(c, id, msg, sent).0, t)
  {}

  lemma HandleAnswers(c: Client, m: ServerMessage, t: Token)
    requires HeldInv(c) && TableInv(c) && SendersExist(c) && c.stalled.None?
    ensures AnswersOk(c, Handle(m), HandleMsg(c, m).0, t)
  {
    if c.inner.Some? {
      match m
      case Deltas(id, msg, sent) => DeltasAnswers(c, id, msg, sent, t);
      case NewSubscriptionMsg(e, id) => MarkActiveAnswers(c, e, id, t);
      case SubscriptionEnded(id) => RemoveAnswers(c, id, t);
      case ExtractorNotFound(e) => CancelAnswers(c, e, t);
      case SubscriptionNotFound(id) => RemoveAnswers(c, id, t);
      case SubscribeError(e) => CancelAnswers(c, e, t);
      case _ =>
    }
  }

  lemma StepAnswers(c: Client, a: Action, t: Token)
    requires Inv(c) && SendersExist(c)
    ensures AnswersOk(c, a, Step(c, a), t)
  {
    if c.inner.Some? { HeldIsUnanswered(c, t); }
    if c.stalled.None? && a.Handle? { HandleAnswers(c, a.message, t); }
  }

  lemma DeltasStall(c: Client, id: Uuid, msg: Message, sent: bool)
    requires HeldInv(c) && TableInv(c) && SendersExist(c) && c.inner.Some? && c.stalled.None?
    ensures HandleBlockChanges(c, id, msg, sent).0.stalled.Some? <==>
      sent && IsActive(c.inner, id) && TurnsAway(c, Handle(Deltas(id, msg, sent)), c.inner.value.sender[id])
  {}

  /** The next action turns a message away from an active subscription, and the command to end it leaves. */
  ghost predicate ForcesEnd(c: Client, a: Action) {
    && c.inner.Some? && a.Handle? && a.message.Deltas? && a.message.sent
    && IsActive(c.inner, a.message.id) && a.message.id in c.inner.value.sender
    && TurnsAway(c, a, c.inner.value.sender[a.message.id])
  }

  lemma HandleStalls(c: Client, m: ServerMessage)
    requires HeldInv(c) && TableInv(c) && SendersExist(c) && c.stalled.None?
    ensures HandleMsg(c, m).0.stalled.Some? <==> ForcesEnd(c, Handle(m))
  {
    if c.inner.Some? && m.Deltas? { DeltasStall(c, m.id, m.msg, m.sent); }
  }

  lemma StepStalls(c: Client, a: Action)
    requires HeldInv(c) && TableInv(c) && SendersExist(c) && c.stalled.None?
    ensures Step(c, a).stalled.Some? <==> ForcesEnd(c, a)
  {
    if a.Handle? { HandleStalls(c, a.message); }
  }

  /** The handler starts to wait exactly when it forces the end of an active subscription. */
  lemma WaitStartsIff(bufferSize: nat, actions: seq<Action>, a: Action)
    requires Reached(bufferSize, actions).stalled.None?
    ensures Reached(bufferSize, actions + [a]).stalled.Some? <==> ForcesEnd(Reached(bufferSize, actions), a)
  {
    ReachedOk(bufferSize, actions);
    RunOne(bufferSize, actions, a);
    StepStalls(Reached(bufferSize, actions), a);
  }

  /** The handler keeps the lock while it waits, so nothing but the timeout can end the wait. */
  lemma StallStep(c: Client, a: Action)
    requires Inv(c) && SendersExist(c) && c.stalled.Some? && !a.ForceTimeout?
    ensures Step(c, a).stalled == c.stalled && Step(c, a).inner == c.inner && Step(c, a).replies == c.replies
  {}

  lemma {:induction false} StallRun(c: Client, actions: seq<Action>)
    requires Inv(c) && SendersExist(c) && c.stalled.Some? && ForceTimeout !in actions
    ensures var end := Run(c, actions);
            Inv(end) && end.stalled == c.stalled && end.inner == c.inner && end.replies == c.replies
  {
    if actions == [] {
    } else {
      StallRun(c, actions[..|actions| - 1]);
      StallStep(Run(c, actions[..|actions| - 1]), actions[|actions| - 1]);
      StepKeeps(Run(c, actions[..|actions| - 1]), actions[|actions| - 1]);
    }
  }

  lemma {:induction false} RunAppends(c: Client, first: seq<Action>, second: seq<Action>)
    requires SendersExist(c)
    ensures Run(c, first + second) == Run(Run(c, first), second)
  {
    if second == [] {
      assert first + second == first;
    } else {
      var all := first + second;
      assert all[..|all| - 1] == first + second[..|second| - 1];
      RunAppends(c, first, second[..|second| - 1]);
    }
  }

  /**
  A forced end always waits out its timeout: whatever happens meanwhile, the answer it waits for does
  not come and the tables stay as they are, because the answer would need the lock the handler keeps.
  */
  lemma ForcedEndWaitsOutItsTimeout(bufferSize: nat, actions: seq<Action>, later: seq<Action>)
    requires Reached(bufferSize, actions).stalled.Some? && ForceTimeout !in later
    ensures var c, end := Reached(bufferSize, actions), Reached(bufferSize, actions + later);
            end.stalled == c.stalled && end.inner == c.inner && c.stalled.value !in end.replies
  {
    ReachedOk(bufferSize, actions);
    StallRun(Reached(bufferSize, actions), later);
    RunAppends(Init(bufferSize), actions, later);
  }

  /** A token is answered or held, never both, and the tables hold it in at most one place. */
  lemma TokensAreLinear(bufferSize: nat, actions: seq<Action>, t: Token)
    requires t < |Reached(bufferSize, actions).requests|
    ensures var c := Reached(bufferSize, actions);
            && (t in c.replies <==> !IsHeld(c.inner, c.connection, t, c.requests[t]))
            && (c.inner.Some? ==>
                  && (forall e <- c.inner.value.pending :: t in Tokens(c.inner.value.pending[e]) ==>
                        c.requests[t] == Subscribe(e, c.connection))
                  && (forall id <- c.inner.value.subscriptions :: t in Tokens(c.inner.value.subscriptions[id]) ==>
                        c.requests[t].Unsubscribe? && c.requests[t].id == id))
  {
    ReachedOk(bufferSize, actions);
  }

  lemma {:induction false} RunAnswersStay(c: Client, actions: seq<Action>, t: Token)
    requires Inv(c) && SendersExist(c) && t in c.replies
    ensures Inv(Run(c, actions)) && t in Run(c, actions).replies && Run(c, actions).replies[t] == c.replies[t]
  {
    if actions == [] {
    } else {
      var before := Run(c, actions[..|actions| - 1]);
      RunAnswersStay(c, actions[..|actions| - 1], t);
      StepAnswers(before, actions[|actions| - 1], t);
      StepKeeps(before, actions[|actions| - 1]);
    }
  }

  /** An answer given is never given again or changed. */
  lemma AnswersStay(bufferSize: nat, actions: seq<Action>, later: seq<Action>, t: Token)
    requires t in Reached(bufferSize, actions).replies
    ensures t in Reached(bufferSize, actions + later).replies
    ensures Reached(bufferSize, actions + later).replies[t] == Reached(bufferSize, actions).replies[t]
  {
    ReachedOk(bufferSize, actions);
    RunAnswersStay(Reached(bufferSize, actions), later, t);
    RunAppends(Init(bufferSize), actions, later);
  }

  /**
  Every answer that says something goes back to one message of the run: a subscriber is told of
  success only by the confirmation of its own extractor, an unsubscriber only by the end of its own
  subscription, and in both cases on the connection the request was made on.
  */
  lemma {:induction false} AnswersHaveCauses(bufferSize: nat, actions: seq<Action>, t: Token) returns (i: nat)
    requires t in Reached(bufferSize, actions).replies && !Reached(bufferSize, actions).replies[t].Dropped?
    ensures i < |actions|
    ensures Causes(Reached(bufferSize, actions[..i]), actions[i], t, Reached(bufferSize, actions).replies[t])
  {
    var before, last := actions[..|actions| - 1], actions[|actions| - 1];
    var c := Reached(bufferSize, before);
    ReachedOk(bufferSize, before);
    StepAnswers(c, last, t);
    if t in c.replies {
      i := AnswersHaveCauses(bufferSize, before, t);
      assert before[..i] == actions[..i];
    } else {
      i := |before|;
    }
  }

  /** Of all who asked for the end of an activation, at most one is told that it ended. */
  lemma OneUnsubscriberPerActivation(bufferSize: nat, actions: seq<Action>, t: Token, u: Token)
    requires t in Reached(bufferSize, actions).replies && u in Reached(bufferSize, actions).replies
    requires Reached(bufferSize, actions).replies[t].Unsubscribed?
    requires Reached(bufferSize, actions).replies[u] == Reached(bufferSize, actions).replies[t]
    ensures t == u
  {
    ReachedOk(bufferSize, actions);
  }
}
