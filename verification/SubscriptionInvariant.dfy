/**
What every step of the subscription protocol keeps. Each part of the invariant is a predicate over
the fields it speaks of, so that a step which leaves those fields alone keeps it for free.
*/
module SubscriptionInvariant {
  import opened Wrappers
  import opened Subscriptions

  type Tables = Option<Inner>

  /** The tables agree with each other and hold only the states meant for them. */
  ghost predicate TablesOk(tables: Tables, channels: seq<Channel>) {
    tables.Some? ==>
      var inner := tables.value;
      && inner.subscriptions.Keys == inner.sender.Keys
      && (forall e <- inner.pending :: inner.pending[e].RequestedSubscription?)
      && (forall id <- inner.subscriptions :: !inner.subscriptions[id].RequestedSubscription?)
      && (forall id <- inner.sender :: inner.sender[id] < |channels| && channels[inner.sender[id]].id == id)
  }

  /** Where the one unanswered token of a request is kept. */
  ghost predicate IsHeld(tables: Tables, connection: nat, t: Token, request: Request) {
    && tables.Some?
    && request.connection == connection
    && match request {
         case Subscribe(e, _) =>
           e in tables.value.pending && tables.value.pending[e] == RequestedSubscription(t)
         case Unsubscribe(id, _, _) =>
           id in tables.value.subscriptions && tables.value.subscriptions[id] == RequestedUnsubscription(t)
       }
  }

  /** Every token is answered or held. */
  ghost predicate TokensOk(tables: Tables, connection: nat, requests: seq<Request>, replies: map<Token, Reply>) {
    && (forall t <- replies :: t < |requests|)
    && (forall t: Token | t < |requests| :: t in replies || IsHeld(tables, connection, t, requests[t]))
  }

  /** The tables hold only unanswered tokens, each in the entry its request asked for. */
  ghost predicate EntriesOk(tables: Tables, connection: nat, requests: seq<Request>, replies: map<Token, Reply>) {
    tables.Some? ==>
      && (forall e <- tables.value.pending ::
            PendingOk(tables.value.pending[e], Subscribe(e, connection), requests, replies))
      && (forall id <- tables.value.subscriptions ::
            EndingOk(tables.value.subscriptions[id], id, connection, requests, replies))
  }

  ghost predicate PendingOk(
    info: SubscriptionInfo, request: Request, requests: seq<Request>, replies: map<Token, Reply>)
  {
    info.RequestedSubscription? ==>
      info.tx < |requests| && info.tx !in replies && requests[info.tx] == request
  }

  ghost predicate EndingOk(
    info: SubscriptionInfo, id: Uuid, connection: nat, requests: seq<Request>, replies: map<Token, Reply>)
  {
    info.RequestedUnsubscription? ==>
      && info.tx < |requests| && info.tx !in replies
      && requests[info.tx] == Unsubscribe(id, connection, requests[info.tx].Unsubscribe? && requests[info.tx].forced)
  }

  /** Nobody waits for an answered token. */
  ghost predicate WaitingOk(waiting: set<Token>, requests: seq<Request>, replies: map<Token, Reply>) {
    forall t <- waiting :: t < |requests| && t !in replies
  }

  /** No subscription of the present connection sends into channel `k` any more. */
  ghost predicate Detached(tables: Tables, k: nat) {
    tables.Some? ==> forall id <- tables.value.sender :: tables.value.sender[id] != k
  }

  /** An answer is of the kind that was asked for, and names the channel it is about. */
  ghost predicate ReplyOk(reply: Reply, t: Token, request: Request, tables: Tables, channels: seq<Channel>) {
    match reply
    case Subscribed(k) => request.Subscribe? && k < |channels| && channels[k].opener == t
    case Refused => request.Subscribe?
    case Unsubscribed(k) =>
      !request.Subscribe? && k < |channels| && channels[k].id == request.id && Detached(tables, k)
    case Dropped => true
  }

  ghost predicate RepliesOk(
    replies: map<Token, Reply>, requests: seq<Request>, tables: Tables, channels: seq<Channel>)
  {
    forall t <- replies :: t < |requests| && ReplyOk(replies[t], t, requests[t], tables, channels)
  }

  /** No activation answers two openers or two enders. */
  ghost predicate UniqueOk(replies: map<Token, Reply>, channels: seq<Channel>) {
    && (forall t <- replies, u <- replies :: replies[t].Unsubscribed? && replies[u] == replies[t] ==> t == u)
    && (forall k: nat | k < |channels| :: channels[k].opener in replies)
    && (forall j: nat, k: nat | j < k < |channels| :: channels[j].opener != channels[k].opener)
  }

  /** `positions` picks `part` out of `whole`, in order and nothing twice. */
  ghost predicate Embeds(part: seq<Message>, whole: seq<Message>, positions: seq<nat>) {
    && |positions| == |part|
    && (forall i: nat | i < |part| :: positions[i] < |whole| && part[i] == whole[positions[i]])
    && (forall i: nat, j: nat | i < j < |part| :: positions[i] < positions[j])
  }

  ghost predicate ChannelOk(ch: Channel, bufferSize: nat) {
    && |ch.buffered| <= bufferSize
    && (if ch.open then ch.lost == [] else ch.buffered == [])
    && Embeds(ch.Delivered(), ch.received, ch.picks)
    && |ch.received| == |ch.Delivered()| + ch.refused
    && ch.forced <= 1
  }

  ghost predicate IsActive(tables: Tables, id: Uuid) {
    tables.Some? && id in tables.value.subscriptions && tables.value.subscriptions[id].Active?
  }

  ghost predicate ChannelsOk(channels: seq<Channel>, bufferSize: nat) {
    forall k: nat | k < |channels| :: ChannelOk(channels[k], bufferSize)
  }

  /** While a subscription is active nothing was turned away and nobody asked for its end. */
  ghost predicate ActiveOk(tables: Tables, channels: seq<Channel>) {
    tables.Some? ==>
      forall id <- tables.value.sender ::
        && tables.value.sender[id] < |channels|
        && (IsActive(tables, id) ==>
              channels[tables.value.sender[id]].refused == 0 && channels[tables.value.sender[id]].forced == 0)
  }

  /** The handler that keeps the lock waits for an answer only its own tables could give. */
  ghost predicate StallOk(stalled: Option<Token>, requests: seq<Request>, replies: map<Token, Reply>) {
    stalled.Some? ==>
      stalled.value < |requests| && requests[stalled.value].Unsubscribe? && stalled.value !in replies
  }

  ghost predicate HeldInv(c: Client) {
    TokensOk(c.inner, c.connection, c.requests, c.replies)
  }

  ghost predicate TableInv(c: Client) {
    && TablesOk(c.inner, c.channels)
    && EntriesOk(c.inner, c.connection, c.requests, c.replies)
    && WaitingOk(c.waiting, c.requests, c.replies)
    && StallOk(c.stalled, c.requests, c.replies)
  }

  ghost predicate HistoryInv(c: Client) {
    && RepliesOk(c.replies, c.requests, c.inner, c.channels)
    && UniqueOk(c.replies, c.channels)
    && ChannelsOk(c.channels, c.bufferSize)
    && ActiveOk(c.inner, c.channels)
  }

  ghost predicate Inv(c: Client) {
    HeldInv(c) && TableInv(c) && HistoryInv(c)
  }

  lemma InitOk(bufferSize: nat)
    ensures Inv(Init(bufferSize))
  {}

  // ------------------------------------------------------------------ operations on the tables

  /** A new one-shot that is dropped at once disturbs nothing. */
  lemma DroppedRequestKeeps(c: Client, request: Request)
    requires Inv(c)
    ensures Inv(c.(requests := c.requests + [request], replies := c.replies[|c.requests| := Dropped]))
  {}

  lemma PendingRequestKeeps(c: Client, e: Extractor, sent: bool)
    requires Inv(c) && c.inner.Some? && e !in c.inner.value.pending
    ensures Inv(NewSubscription(c, e, sent))
  {}

  lemma EndingRequestKeepsHeld(c: Client, id: Uuid, request: Request, listening: bool)
    requires HeldInv(c) && c.inner.Some?
    requires id in c.inner.value.subscriptions && c.inner.value.subscriptions[id].Active?
    requires request == Unsubscribe(id, c.connection, true) || request == Unsubscribe(id, c.connection, false)
    ensures HeldInv(EndSubscription(c, id, request, listening))
  {
    var next := EndSubscription(c, id, request, listening);
    forall t: Token | t < |c.requests| && t !in next.replies
      ensures IsHeld(next.inner, c.connection, t, c.requests[t])
    {
      assert IsHeld(c.inner, c.connection, t, c.requests[t]);
    }
  }

  lemma EndingRequestKeepsTables(c: Client, id: Uuid, request: Request, listening: bool)
    requires HeldInv(c) && TableInv(c) && c.inner.Some?
    requires id in c.inner.value.subscriptions && c.inner.value.subscriptions[id].Active?
    requires request == Unsubscribe(id, c.connection, true) || request == Unsubscribe(id, c.connection, false)
    ensures TableInv(EndSubscription(c, id, request, listening))
  {}

  lemma EndingRequestKeepsHistory(c: Client, id: Uuid, request: Request, listening: bool)
    requires Inv(c) && c.inner.Some?
    requires id in c.inner.value.subscriptions && c.inner.value.subscriptions[id].Active?
    ensures HistoryInv(EndSubscription(c, id, request, listening))
  {}

  lemma NewSubscriptionKeeps(c: Client, e: Extractor, sent: bool)
    requires Inv(c) && c.inner.Some?
    ensures Inv(NewSubscription(c, e, sent))
  {
    if e in c.inner.value.pending {
      DroppedRequestKeeps(c, Subscribe(e, c.connection));
    } else {
      PendingRequestKeeps(c, e, sent);
    }
  }

  lemma EndSubscriptionKeeps(c: Client, id: Uuid, request: Request, listening: bool)
    requires Inv(c) && c.inner.Some?
    requires request == Unsubscribe(id, c.connection, true) || request == Unsubscribe(id, c.connection, false)
    ensures Inv(EndSubscription(c, id, request, listening))
  {
    if id in c.inner.value.subscriptions && c.inner.value.subscriptions[id].Active? {
      EndingRequestKeepsHeld(c, id, request, listening);
      EndingRequestKeepsTables(c, id, request, listening);
      EndingRequestKeepsHistory(c, id, request, listening);
    } else {
      DroppedRequestKeeps(c, request);
    }
  }

  lemma TakePendingKeeps(c: Client, e: Extractor, reply: Reply)
    requires HeldInv(c) && TableInv(c) && c.inner.Some? && c.stalled.None? && e in c.inner.value.pending
    ensures HeldInv(TakePending(c, e, reply)) && TableInv(TakePending(c, e, reply))
  {}

  lemma TakePendingKeepsHistory(c: Client, e: Extractor, reply: Reply)
    requires Inv(c) && c.inner.Some? && e in c.inner.value.pending
    requires reply == Refused || reply == Dropped
    ensures HistoryInv(TakePending(c, e, reply))
  {}

  lemma TakeOutKeepsHeld(c: Client, id: Uuid, reply: Reply)
    requires HeldInv(c) && TableInv(c) && c.inner.Some? && id in c.inner.value.subscriptions
    ensures HeldInv(TakeOut(c, id, reply))
  {
    var next := TakeOut(c, id, reply);
    forall t: Token | t < |c.requests| && t !in next.replies
      ensures IsHeld(next.inner, c.connection, t, c.requests[t])
    {
      assert IsHeld(c.inner, c.connection, t, c.requests[t]);
    }
  }

  lemma TakeOutKeepsTables(c: Client, id: Uuid, reply: Reply)
    requires HeldInv(c) && TableInv(c) && c.inner.Some? && c.stalled.None? && id in c.inner.value.subscriptions
    ensures TableInv(TakeOut(c, id, reply))
  {}

  lemma TakeOutKeepsReplies(c: Client, id: Uuid, reply: Reply)
    requires Inv(c) && c.inner.Some? && id in c.inner.value.subscriptions
    requires reply == Dropped || reply == Unsubscribed(c.inner.value.sender[id])
    ensures var next := TakeOut(c, id, reply);
            RepliesOk(next.replies, next.requests, next.inner, next.channels)
  {
    var next := TakeOut(c, id, reply);
    forall t <- c.replies ensures ReplyOk(c.replies[t], t, c.requests[t], next.inner, c.channels) {}
  }

  lemma TakeOutKeepsHistory(c: Client, id: Uuid, reply: Reply)
    requires Inv(c) && c.inner.Some? && id in c.inner.value.subscriptions
    requires reply == Dropped || reply == Unsubscribed(c.inner.value.sender[id])
    ensures HistoryInv(TakeOut(c, id, reply))
  {
    TakeOutKeepsReplies(c, id, reply);
    TakeOutKeepsUnique(c, id, reply);
    TakeOutKeepsActive(c, id, reply);
  }

  lemma TakeOutKeepsUnique(c: Client, id: Uuid, reply: Reply)
    requires Inv(c) && c.inner.Some? && id in c.inner.value.subscriptions
    requires reply == Dropped || reply == Unsubscribed(c.inner.value.sender[id])
    ensures UniqueOk(TakeOut(c, id, reply).replies, c.channels)
  {}

  lemma TakeOutKeepsActive(c: Client, id: Uuid, reply: Reply)
    requires ActiveOk(c.inner, c.channels) && c.inner.Some? && id in c.inner.value.subscriptions
    ensures ActiveOk(TakeOut(c, id, reply).inner, c.channels)
  {}

  lemma RemoveKeeps(c: Client, id: Uuid)
    requires Inv(c) && c.inner.Some? && c.stalled.None?
    ensures Inv(RemoveSubscription(c, id).0) && !RemoveSubscription(c, id).1
  {
    if id in c.inner.value.subscriptions {
      TakeOutKeepsHeld(c, id, Dropped);
      TakeOutKeepsTables(c, id, Dropped);
      TakeOutKeepsHistory(c, id, Dropped);
      TakeOutKeepsHeld(c, id, Unsubscribed(c.inner.value.sender[id]));
      TakeOutKeepsTables(c, id, Unsubscribed(c.inner.value.sender[id]));
      TakeOutKeepsHistory(c, id, Unsubscribed(c.inner.value.sender[id]));
    }
  }

  lemma CancelKeeps(c: Client, e: Extractor)
    requires Inv(c) && c.inner.Some? && c.stalled.None?
    ensures Inv(CancelPending(c, e))
  {
    if e in c.inner.value.pending {
      TakePendingKeeps(c, e, Refused);
      TakePendingKeepsHistory(c, e, Refused);
    }
  }

  /** Activation under an unused id. */
  lemma FreshActivationKeepsTables(c: Client, e: Extractor, id: Uuid)
    requires HeldInv(c) && TableInv(c) && c.inner.Some? && c.stalled.None? && e in c.inner.value.pending
    requires id !in c.inner.value.subscriptions
    ensures HeldInv(MarkActive(c, e, id)) && TableInv(MarkActive(c, e, id))
  {
    var info := c.inner.value.pending[e];
    var taken := TakePending(c, e, Subscribed(|c.channels|));
    TakePendingKeeps(c, e, Subscribed(|c.channels|));
    OpenKeeps(taken, id, Channel(id, info.tx, info.tx in c.waiting, [], [], [], [], [], 0, 0));
  }

  lemma OpenKeeps(c: Client, id: Uuid, channel: Channel)
    requires HeldInv(c) && TableInv(c) && c.inner.Some? && id !in c.inner.value.subscriptions && channel.id == id
    ensures HeldInv(Open(c, id, channel)) && TableInv(Open(c, id, channel))
  {}

  lemma FreshActivationKeepsHistory(c: Client, e: Extractor, id: Uuid)
    requires Inv(c) && c.inner.Some? && c.stalled.None? && e in c.inner.value.pending
    requires id !in c.inner.value.subscriptions
    ensures HistoryInv(MarkActive(c, e, id))
  {
    FreshActivationKeepsReplies(c, e, id);
  }

  lemma FreshActivationKeepsReplies(c: Client, e: Extractor, id: Uuid)
    requires Inv(c) && c.inner.Some? && c.stalled.None? && e in c.inner.value.pending
    requires id !in c.inner.value.subscriptions
    ensures var next := MarkActive(c, e, id);
            RepliesOk(next.replies, next.requests, next.inner, next.channels)
  {
    var next := MarkActive(c, e, id);
    forall t <- c.replies ensures ReplyOk(c.replies[t], t, c.requests[t], next.inner, next.channels) {}
  }

  /** Activation under a used id drops the earlier subscription first. */
  lemma ActivationEvicts(c: Client, e: Extractor, id: Uuid)
    requires c.inner.Some? && e in c.inner.value.pending && id in c.inner.value.subscriptions
    requires c.inner.value.pending[e].RequestedSubscription?
    requires c.inner.value.pending[e].tx !in Tokens(c.inner.value.subscriptions[id])
    ensures MarkActive(c, e, id) == MarkActive(TakeOut(c, id, Dropped), e, id)
  {
    var opener := c.inner.value.pending[e].tx;
    var ender := c.inner.value.subscriptions[id];
    var direct, evicted := MarkActive(c, e, id), MarkActive(TakeOut(c, id, Dropped), e, id);
    if !ender.Active? {
      var reply := if opener in c.waiting then Subscribed(|c.channels|) else Dropped;
      assert direct.replies == c.replies[opener := reply][ender.tx := Dropped];
      assert evicted.replies == c.replies[ender.tx := Dropped][opener := reply];
      assert c.waiting - {opener} - {ender.tx} == c.waiting - {ender.tx} - {opener};
    }
    assert direct.inner == evicted.inner;
  }

  lemma MarkActiveKeeps(c: Client, e: Extractor, id: Uuid)
    requires Inv(c) && c.inner.Some? && c.stalled.None?
    ensures Inv(MarkActive(c, e, id))
  {
    if e in c.inner.value.pending {
      var base := c;
      if id in c.inner.value.subscriptions {
        TakeOutKeepsHeld(c, id, Dropped);
        TakeOutKeepsTables(c, id, Dropped);
        TakeOutKeepsHistory(c, id, Dropped);
        ActivationEvicts(c, e, id);
        base := TakeOut(c, id, Dropped);
      }
      FreshActivationKeepsTables(base, e, id);
      FreshActivationKeepsHistory(base, e, id);
    }
  }

  /** The tables hold exactly the unanswered tokens. */
  lemma HeldIsUnanswered(c: Client, t: Token)
    requires Inv(c) && c.inner.Some?
    ensures t in HeldTokens(c.inner.value) <==> t < |c.requests| && t !in c.replies
  {
    var inner := c.inner.value;
    if t < |c.requests| && t !in c.replies {
      match c.requests[t]
      case Subscribe(e, _) => assert t in Tokens(inner.pending[e]);
      case Unsubscribe(id, _, _) => assert t in Tokens(inner.subscriptions[id]);
    }
  }

  lemma DisconnectedKeeps(c: Client)
    requires Inv(c) && c.stalled.None?
    ensures Inv(Disconnected(c))
  {
    if c.inner.Some? {
      forall t: Token ensures t in Disconnected(c).replies <==> t < |c.requests| {
        HeldIsUnanswered(c, t);
      }
    }
  }

  // ------------------------------------------------------------------ channels

  lemma OfferKeeps(ch: Channel, bufferSize: nat, msg: Message)
    requires ChannelOk(ch, bufferSize)
    ensures ChannelOk(Offer(ch, bufferSize, msg).0, bufferSize)
    ensures Offer(ch, bufferSize, msg).1.Sent? <==> ch.open && |ch.buffered| < bufferSize
    ensures Offer(ch, bufferSize, msg).1.Sent? ==> Offer(ch, bufferSize, msg).0.refused == ch.refused
  {
    if ch.open && |ch.buffered| < bufferSize {
      assert Offer(ch, bufferSize, msg).0.Delivered() == ch.Delivered() + [msg];
    }
  }

  lemma TakeKeeps(ch: Channel, bufferSize: nat)
    requires ChannelOk(ch, bufferSize)
    ensures ChannelOk(Take(ch), bufferSize)
    ensures Take(ch).Delivered() == ch.Delivered()
  {
    if ch.open && ch.buffered != [] {
      assert ch.buffered == [ch.buffered[0]] + ch.buffered[1..];
    }
    assert Take(ch).Delivered() == ch.Delivered();
  }

  lemma AbandonKeeps(ch: Channel, bufferSize: nat)
    requires ChannelOk(ch, bufferSize)
    ensures ChannelOk(Abandon(ch), bufferSize)
    ensures Abandon(ch).Delivered() == ch.Delivered()
  {
    assert Abandon(ch).Delivered() == ch.Delivered();
  }

  /** A channel may be replaced by one of the same origin; while active it must have turned nothing away. */
  lemma ReplaceChannelKeeps(c: Client, k: nat, ch: Channel)
    requires Inv(c) && k < |c.channels| && ChannelOk(ch, c.bufferSize)
    requires ch.id == c.channels[k].id && ch.opener == c.channels[k].opener
    requires Detached(c.inner, k) || !IsActive(c.inner, ch.id) || (ch.refused == 0 && ch.forced == 0)
    ensures Inv(c.(channels := c.channels[k := ch]))
  {}

  /** What the client is about to do when message `msg` is turned away from active subscription `id`. */
  ghost predicate TurnedAway(c: Client, id: Uuid, msg: Message, sent: bool, k: nat, last: Channel, ended: Client) {
    && c.inner.Some? && SendersExist(c) && TablesOk(c.inner, c.channels)
    && id in c.inner.value.sender && c.inner.value.subscriptions[id].Active? && k == c.inner.value.sender[id]
    && !Offer(c.channels[k], c.bufferSize, msg).1.Sent?
    && last == Offer(c.channels[k], c.bufferSize, msg).0.(forced := c.channels[k].forced + 1)
    && ended == EndSubscription(c, id, Unsubscribe(id, c.connection, true), sent)
  }

  /** A refused message on an active subscription is the one event after which the client asks for the end. */
  lemma ForcedEndIs(c: Client, id: Uuid, msg: Message, sent: bool, k: nat, last: Channel, ended: Client)
    requires TurnedAway(c, id, msg, sent, k, last, ended) && HeldInv(c)
    ensures k < |ended.channels|
    ensures HandleBlockChanges(c, id, msg, sent).0 ==
      ended.(channels := ended.channels[k := last], stalled := if sent then Some(|c.requests|) else ended.stalled)
  {}

  /** The handler may start to wait for any forced end that is not answered yet. */
  lemma StallKeeps(c: Client, t: Token, sent: bool)
    requires Inv(c) && t < |c.requests| && c.requests[t].Unsubscribe? && t !in c.replies
    ensures Inv(c.(stalled := if sent then Some(t) else c.stalled))
  {}

  /** The request just made is unanswered and its subscription is no longer active. */
  lemma EndedIs(c: Client, id: Uuid, request: Request, listening: bool)
    requires Inv(c) && c.inner.Some? && request.Unsubscribe?
    requires id in c.inner.value.subscriptions && c.inner.value.subscriptions[id].Active?
    ensures var ended := EndSubscription(c, id, request, listening);
            var t := |c.requests|;
            && ended.channels == c.channels && ended.bufferSize == c.bufferSize
            && !IsActive(ended.inner, id)
            && t < |ended.requests| && ended.requests[t].Unsubscribe? && t !in ended.replies
            && ended.stalled == c.stalled
  {}

  /** The ending subscription with its last message turned away, ready for the handler to wait. */
  ghost predicate EndReady(ended: Client, k: nat, last: Channel, t: Token) {
    && Inv(ended) && k < |ended.channels| && ChannelOk(last, ended.bufferSize)
    && last.id == ended.channels[k].id && last.opener == ended.channels[k].opener
    && !IsActive(ended.inner, last.id)
    && t < |ended.requests| && ended.requests[t].Unsubscribe? && t !in ended.replies
  }

  lemma ForcedEndReady(c: Client, id: Uuid, msg: Message, sent: bool, k: nat, last: Channel, ended: Client)
    requires Inv(c) && TurnedAway(c, id, msg, sent, k, last, ended)
    ensures EndReady(ended, k, last, |c.requests|)
  {
    var request := Unsubscribe(id, c.connection, true);
    ActiveChannel(c, id);
    ForcedChannel(c.channels[k], c.bufferSize, msg);
    EndSubscriptionKeeps(c, id, request, sent);
    EndedIs(c, id, request, sent);
  }

  lemma ForcedEndKeeps(c: Client, id: Uuid, msg: Message, sent: bool, k: nat, last: Channel, ended: Client)
    requires Inv(c) && TurnedAway(c, id, msg, sent, k, last, ended)
    ensures Inv(HandleBlockChanges(c, id, msg, sent).0)
  {
    ForcedEndReady(c, id, msg, sent, k, last, ended);
    ForcedEndIs(c, id, msg, sent, k, last, ended);
    EndAndStall(ended, k, last, |c.requests|, sent, HandleBlockChanges(c, id, msg, sent).0);
  }

  lemma ActiveChannel(c: Client, id: Uuid)
    requires Inv(c) && c.inner.Some? && TablesOk(c.inner, c.channels)
    requires id in c.inner.value.sender && c.inner.value.subscriptions[id].Active?
    ensures var k := c.inner.value.sender[id];
            && k < |c.channels| && c.channels[k].id == id
            && ChannelOk(c.channels[k], c.bufferSize) && c.channels[k].forced == 0
  {}

  lemma ForcedChannel(ch: Channel, bufferSize: nat, msg: Message)
    requires ChannelOk(ch, bufferSize) && ch.forced == 0 && !Offer(ch, bufferSize, msg).1.Sent?
    ensures var seen := Offer(ch, bufferSize, msg).0;
            var last := seen.(forced := seen.forced + 1);
            ChannelOk(last, bufferSize) && last.id == ch.id && last.opener == ch.opener
  {
    var seen := Offer(ch, bufferSize, msg).0;
    OfferKeeps(ch, bufferSize, msg);
    assert seen.(forced := seen.forced + 1).Delivered() == seen.Delivered();
  }

  lemma EndAndStall(ended: Client, k: nat, last: Channel, t: Token, sent: bool, next: Client)
    requires EndReady(ended, k, last, t)
    requires next == ended.(channels := ended.channels[k := last], stalled := if sent then Some(t) else ended.stalled)
    ensures Inv(next)
  {
    ReplaceChannelKeeps(ended, k, last);
    StallKeeps(ended.(channels := ended.channels[k := last]), t, sent);
  }

  lemma DeltasKeep(c: Client, id: Uuid, msg: Message, sent: bool)
    requires Inv(c) && c.inner.Some? && c.stalled.None? && SendersExist(c)
    ensures Inv(HandleBlockChanges(c, id, msg, sent).0)
  {
    if id in c.inner.value.sender {
      var k := c.inner.value.sender[id];
      var (ch, result) := Offer(c.channels[k], c.bufferSize, msg);
      if result.Sent? || !c.inner.value.subscriptions[id].Active? {
        OfferKeeps(c.channels[k], c.bufferSize, msg);
        ReplaceChannelKeeps(c, k, ch);
      } else {
        ForcedEndKeeps(c, id, msg, sent, k, ch.(forced := ch.forced + 1),
                       EndSubscription(c, id, Unsubscribe(id, c.connection, true), sent));
      }
    }
  }

  // ------------------------------------------------------------------ whole runs

  lemma HandleKeeps(c: Client, m: ServerMessage)
    requires Inv(c) && c.stalled.None? && SendersExist(c)
    ensures Inv(HandleMsg(c, m).0)
  {
    if c.inner.Some? {
      match m
      case Deltas(id, msg, sent) => DeltasKeep(c, id, msg, sent);
      case NewSubscriptionMsg(e, id) => MarkActiveKeeps(c, e, id);
      case SubscriptionEnded(id) => RemoveKeeps(c, id);
      case ExtractorNotFound(e) => CancelKeeps(c, e);
      case SubscriptionNotFound(id) => RemoveKeeps(c, id);
      case SubscribeError(e) => CancelKeeps(c, e);
      case _ =>
    }
  }

  lemma StepKeeps(c: Client, a: Action)
    requires Inv(c) && SendersExist(c)
    ensures Inv(Step(c, a))
  {
    if c.stalled.None? || !NeedsLock(a) {
      match a
      case DoSubscribe(e, sent) => if c.inner.Some? { NewSubscriptionKeeps(c, e, sent); }
      case DoUnsubscribe(id, sent) =>
        if c.inner.Some? { EndSubscriptionKeeps(c, id, Unsubscribe(id, c.connection, false), sent); }
      case Handle(m) => HandleKeeps(c, m);
      case Consume(k) =>
        if k < |c.channels| {
          TakeKeeps(c.channels[k], c.bufferSize);
          ReplaceChannelKeeps(c, k, Take(c.channels[k]));
        }
      case DropReceiver(k) =>
        if k < |c.channels| {
          AbandonKeeps(c.channels[k], c.bufferSize);
          ReplaceChannelKeeps(c, k, Abandon(c.channels[k]));
        }
      case Connect => ConnectKeeps(c);
      case Disconnect => DisconnectedKeeps(c);
      case _ =>
    }
  }

  lemma ConnectKeeps(c: Client)
    requires Inv(c) && c.stalled.None?
    ensures Inv(Disconnected(c).(inner := Some(EMPTY), connection := c.connection + 1))
  {
    DisconnectedKeeps(c);
  }

  /** The invariant holds in every state a client can reach. */
  lemma {:induction false} ReachedOk(bufferSize: nat, actions: seq<Action>)
    ensures Inv(Reached(bufferSize, actions))
  {
    if actions == [] {
      InitOk(bufferSize);
    } else {
      ReachedOk(bufferSize, actions[..|actions| - 1]);
      StepKeeps(Reached(bufferSize, actions[..|actions| - 1]), actions[|actions| - 1]);
    }
  }
}
