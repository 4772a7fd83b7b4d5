/**
The subscription protocol of the websocket client, as one value per state and one function per
atomic step.

Everything the client does while it holds the lock on its shared state is one step. One-shot reply
channels are tokens: token `t` is position `t` of `requests`, it is answered at most once, and
`waiting` says whether somebody still listens for the answer. A message channel is one entry of
`channels`; every activation opens a new one.
*/
module Subscriptions {
  import opened Wrappers

  type Extractor = string
  type Uuid = nat
  type Token = nat
  type Message = nat

  datatype SubscriptionInfo =
    | RequestedSubscription(tx: Token)
    | Active
    | RequestedUnsubscription(tx: Token)

  /** The tables of one connection; `sender` leads from a subscription to its message channel. */
  datatype Inner = Inner(
    pending: map<Extractor, SubscriptionInfo>,
    subscriptions: map<Uuid, SubscriptionInfo>,
    sender: map<Uuid, nat>)

  const EMPTY: Inner := Inner(map[], map[], map[])

  /** What a one-shot was created for, and on which connection. */
  datatype Request =
    | Subscribe(extractor: Extractor, connection: nat)
    | Unsubscribe(id: Uuid, connection: nat, forced: bool)

  datatype Reply =
    | Subscribed(channel: nat)
    | Refused
    | Unsubscribed(channel: nat)
    | Dropped

  /**
  One message channel with its history: `received` is every message the server addressed to the
  subscription since it was activated, `picks` the positions of those that entered the buffer,
  `lost` what was buffered when the receiver went away, `refused` how many were turned away and
  `forced` how often the client itself asked for the end.
  */
  datatype Channel = Channel(
    id: Uuid,
    opener: Token,
    open: bool,
    received: seq<Message>,
    picks: seq<nat>,
    consumed: seq<Message>,
    lost: seq<Message>,
    buffered: seq<Message>,
    refused: nat,
    forced: nat)
  {
    /** Every message that entered the buffer, in the order in which it did. */
    function Delivered(): seq<Message> { consumed + lost + buffered }
  }

  datatype Client = Client(
    bufferSize: nat,
    connection: nat,
    inner: Option<Inner>,
    requests: seq<Request>,
    replies: map<Token, Reply>,
    waiting: set<Token>,
    channels: seq<Channel>,
    stalled: Option<Token>)

  function Init(bufferSize: nat): Client {
    Client(bufferSize, 0, None, [], map[], {}, [], None)
  }

  // ------------------------------------------------------------------ one-shot replies

  /** Answers a one-shot; if nobody listens any more the answer is lost. */
  function Resolve(c: Client, t: Token, reply: Reply): Client {
    c.(replies := c.replies[t := if t in c.waiting then reply else Dropped],
       waiting := c.waiting - {t})
  }

  function Tokens(info: SubscriptionInfo): set<Token> {
    if info.Active? then {} else {info.tx}
  }

  function HeldTokens(inner: Inner): set<Token> {
    (set e, t | e in inner.pending && t in Tokens(inner.pending[e]) :: t)
    + (set id, t | id in inner.subscriptions && t in Tokens(inner.subscriptions[id]) :: t)
  }

  // ------------------------------------------------------------------ operations on the tables

  function NewSubscription(c: Client, e: Extractor, sent: bool): Client
    requires c.inner.Some?
  {
    var t := |c.requests|;
    var c := c.(requests := c.requests + [Subscribe(e, c.connection)]);
    if e in c.inner.value.pending then
      c.(replies := c.replies[t := Dropped])
    else
      c.(inner := Some(c.inner.value.(pending := c.inner.value.pending[e := RequestedSubscription(t)])),
         waiting := if sent then c.waiting + {t} else c.waiting)
  }

  /** Takes subscription `id` and its sending half out of the tables and answers its one-shot, if any. */
  function TakeOut(c: Client, id: Uuid, reply: Reply): Client
    requires c.inner.Some? && id in c.inner.value.subscriptions
  {
    var inner := c.inner.value;
    var info := inner.subscriptions[id];
    var c := c.(inner := Some(inner.(subscriptions := inner.subscriptions - {id}, sender := inner.sender - {id})));
    if info.Active? then c else Resolve(c, info.tx, reply)
  }

  /** Takes a pending subscription out of the tables and answers its one-shot, if any. */
  function TakePending(c: Client, e: Extractor, reply: Reply): Client
    requires c.inner.Some? && e in c.inner.value.pending
  {
    var inner := c.inner.value;
    var info := inner.pending[e];
    var c := c.(inner := Some(inner.(pending := inner.pending - {e})));
    if info.Active? then c else Resolve(c, info.tx, reply)
  }

  /** A new channel for `id`; whatever the tables held for that id is overwritten and dropped. */
  function Open(c: Client, id: Uuid, channel: Channel): Client
    requires c.inner.Some?
  {
    var c := if id in c.inner.value.subscriptions then TakeOut(c, id, Dropped) else c;
    var inner := c.inner.value;
    c.(inner := Some(inner.(subscriptions := inner.subscriptions[id := Active],
                            sender := inner.sender[id := |c.channels|])),
       channels := c.channels + [channel])
  }

  function MarkActive(c: Client, e: Extractor, id: Uuid): Client
    requires c.inner.Some?
  {
    if e !in c.inner.value.pending then c
    else
      var info := c.inner.value.pending[e];
      if info.RequestedSubscription? then
        var taken := TakePending(c, e, Subscribed(|c.channels|));
        Open(taken, id, Channel(id, info.tx, info.tx in c.waiting, [], [], [], [], [], 0, 0))
      else
        TakePending(c, e, Dropped)
  }

  /** Moves an active subscription to its end; the token of any other request is dropped. */
  function EndSubscription(c: Client, id: Uuid, request: Request, listening: bool): Client
    requires c.inner.Some?
  {
    var t := |c.requests|;
    var c := c.(requests := c.requests + [request]);
    var subscriptions := c.inner.value.subscriptions;
    if id in subscriptions && subscriptions[id].Active? then
      c.(inner := Some(c.inner.value.(subscriptions := subscriptions[id := RequestedUnsubscription(t)])),
         waiting := if listening then c.waiting + {t} else c.waiting)
    else
      c.(replies := c.replies[t := Dropped])
  }

  /** The second component is the error of tables that drifted apart. */
  function RemoveSubscription(c: Client, id: Uuid): (Client, bool)
    requires c.inner.Some?
  {
    var inner := c.inner.value;
    if id !in inner.subscriptions then (c, false)
    else
      var drifted := id !in inner.sender;
      var channel := if drifted then |c.channels| else inner.sender[id];
      var reply := if inner.subscriptions[id].RequestedUnsubscription? then Unsubscribed(channel) else Dropped;
      (TakeOut(c, id, reply), drifted)
  }

  function CancelPending(c: Client, e: Extractor): Client
    requires c.inner.Some?
  {
    if e !in c.inner.value.pending then c
    else TakePending(c, e, if c.inner.value.pending[e].RequestedSubscription? then Refused else Dropped)
  }

  datatype SendResult = Sent | BufferFull | ReceiverGone

  /** A non-blocking send into one message channel. */
  function Offer(ch: Channel, bufferSize: nat, msg: Message): (Channel, SendResult) {
    var seen := ch.(received := ch.received + [msg]);
    if !ch.open then (seen.(refused := ch.refused + 1), ReceiverGone)
    else if |ch.buffered| >= bufferSize then (seen.(refused := ch.refused + 1), BufferFull)
    else (seen.(picks := ch.picks + [|ch.received|], buffered := ch.buffered + [msg]), Sent)
  }

  ghost predicate SendersExist(c: Client) {
    c.inner.Some? ==> forall id <- c.inner.value.sender :: c.inner.value.sender[id] < |c.channels|
  }

  function Send(c: Client, id: Uuid, msg: Message): (Client, SendResult)
    requires c.inner.Some? && SendersExist(c)
  {
    if id !in c.inner.value.sender then (c, Sent)
    else
      var k := c.inner.value.sender[id];
      var (ch, result) := Offer(c.channels[k], c.bufferSize, msg);
      (c.(channels := c.channels[k := ch]), result)
  }

  /**
  The client ends a subscription on its own. If the command left, the caller waits for the answer
  while it keeps the lock: `stalled` is the token it waits for.
  */
  function ForceUnsubscribe(c: Client, id: Uuid, sent: bool): Client
    requires c.inner.Some? && SendersExist(c)
  {
    var inner := c.inner.value;
    if id in inner.subscriptions && inner.subscriptions[id].RequestedUnsubscription? then c
    else
      var t := |c.requests|;
      var counted :=
        if id in inner.sender then
          var k := inner.sender[id];
          c.(channels := c.channels[k := c.channels[k].(forced := c.channels[k].forced + 1)])
        else c;
      var ended := EndSubscription(counted, id, Unsubscribe(id, c.connection, true), sent);
      if sent && t !in ended.replies then ended.(stalled := Some(t)) else ended
  }

  // ------------------------------------------------------------------ server messages

  datatype ServerMessage =
    | Deltas(id: Uuid, msg: Message, sent: bool)
    | NewSubscriptionMsg(extractor: Extractor, id: Uuid)
    | SubscriptionEnded(id: Uuid)
    | ExtractorNotFound(extractor: Extractor)
    | SubscriptionNotFound(id: Uuid)
    | ParseError
    | CompressionError(id: Uuid)
    | SubscribeError(extractor: Extractor)
    | Undecodable
    | Ping
    | Pong
    | CloseFrame
    | SocketClosed
    | SocketAlreadyClosed
    | SocketIoOrProtocol
    | SocketOther

  datatype Handling =
    | Handled
    | NotConnectedError
    | ServerFailure
    | FatalError
    | ConnectionClosed
    | ConnectionError

  function HandleBlockChanges(c: Client, id: Uuid, msg: Message, sent: bool): (r: (Client, Handling))
    requires SendersExist(c)
    ensures SendersExist(r.0)
  {
    if c.inner.None? then (c, NotConnectedError)
    else
      var (offered, result) := Send(c, id, msg);
      (if result.Sent? then offered else ForceUnsubscribe(offered, id, sent), Handled)
  }

  function Remove(c: Client, id: Uuid): (Client, Handling)
    requires c.inner.Some?
  {
    var (c, drifted) := RemoveSubscription(c, id);
    (c, if drifted then FatalError else Handled)
  }

  function HandleMsg(c: Client, m: ServerMessage): (r: (Client, Handling))
    requires SendersExist(c)
    ensures SendersExist(r.0)
  {
    match m
    case Deltas(id, msg, sent) => HandleBlockChanges(c, id, msg, sent)
    case NewSubscriptionMsg(e, id) => if c.inner.None? then (c, NotConnectedError) else (MarkActive(c, e, id), Handled)
    case SubscriptionEnded(id) => if c.inner.None? then (c, NotConnectedError) else Remove(c, id)
    case ExtractorNotFound(e) => if c.inner.None? then (c, NotConnectedError) else (CancelPending(c, e), Handled)
    case SubscriptionNotFound(id) => if c.inner.None? then (c, NotConnectedError) else Remove(c, id)
    case ParseError => (c, ServerFailure)
    case CompressionError(_) => (c, ServerFailure)
    case SubscribeError(e) => if c.inner.None? then (c, NotConnectedError) else (CancelPending(c, e), Handled)
    case Undecodable => (c, Handled)
    case Ping => (c, if c.inner.None? then NotConnectedError else Handled)
    case Pong => (c, Handled)
    case CloseFrame => (c, ConnectionClosed)
    case SocketClosed => (c, ConnectionClosed)
    case SocketAlreadyClosed => (c, ConnectionError)
    case SocketIoOrProtocol => (c, ConnectionError)
    case SocketOther => (c, FatalError)
  }

  // ------------------------------------------------------------------ whole runs

  /** Dropping the tables drops every one-shot and every sending half they hold. */
  function Disconnected(c: Client): Client {
    if c.inner.None? then c
    else
      var held := HeldTokens(c.inner.value);
      c.(inner := None,
         replies := c.replies + (map t | t in held :: Dropped),
         waiting := c.waiting - held)
  }

  datatype Action =
    | DoSubscribe(extractor: Extractor, sent: bool)
    | DoUnsubscribe(id: Uuid, sent: bool)
    | GiveUp(token: Token)
    | Handle(message: ServerMessage)
    | ForceTimeout
    | Consume(channel: nat)
    | DropReceiver(channel: nat)
    | Connect
    | Disconnect

  /** The actions that need the lock on the shared state. */
  predicate NeedsLock(a: Action) {
    a.DoSubscribe? || a.DoUnsubscribe? || a.Handle? || a.Connect? || a.Disconnect?
  }

  function Take(ch: Channel): Channel {
    if ch.open && ch.buffered != [] then
      ch.(consumed := ch.consumed + [ch.buffered[0]], buffered := ch.buffered[1..])
    else ch
  }

  function Abandon(ch: Channel): Channel {
    ch.(open := false, lost := ch.lost + ch.buffered, buffered := [])
  }

  /** One atomic step; an action that cannot happen in `c` leaves it alone. */
  function Step(c: Client, a: Action): (next: Client)
    requires SendersExist(c)
    ensures SendersExist(next)
  {
    if c.stalled.Some? && NeedsLock(a) then c
    else match a
      case DoSubscribe(e, sent) => if c.inner.None? then c else NewSubscription(c, e, sent)
      case DoUnsubscribe(id, sent) =>
        if c.inner.None? then c else EndSubscription(c, id, Unsubscribe(id, c.connection, false), sent)
      case GiveUp(t) => c.(waiting := c.waiting - {t})
      case Handle(m) => HandleMsg(c, m).0
      case ForceTimeout =>
        if c.stalled.None? then c else c.(stalled := None, waiting := c.waiting - {c.stalled.value})
      case Consume(k) => if k < |c.channels| then c.(channels := c.channels[k := Take(c.channels[k])]) else c
      case DropReceiver(k) => if k < |c.channels| then c.(channels := c.channels[k := Abandon(c.channels[k])]) else c
      case Connect => Disconnected(c).(inner := Some(EMPTY), connection := c.connection + 1)
      case Disconnect => Disconnected(c)
  }

  /** The state after a sequence of actions. */
  function Run(c: Client, actions: seq<Action>): (end: Client)
    requires SendersExist(c)
    ensures SendersExist(end)
  {
    if actions == [] then c else Step(Run(c, actions[..|actions| - 1]), actions[|actions| - 1])
  }

  /** The state a fresh client reaches. */
  function Reached(bufferSize: nat, actions: seq<Action>): (end: Client)
    ensures SendersExist(end)
  {
    Run(Init(bufferSize), actions)
  }
}
