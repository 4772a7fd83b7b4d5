/**
The websocket client as an object: the tables of the connection are changed in place, entry by
entry, as the client does while it holds its lock. Every method is proved against the step of the
protocol it carries out.
*/
module DeltasClient {
  import opened Wrappers
  import opened Subscriptions
  import opened SubscriptionInvariant

  class WsDeltasClient {
    const bufferSize: nat
    var connection: nat
    var connected: bool
    var pending: map<Extractor, SubscriptionInfo>
    var subscriptions: map<Uuid, SubscriptionInfo>
    var sender: map<Uuid, nat>
    var requests: seq<Request>
    var replies: map<Token, Reply>
    var waiting: set<Token>
    var channels: seq<Channel>
    var stalled: Option<Token>

    /** The state of the protocol this object stands for. */
    ghost function View(): Client
      reads this
    {
      Client(bufferSize, connection, if connected then Some(Inner(pending, subscriptions, sender)) else None,
             requests, replies, waiting, channels, stalled)
    }

    /** Every sending half leads to a channel. */
    ghost predicate Linked()
      reads this
    {
      SendersExist(View())
    }

    /** What holds whenever nobody is in the middle of an operation. */
    ghost predicate Valid()
      reads this
    {
      Linked() && Inv(View())
    }

    constructor (bufferSize: nat)
      ensures Valid() && View() == Init(bufferSize)
    {
      this.bufferSize := bufferSize;
      connection, connected := 0, false;
      pending, subscriptions, sender := map[], map[], map[];
      requests, replies, waiting, channels, stalled := [], map[], {}, [], None;
    }

    /** Opens a one-shot. */
    method NewToken(request: Request) returns (t: Token)
      modifies this`requests
      ensures t == |old(requests)| && requests == old(requests) + [request]
    {
      t := |requests|;
      requests := requests + [request];
    }

    /** Sends an answer through a one-shot. */
    method Answer(t: Token, reply: Reply)
      modifies this`replies, this`waiting
      ensures View() == Resolve(old(View()), t, reply)
    {
      replies := replies[t := if t in waiting then reply else Dropped];
      waiting := waiting - {t};
    }

    /** The sending half of a one-shot goes away with the entry that held it. */
    method DropEntry(info: SubscriptionInfo)
      modifies this`replies, this`waiting
      ensures View() == if info.Active? then old(View()) else Resolve(old(View()), info.tx, Dropped)
    {
      if !info.Active? { Answer(info.tx, Dropped); }
    }

    method Subscribe(e: Extractor, sent: bool)
      requires Valid() && stalled.None?
      modifies this`requests, this`replies, this`waiting, this`pending
      ensures Valid() && View() == Step(old(View()), DoSubscribe(e, sent))
    {
      StepKeeps(View(), DoSubscribe(e, sent));
      if connected { NewSubscription(e, sent); }
    }

    method NewSubscription(e: Extractor, sent: bool)
      requires connected
      modifies this`requests, this`replies, this`waiting, this`pending
      ensures View() == Subscriptions.NewSubscription(old(View()), e, sent)
    {
      var t := NewToken(Request.Subscribe(e, connection));
      if e in pending {
        replies := replies[t := Dropped];
        return;
      }
      pending := pending[e := RequestedSubscription(t)];
      if sent { waiting := waiting + {t}; }
    }

    method Unsubscribe(id: Uuid, sent: bool)
      requires Valid() && stalled.None?
      modifies this`requests, this`replies, this`waiting, this`subscriptions
      ensures Valid() && View() == Step(old(View()), DoUnsubscribe(id, sent))
    {
      StepKeeps(View(), DoUnsubscribe(id, sent));
      if !connected { return; }
      var _ := EndSubscription(id, Request.Unsubscribe(id, connection, false), sent);
    }

    method MarkActive(e: Extractor, id: Uuid)
      requires connected && Linked()
      modifies this`replies, this`waiting, this`pending, this`subscriptions, this`sender, this`channels
      ensures View() == Subscriptions.MarkActive(old(View()), e, id)
    {
      if e !in pending { return; }
      var info := pending[e];
      pending := pending - {e};
      if info.RequestedSubscription? {
        var k, open := |channels|, info.tx in waiting;
        Answer(info.tx, Subscribed(k));
        if id in subscriptions {
          var overwritten := subscriptions[id];
          assert subscriptions[id := Active] == (subscriptions - {id})[id := Active];
          DropEntry(overwritten);
        }
        assert sender[id := k] == (sender - {id})[id := k];
        sender := sender[id := k];
        subscriptions := subscriptions[id := Active];
        channels := channels + [Channel(id, info.tx, open, [], [], [], [], [], 0, 0)];
      } else {
        DropEntry(info);
      }
    }

    method Send(id: Uuid, msg: Message) returns (result: SendResult)
      requires connected && Linked()
      modifies this`channels
      ensures (View(), result) == Subscriptions.Send(old(View()), id, msg)
    {
      result := Sent;
      if id in sender {
        var k := sender[id];
        var ch := channels[k].(received := channels[k].received + [msg]);
        if !ch.open {
          ch := ch.(refused := ch.refused + 1);
          result := ReceiverGone;
        } else if |ch.buffered| >= bufferSize {
          ch := ch.(refused := ch.refused + 1);
          result := BufferFull;
        } else {
          ch := ch.(picks := ch.picks + [|ch.received| - 1], buffered := ch.buffered + [msg]);
        }
        channels := channels[k := ch];
      }
    }

    method EndSubscription(id: Uuid, request: Request, listening: bool) returns (t: Token)
      requires connected
      modifies this`requests, this`replies, this`waiting, this`subscriptions
      ensures t == |old(requests)|
      ensures View() == Subscriptions.EndSubscription(old(View()), id, request, listening)
    {
      t := NewToken(request);
      if id in subscriptions && subscriptions[id].Active? {
        subscriptions := subscriptions[id := RequestedUnsubscription(t)];
        if listening { waiting := waiting + {t}; }
      } else {
        replies := replies[t := Dropped];
      }
    }

    method RemoveSubscription(id: Uuid) returns (drifted: bool)
      requires connected
      modifies this`replies, this`waiting, this`subscriptions, this`sender
      ensures (View(), drifted) == Subscriptions.RemoveSubscription(old(View()), id)
    {
      drifted := false;
      if id in subscriptions {
        var info := subscriptions[id];
        subscriptions := subscriptions - {id};
        drifted := id !in sender;
        var channel := if drifted then |channels| else sender[id];
        if info.RequestedUnsubscription? {
          Answer(info.tx, Unsubscribed(channel));
        } else {
          DropEntry(info);
        }
        sender := sender - {id};
      }
    }

    method CancelPending(e: Extractor)
      requires connected
      modifies this`replies, this`waiting, this`pending
      ensures View() == Subscriptions.CancelPending(old(View()), e)
    {
      if e in pending {
        var info := pending[e];
        pending := pending - {e};
        if info.RequestedSubscription? {
          Answer(info.tx, Refused);
        } else {
          DropEntry(info);
        }
      }
    }

    method ForceUnsubscribe(id: Uuid, sent: bool)
      requires connected && Linked()
      modifies this`requests, this`replies, this`waiting, this`subscriptions, this`channels, this`stalled
      ensures View() == Subscriptions.ForceUnsubscribe(old(View()), id, sent)
    {
      if id in subscriptions && subscriptions[id].RequestedUnsubscription? { return; }
      if id in sender {
        var k := sender[id];
        channels := channels[k := channels[k].(forced := channels[k].forced + 1)];
      }
      var t := EndSubscription(id, Request.Unsubscribe(id, connection, true), sent);
      if sent && t !in replies { stalled := Some(t); }
    }

    method HandleBlockChanges(id: Uuid, msg: Message, sent: bool) returns (r: Handling)
      requires Linked()
      modifies this`requests, this`replies, this`waiting, this`subscriptions, this`channels, this`stalled
      ensures (View(), r) == Subscriptions.HandleBlockChanges(old(View()), id, msg, sent)
    {
      if !connected { return NotConnectedError; }
      var result := Send(id, msg);
      if !result.Sent? { ForceUnsubscribe(id, sent); }
      r := Handled;
    }

    /** One message of the server, from an idle handler. The invariant of the protocol survives it. */
    method HandleMsg(m: ServerMessage) returns (r: Handling)
      requires Valid() && stalled.None?
      modifies this
      ensures Valid()
      ensures (View(), r) == Subscriptions.HandleMsg(old(View()), m)
    {
      HandleKeeps(View(), m);
      r := Handled;
      match m {
        case Deltas(id, msg, sent) => r := HandleBlockChanges(id, msg, sent);
        case NewSubscriptionMsg(e, id) =>
          if connected { MarkActive(e, id); } else { r := NotConnectedError; }
        case SubscriptionEnded(id) =>
          if connected { r := Finish(id); } else { r := NotConnectedError; }
        case SubscriptionNotFound(id) =>
          if connected { r := Finish(id); } else { r := NotConnectedError; }
        case ExtractorNotFound(e) =>
          if connected { CancelPending(e); } else { r := NotConnectedError; }
        case SubscribeError(e) =>
          if connected { CancelPending(e); } else { r := NotConnectedError; }
        case Ping => if !connected { r := NotConnectedError; }
        case Undecodable =>
        case Pong =>
        case ParseError => r := ServerFailure;
        case CompressionError(_) => r := ServerFailure;
        case CloseFrame => r := ConnectionClosed;
        case SocketClosed => r := ConnectionClosed;
        case SocketAlreadyClosed => r := ConnectionError;
        case SocketIoOrProtocol => r := ConnectionError;
        case SocketOther => r := FatalError;
      }
    }

    method Finish(id: Uuid) returns (r: Handling)
      requires connected
      modifies this`replies, this`waiting, this`subscriptions, this`sender
      ensures (View(), r) == Subscriptions.Remove(old(View()), id)
    {
      var drifted := RemoveSubscription(id);
      r := if drifted then FatalError else Handled;
    }

    /** A new connection with empty tables; whatever the old ones held is dropped with them. */
    method Connect()
      requires Valid() && stalled.None?
      modifies this
      ensures Valid() && View() == Step(old(View()), Action.Connect)
    {
      StepKeeps(View(), Action.Connect);
      Install();
    }

    method Install()
      modifies this
      ensures View() == Disconnected(old(View())).(inner := Some(EMPTY), connection := old(connection) + 1)
    {
      DropTables();
      connection, connected := connection + 1, true;
      pending, subscriptions, sender := map[], map[], map[];
    }

    /** The connection is lost. */
    method Disconnect()
      requires Valid() && stalled.None?
      modifies this
      ensures Valid() && View() == Step(old(View()), Action.Disconnect)
    {
      StepKeeps(View(), Action.Disconnect);
      DropTables();
    }

    method DropTables()
      modifies this`replies, this`waiting, this`connected
      ensures View() == Disconnected(old(View()))
    {
      if connected {
        var held := HeldTokens(Inner(pending, subscriptions, sender));
        replies := replies + map t | t in held :: Dropped;
        waiting := waiting - held;
        connected := false;
      }
    }

    /** The handler stops waiting for the answer to a forced end. */
    method TimeOut()
      requires Valid()
      modifies this`stalled, this`waiting
      ensures Valid() && View() == Step(old(View()), ForceTimeout)
    {
      StepKeeps(View(), ForceTimeout);
      if stalled.Some? { Resume(stalled.value); }
    }

    method Resume(t: Token)
      modifies this`stalled, this`waiting
      ensures View() == old(View()).(stalled := None, waiting := old(waiting) - {t})
    {
      waiting := waiting - {t};
      stalled := None;
    }

    /** Somebody stops listening for an answer. */
    method StopListening(t: Token)
      requires Valid()
      modifies this`waiting
      ensures Valid() && View() == Step(old(View()), GiveUp(t))
    {
      StepKeeps(View(), GiveUp(t));
      waiting := waiting - {t};
    }

    /** A consumer takes the next message out of its buffer. */
    method Receive(k: nat)
      requires Valid()
      modifies this`channels
      ensures Valid() && View() == Step(old(View()), Consume(k))
    {
      StepKeeps(View(), Consume(k));
      if k < |channels| {
        var ch := channels[k];
        if ch.open && ch.buffered != [] {
          ch := ch.(consumed := ch.consumed + [ch.buffered[0]], buffered := ch.buffered[1..]);
        }
        channels := channels[k := ch];
      }
    }

    /** A consumer goes away. */
    method DropReceiver(k: nat)
      requires Valid()
      modifies this`channels
      ensures Valid() && View() == Step(old(View()), Action.DropReceiver(k))
    {
      StepKeeps(View(), Action.DropReceiver(k));
      if k < |channels| {
        var ch := channels[k];
        channels := channels[k := ch.(open := false, lost := ch.lost + ch.buffered, buffered := [])];
      }
    }

    /** Any action; one that needs the lock waits while the handler keeps it. */
    method Perform(a: Action)
      requires Valid()
      modifies this
      ensures Valid() && View() == Step(old(View()), a)
    {
      if stalled.Some? && NeedsLock(a) { return; }
      match a {
        case DoSubscribe(e, sent) => Subscribe(e, sent);
        case DoUnsubscribe(id, sent) => Unsubscribe(id, sent);
        case GiveUp(t) => StopListening(t);
        case Handle(m) => var _ := HandleMsg(m);
        case ForceTimeout => TimeOut();
        case Consume(k) => Receive(k);
        case DropReceiver(k) => DropReceiver(k);
        case Connect => Connect();
        case Disconnect => Disconnect();
      }
    }

    /** Driven by any sequence of actions, the object goes where the protocol goes. */
    method PerformAll(actions: seq<Action>)
      requires Valid()
      modifies this
      ensures Valid() && View() == Run(old(View()), actions)
    {
      for i := 0 to |actions|
        invariant Valid() && View() == Run(old(View()), actions[..i])
      {
        assert actions[..i + 1][..i] == actions[..i];
        Perform(actions[i]);
      }
      assert actions[..|actions|] == actions;
    }
  }

  /** Every state the protocol can reach is the state of an object that was driven there. */
  method Reach(bufferSize: nat, actions: seq<Action>) returns (client: WsDeltasClient)
    ensures fresh(client) && client.Valid() && client.View() == Reached(bufferSize, actions)
  {
    client := new WsDeltasClient(bufferSize);
    client.PerformAll(actions);
  }
}
