/**
What the actions of the subscription protocol bring about, in every run: causes bring their answers, requests
stay open until something answers them, consumers get what is buffered for them.
*/
module SubscriptionEffects {
  import opened Wrappers
  import opened Subscriptions
  import opened SubscriptionInvariant
  import opened SubscriptionTheorems

  // ------------------------------------------------------------------ causes bring their answers

  lemma ActivationAnswers(c: Client, e: Extractor, id: Uuid, t: Token, reply: Reply)
    requires TableInv(c) && SendersExist(c) && Causes(c, Handle(NewSubscriptionMsg(e, id)), t, reply)
    ensures var next := MarkActive(c, e, id);
            && t in next.replies && next.replies[t] == reply == Subscribed(|c.channels|)
            && next.inner.Some? && e !in next.inner.value.pending
            && IsActive(next.inner, id) && id in next.inner.value.sender && next.inner.value.sender[id] == |c.channels|
            && |next.channels| == |c.channels| + 1
            && next.channels[|c.channels|] == Channel(id, t, true, [], [], [], [], [], 0, 0)
  {}

  lemma EndAnswers(c: Client, id: Uuid, t: Token, reply: Reply)
    requires TableInv(c) && SendersExist(c)
    requires Causes(c, Handle(SubscriptionEnded(id)), t, reply) || Causes(c, Handle(SubscriptionNotFound(id)), t, reply)
    ensures var next := RemoveSubscription(c, id).0; t in next.replies && next.replies[t] == reply
  {}

  lemma CancelAnswersBack(c: Client, e: Extractor, t: Token, reply: Reply)
    requires TableInv(c) && SendersExist(c)
    requires Causes(c, Handle(ExtractorNotFound(e)), t, reply) || Causes(c, Handle(SubscribeError(e)), t, reply)
    requires IsHeld(c.inner, c.connection, t, c.requests[t])
    ensures var next := CancelPending(c, e); t in next.replies && next.replies[t] == reply
  {}

  /** Whoever is to be told something by a message is told it. */
  lemma CausesBringAnswers(bufferSize: nat, actions: seq<Action>, a: Action, t: Token, reply: Reply)
    requires Causes(Reached(bufferSize, actions), a, t, reply)
    ensures var next := Reached(bufferSize, actions + [a]); t in next.replies && next.replies[t] == reply
  {
    ReachedOk(bufferSize, actions);
    RunOne(bufferSize, actions, a);
    CausesBring(Reached(bufferSize, actions), a, t, reply);
  }

  lemma CausesBring(c: Client, a: Action, t: Token, reply: Reply)
    requires TableInv(c) && HeldInv(c) && SendersExist(c) && Causes(c, a, t, reply)
    ensures t in Step(c, a).replies && Step(c, a).replies[t] == reply
  {
    match a.message {
      case NewSubscriptionMsg(e, id) => ActivationAnswers(c, e, id, t, reply);
      case SubscriptionEnded(id) => EndAnswers(c, id, t, reply);
      case SubscriptionNotFound(id) => EndAnswers(c, id, t, reply);
      case ExtractorNotFound(e) => CancelAnswersBack(c, e, t, reply);
      case SubscribeError(e) => CancelAnswersBack(c, e, t, reply);
    }
  }

  /** The end of a subscription takes it, and nothing else, out of both tables. */
  lemma EndedIsGone(bufferSize: nat, actions: seq<Action>, id: Uuid, m: ServerMessage)
    requires m == SubscriptionEnded(id) || m == SubscriptionNotFound(id)
    requires Reached(bufferSize, actions).stalled.None? && Reached(bufferSize, actions).inner.Some?
    ensures var c, next := Reached(bufferSize, actions), Reached(bufferSize, actions + [Handle(m)]);
            && next.inner.Some?
            && next.inner.value.subscriptions == c.inner.value.subscriptions - {id}
            && next.inner.value.sender == c.inner.value.sender - {id}
            && next.inner.value.pending == c.inner.value.pending
            && next.channels == c.channels
  {
    ReachedOk(bufferSize, actions);
    RunOne(bufferSize, actions, Handle(m));
    RemovedIs(Reached(bufferSize, actions), id);
  }

  lemma RemovedIs(c: Client, id: Uuid)
    requires TableInv(c) && c.inner.Some?
    ensures var next := RemoveSubscription(c, id).0;
            && next.inner.Some? && next.channels == c.channels
            && next.inner.value.subscriptions == c.inner.value.subscriptions - {id}
            && next.inner.value.sender == c.inner.value.sender - {id}
            && next.inner.value.pending == c.inner.value.pending
  {}

  // ------------------------------------------------------------------ a subscriber's way

  /** Token `t` waits for the confirmation of `e`. */
  ghost predicate AwaitsStart(c: Client, e: Extractor, t: Token) {
    && c.inner.Some? && e in c.inner.value.pending && c.inner.value.pending[e] == RequestedSubscription(t)
    && t in c.waiting && t < |c.requests| && c.requests[t] == Subscribe(e, c.connection) && t !in c.replies
  }

  /** What may settle a request for `e`: a message about it, or the connection. */
  predicate SettlesStart(a: Action, e: Extractor) {
    || a.Connect? || a.Disconnect?
    || (a.Handle? && (a.message.NewSubscriptionMsg? || a.message.ExtractorNotFound? || a.message.SubscribeError?)
        && a.message.extractor == e)
  }

  lemma StartIsAwaited(c: Client, e: Extractor)
    requires Inv(c) && SendersExist(c) && c.stalled.None? && c.inner.Some? && e !in c.inner.value.pending
    ensures AwaitsStart(Step(c, DoSubscribe(e, true)), e, |c.requests|)
  {}

  lemma HandledStartStays(c: Client, m: ServerMessage, e: Extractor, t: Token)
    requires TableInv(c) && SendersExist(c) && c.stalled.None? && AwaitsStart(c, e, t) && !SettlesStart(Handle(m), e)
    ensures AwaitsStart(HandleMsg(c, m).0, e, t)
  {
    match m
    case Deltas(id, msg, sent) => DeltasLeaveStart(c, id, msg, sent, e, t);
    case NewSubscriptionMsg(f, id) => ActivationLeavesStart(c, f, id, e, t);
    case SubscriptionEnded(id) => EndLeavesStart(c, id, e, t);
    case SubscriptionNotFound(id) => EndLeavesStart(c, id, e, t);
    case ExtractorNotFound(f) => CancelLeavesStart(c, f, e, t);
    case SubscribeError(f) => CancelLeavesStart(c, f, e, t);
    case _ =>
  }

  lemma DeltasLeaveStart(c: Client, id: Uuid, msg: Message, sent: bool, e: Extractor, t: Token)
    requires SendersExist(c) && AwaitsStart(c, e, t)
    ensures AwaitsStart(HandleBlockChanges(c, id, msg, sent).0, e, t)
  {}

  lemma ActivationLeavesStart(c: Client, f: Extractor, id: Uuid, e: Extractor, t: Token)
    requires TableInv(c) && AwaitsStart(c, e, t) && f != e
    ensures AwaitsStart(MarkActive(c, f, id), e, t)
  {}

  lemma EndLeavesStart(c: Client, id: Uuid, e: Extractor, t: Token)
    requires TableInv(c) && AwaitsStart(c, e, t)
    ensures AwaitsStart(RemoveSubscription(c, id).0, e, t)
  {}

  lemma CancelLeavesStart(c: Client, f: Extractor, e: Extractor, t: Token)
    requires TableInv(c) && AwaitsStart(c, e, t) && f != e
    ensures AwaitsStart(CancelPending(c, f), e, t)
  {}

  lemma AwaitedStartStays(c: Client, a: Action, e: Extractor, t: Token)
    requires TableInv(c) && SendersExist(c) && AwaitsStart(c, e, t) && !SettlesStart(a, e) && a != GiveUp(t)
    ensures AwaitsStart(Step(c, a), e, t)
  {
    if a.Handle? && c.stalled.None? { HandledStartStays(c, a.message, e, t); }
  }

  lemma {:induction false} AwaitedStartStaysLong(c: Client, later: seq<Action>, e: Extractor, t: Token)
    requires Inv(c) && SendersExist(c) && AwaitsStart(c, e, t)
    requires forall a <- later :: !SettlesStart(a, e) && a != GiveUp(t)
    ensures Inv(Run(c, later)) && AwaitsStart(Run(c, later), e, t)
  {
    if later == [] {
    } else {
      var init, last := later[..|later| - 1], later[|later| - 1];
      assert last in later;
      AwaitedStartStaysLong(c, init, e, t);
      StepKeeps(Run(c, init), last);
      AwaitedStartStays(Run(c, init), last, e, t);
    }
  }

  lemma StartIsAwaitedLong(bufferSize: nat, actions: seq<Action>, e: Extractor, later: seq<Action>)
    requires var c := Reached(bufferSize, actions); c.stalled.None? && c.inner.Some? && e !in c.inner.value.pending
    requires var t := |Reached(bufferSize, actions).requests|;
             forall a <- later :: !SettlesStart(a, e) && a != GiveUp(t)
    ensures var end := Reached(bufferSize, actions + [DoSubscribe(e, true)] + later);
            TableInv(end) && AwaitsStart(end, e, |Reached(bufferSize, actions).requests|)
  {
    var start, asked := Reached(bufferSize, actions), Reached(bufferSize, actions + [DoSubscribe(e, true)]);
    ReachedOk(bufferSize, actions);
    RunOne(bufferSize, actions, DoSubscribe(e, true));
    StartIsAwaited(start, e);
    ReachedOk(bufferSize, actions + [DoSubscribe(e, true)]);
    AwaitedStartStaysLong(asked, later, e, |start.requests|);
    RunAppends(Init(bufferSize), actions + [DoSubscribe(e, true)], later);
  }

  /**
  A subscriber that keeps listening is told of the confirmation whenever it comes, whatever happens in
  between short of another answer or the loss of the connection; from then on the subscription is active
  and has a channel of its own, open and empty.
  */
  lemma SubscriberIsTold(bufferSize: nat, actions: seq<Action>, e: Extractor, later: seq<Action>, id: Uuid)
    requires var c := Reached(bufferSize, actions); c.stalled.None? && c.inner.Some? && e !in c.inner.value.pending
    requires var t := |Reached(bufferSize, actions).requests|;
             forall a <- later :: !SettlesStart(a, e) && a != GiveUp(t)
    requires Reached(bufferSize, actions + [DoSubscribe(e, true)] + later).stalled.None?
    ensures var t, before := |Reached(bufferSize, actions).requests|, actions + [DoSubscribe(e, true)] + later;
            var c := Reached(bufferSize, before);
            var end := Reached(bufferSize, before + [Handle(NewSubscriptionMsg(e, id))]);
            && t in end.replies && end.replies[t] == Subscribed(|c.channels|)
            && IsActive(end.inner, id) && id in end.inner.value.sender && end.inner.value.sender[id] == |c.channels|
            && |end.channels| == |c.channels| + 1
            && end.channels[|c.channels|] == Channel(id, t, true, [], [], [], [], [], 0, 0)
  {
    var t := |Reached(bufferSize, actions).requests|;
    StartIsAwaitedLong(bufferSize, actions, e, later);
    var before := actions + [DoSubscribe(e, true)] + later;
    var c := Reached(bufferSize, before);
    RunOne(bufferSize, before, Handle(NewSubscriptionMsg(e, id)));
    ActivationAnswers(c, e, id, t, Subscribed(|c.channels|));
  }

  /** The same subscriber is told of a refusal. */
  lemma SubscriberIsRefused(bufferSize: nat, actions: seq<Action>, e: Extractor, later: seq<Action>, m: ServerMessage)
    requires m == ExtractorNotFound(e) || m == SubscribeError(e)
    requires var c := Reached(bufferSize, actions); c.stalled.None? && c.inner.Some? && e !in c.inner.value.pending
    requires var t := |Reached(bufferSize, actions).requests|;
             forall a <- later :: !SettlesStart(a, e) && a != GiveUp(t)
    requires Reached(bufferSize, actions + [DoSubscribe(e, true)] + later).stalled.None?
    ensures var t, before := |Reached(bufferSize, actions).requests|, actions + [DoSubscribe(e, true)] + later;
            var end := Reached(bufferSize, before + [Handle(m)]);
            t in end.replies && end.replies[t] == Refused && end.inner.Some? && e !in end.inner.value.pending
  {
    var t := |Reached(bufferSize, actions).requests|;
    StartIsAwaitedLong(bufferSize, actions, e, later);
    var before := actions + [DoSubscribe(e, true)] + later;
    RunOne(bufferSize, before, Handle(m));
  }

  // ------------------------------------------------------------------ an unsubscriber's way

  /** Token `t` waits for the end of `id`. */
  ghost predicate AwaitsEnd(c: Client, id: Uuid, t: Token, k: nat) {
    && c.inner.Some? && id in c.inner.value.subscriptions
    && c.inner.value.subscriptions[id] == RequestedUnsubscription(t)
    && id in c.inner.value.sender && c.inner.value.sender[id] == k
    && t in c.waiting && t < |c.requests| && t !in c.replies && c.stalled != Some(t)
  }

  predicate SettlesEnd(a: Action, id: Uuid) {
    || a.Connect? || a.Disconnect?
    || (a.Handle? && (a.message.NewSubscriptionMsg? || a.message.SubscriptionEnded? || a.message.SubscriptionNotFound?)
        && a.message.id == id)
  }

  /** An active subscription starts to end when its user asks. */
  lemma EndIsAwaited(c: Client, id: Uuid)
    requires Inv(c) && SendersExist(c) && c.stalled.None? && IsActive(c.inner, id)
    ensures AwaitsEnd(Step(c, DoUnsubscribe(id, true)), id, |c.requests|, c.inner.value.sender[id])
  {}

  lemma HandledEndStays(c: Client, m: ServerMessage, id: Uuid, t: Token, k: nat)
    requires TableInv(c) && SendersExist(c) && c.stalled.None? && AwaitsEnd(c, id, t, k) && !SettlesEnd(Handle(m), id)
    ensures AwaitsEnd(HandleMsg(c, m).0, id, t, k)
  {
    if m.Deltas? {
      DeltasLeaveEnd(c, m.id, m.msg, m.sent, id, t, k);
    } else if m.NewSubscriptionMsg? {
      ActivationLeavesEnd(c, m.extractor, m.id, id, t, k);
    } else {
      OthersLeaveEnd(c, m, id, t, k);
    }
  }

  lemma OthersLeaveEnd(c: Client, m: ServerMessage, id: Uuid, t: Token, k: nat)
    requires TableInv(c) && SendersExist(c) && AwaitsEnd(c, id, t, k)
    requires !SettlesEnd(Handle(m), id) && !m.Deltas? && !m.NewSubscriptionMsg?
    ensures AwaitsEnd(HandleMsg(c, m).0, id, t, k)
  {
    if m.SubscriptionEnded? || m.SubscriptionNotFound? {
      EndMessageLeavesEnd(c, m, id, t, k);
    } else if m.ExtractorNotFound? || m.SubscribeError? {
      CancelLeavesEnd(c, m.extractor, id, t, k);
    } else {
      assert HandleMsg(c, m).0 == c;
    }
  }

  lemma EndMessageLeavesEnd(c: Client, m: ServerMessage, id: Uuid, t: Token, k: nat)
    requires TableInv(c) && SendersExist(c) && AwaitsEnd(c, id, t, k)
    requires (m.SubscriptionEnded? || m.SubscriptionNotFound?) && m.id != id
    ensures AwaitsEnd(HandleMsg(c, m).0, id, t, k)
  {
    assert HandleMsg(c, m).0 == RemoveSubscription(c, m.id).0;
    EndLeavesEnd(c, m.id, id, t, k);
  }

  lemma DeltasLeaveEnd(c: Client, other: Uuid, msg: Message, sent: bool, id: Uuid, t: Token, k: nat)
    requires SendersExist(c) && c.stalled.None? && AwaitsEnd(c, id, t, k)
    ensures AwaitsEnd(HandleBlockChanges(c, other, msg, sent).0, id, t, k)
  {}

  lemma ActivationLeavesEnd(c: Client, e: Extractor, other: Uuid, id: Uuid, t: Token, k: nat)
    requires TableInv(c) && AwaitsEnd(c, id, t, k) && other != id
    ensures AwaitsEnd(MarkActive(c, e, other), id, t, k)
  {}

  lemma EndLeavesEnd(c: Client, other: Uuid, id: Uuid, t: Token, k: nat)
    requires TableInv(c) && AwaitsEnd(c, id, t, k) && other != id
    ensures AwaitsEnd(RemoveSubscription(c, other).0, id, t, k)
  {}

  lemma CancelLeavesEnd(c: Client, e: Extractor, id: Uuid, t: Token, k: nat)
    requires TableInv(c) && AwaitsEnd(c, id, t, k)
    ensures AwaitsEnd(CancelPending(c, e), id, t, k)
  {}

  lemma EndTells(c: Client, id: Uuid, t: Token, k: nat)
    requires TableInv(c) && AwaitsEnd(c, id, t, k)
    ensures var next := RemoveSubscription(c, id).0; t in next.replies && next.replies[t] == Unsubscribed(k)
  {}

  lemma AwaitedEndStays(c: Client, a: Action, id: Uuid, t: Token, k: nat)
    requires TableInv(c) && SendersExist(c) && AwaitsEnd(c, id, t, k) && !SettlesEnd(a, id) && a != GiveUp(t)
    ensures AwaitsEnd(Step(c, a), id, t, k)
  {
    if a.Handle? && c.stalled.None? { HandledEndStays(c, a.message, id, t, k); }
  }

  lemma {:induction false} AwaitedEndStaysLong(c: Client, later: seq<Action>, id: Uuid, t: Token, k: nat)
    requires Inv(c) && SendersExist(c) && AwaitsEnd(c, id, t, k)
    requires forall a <- later :: !SettlesEnd(a, id) && a != GiveUp(t)
    ensures Inv(Run(c, later)) && AwaitsEnd(Run(c, later), id, t, k)
  {
    if later == [] {
    } else {
      var init, last := later[..|later| - 1], later[|later| - 1];
      assert last in later;
      AwaitedEndStaysLong(c, init, id, t, k);
      StepKeeps(Run(c, init), last);
      AwaitedEndStays(Run(c, init), last, id, t, k);
    }
  }

  /** The unsubscriber of an active subscription that keeps listening is told of its end whenever it comes. */
  lemma UnsubscriberIsTold(bufferSize: nat, actions: seq<Action>, id: Uuid, later: seq<Action>, m: ServerMessage)
    requires m == SubscriptionEnded(id) || m == SubscriptionNotFound(id)
    requires Reached(bufferSize, actions).stalled.None? && IsActive(Reached(bufferSize, actions).inner, id)
    requires var t := |Reached(bufferSize, actions).requests|;
             forall a <- later :: !SettlesEnd(a, id) && a != GiveUp(t)
    requires Reached(bufferSize, actions + [DoUnsubscribe(id, true)] + later).stalled.None?
    ensures id in Reached(bufferSize, actions).inner.value.sender
    ensures var c, before := Reached(bufferSize, actions), actions + [DoUnsubscribe(id, true)] + later;
            var end := Reached(bufferSize, before + [Handle(m)]);
            |c.requests| in end.replies && end.replies[|c.requests|] == Unsubscribed(c.inner.value.sender[id])
  {
    EndIsAwaitedLong(bufferSize, actions, id, later);
    var c, before := Reached(bufferSize, actions), actions + [DoUnsubscribe(id, true)] + later;
    RunOne(bufferSize, before, Handle(m));
    EndTells(Reached(bufferSize, before), id, |c.requests|, c.inner.value.sender[id]);
  }

  lemma EndIsAwaitedLong(bufferSize: nat, actions: seq<Action>, id: Uuid, later: seq<Action>)
    requires Reached(bufferSize, actions).stalled.None? && IsActive(Reached(bufferSize, actions).inner, id)
    requires var t := |Reached(bufferSize, actions).requests|;
             forall a <- later :: !SettlesEnd(a, id) && a != GiveUp(t)
    ensures id in Reached(bufferSize, actions).inner.value.sender
    ensures var c := Reached(bufferSize, actions);
            var end := Reached(bufferSize, actions + [DoUnsubscribe(id, true)] + later);
            TableInv(end) && AwaitsEnd(end, id, |c.requests|, c.inner.value.sender[id])
  {
    var start, asked := Reached(bufferSize, actions), Reached(bufferSize, actions + [DoUnsubscribe(id, true)]);
    ReachedOk(bufferSize, actions);
    RunOne(bufferSize, actions, DoUnsubscribe(id, true));
    EndIsAwaited(start, id);
    ReachedOk(bufferSize, actions + [DoUnsubscribe(id, true)]);
    AwaitedEndStaysLong(asked, later, id, |start.requests|, start.inner.value.sender[id]);
    RunAppends(Init(bufferSize), actions + [DoUnsubscribe(id, true)], later);
  }

  // ------------------------------------------------------------------ those who do not listen

  /** Nobody listens for `t`, and it was told nothing. */
  ghost predicate Unheard(c: Client, t: Token) {
    t < |c.requests| && t !in c.waiting && (t in c.replies ==> c.replies[t].Dropped?)
  }

  lemma UnheardAnswers(c: Client, m: ServerMessage, t: Token)
    requires Inv(c) && SendersExist(c) && c.stalled.None? && Unheard(c, t)
    ensures Unheard(HandleMsg(c, m).0, t)
  {
    HandleAnswers(c, m, t);
    HandleListens(c, m, t);
  }

  /** Handling a message makes nobody listen but for a request it makes itself. */
  lemma HandleListens(c: Client, m: ServerMessage, t: Token)
    requires SendersExist(c) && t < |c.requests|
    ensures t < |HandleMsg(c, m).0.requests| && (t in HandleMsg(c, m).0.waiting ==> t in c.waiting)
  {}

  lemma UnheardStays(c: Client, a: Action, t: Token)
    requires Inv(c) && SendersExist(c) && Unheard(c, t)
    ensures Unheard(Step(c, a), t)
  {
    if c.stalled.Some? && NeedsLock(a) {
    } else if a.Handle? {
      UnheardAnswers(c, a.message, t);
    } else if a.Connect? || a.Disconnect? {
      UnheardOfLostConnection(c, t);
    } else {
      UnheardElsewhere(c, a, t);
    }
  }

  lemma UnheardElsewhere(c: Client, a: Action, t: Token)
    requires SendersExist(c) && Unheard(c, t) && !a.Handle? && !a.Connect? && !a.Disconnect?
    ensures Unheard(Step(c, a), t)
  {}

  lemma UnheardOfLostConnection(c: Client, t: Token)
    requires Inv(c) && Unheard(c, t)
    ensures Unheard(Disconnected(c), t)
  {
    if c.inner.Some? { HeldIsUnanswered(c, t); }
  }

  lemma {:induction false} UnheardStaysLong(c: Client, later: seq<Action>, t: Token)
    requires Inv(c) && SendersExist(c) && Unheard(c, t)
    ensures Inv(Run(c, later)) && Unheard(Run(c, later), t)
  {
    if later == [] {
    } else {
      var init, last := later[..|later| - 1], later[|later| - 1];
      UnheardStaysLong(c, init, t);
      StepKeeps(Run(c, init), last);
      UnheardStays(Run(c, init), last, t);
    }
  }

  /** The action leaves token `t` without a listener: it gave up, its command did not leave, or it waited too long. */
  ghost predicate StopsListening(c: Client, a: Action, t: Token) {
    || (a == GiveUp(t) && t < |c.requests|)
    || (a == ForceTimeout && c.stalled == Some(t))
    || ((a.DoSubscribe? || a.DoUnsubscribe?) && !a.sent && c.stalled.None? && c.inner.Some? && t == |c.requests|)
  }

  /** Whoever stopped listening is told nothing any more, in any continuation. */
  lemma UnheardIsNeverTold(bufferSize: nat, actions: seq<Action>, a: Action, t: Token, later: seq<Action>)
    requires StopsListening(Reached(bufferSize, actions), a, t) && t !in Reached(bufferSize, actions).replies
    ensures Unheard(Reached(bufferSize, actions + [a] + later), t)
  {
    var c := Reached(bufferSize, actions);
    ReachedOk(bufferSize, actions);
    RunOne(bufferSize, actions, a);
    StoppedIsUnheard(c, a, t);
    ReachedOk(bufferSize, actions + [a]);
    UnheardStaysLong(Reached(bufferSize, actions + [a]), later, t);
    RunAppends(Init(bufferSize), actions + [a], later);
  }

  lemma StoppedIsUnheard(c: Client, a: Action, t: Token)
    requires Inv(c) && SendersExist(c) && StopsListening(c, a, t) && t !in c.replies
    ensures Unheard(Step(c, a), t)
  {}

  /** A second subscriber for one extractor, and an unsubscriber of what is not active, are dropped at once. */
  lemma LatecomersAreDropped(bufferSize: nat, actions: seq<Action>, a: Action)
    requires var c := Reached(bufferSize, actions);
             && c.stalled.None? && c.inner.Some?
             && ((a.DoSubscribe? && a.extractor in c.inner.value.pending)
                 || (a.DoUnsubscribe? && !IsActive(c.inner, a.id)))
    ensures var c, next := Reached(bufferSize, actions), Reached(bufferSize, actions + [a]);
            next.inner == c.inner && next.waiting == c.waiting && next.replies == c.replies[|c.requests| := Dropped]
  {
    RunOne(bufferSize, actions, a);
  }

  /** Whether or not its command leaves, a new request takes its place in the tables. */
  lemma RequestsTakeTheirPlace(bufferSize: nat, actions: seq<Action>, e: Extractor, id: Uuid, sent: bool)
    requires var c := Reached(bufferSize, actions); c.stalled.None? && c.inner.Some?
    ensures var c, next := Reached(bufferSize, actions), Reached(bufferSize, actions + [DoSubscribe(e, sent)]);
            e !in c.inner.value.pending ==>
              && next.inner.Some?
              && next.inner.value.pending == c.inner.value.pending[e := RequestedSubscription(|c.requests|)]
              && next.inner.value.subscriptions == c.inner.value.subscriptions
              && next.inner.value.sender == c.inner.value.sender
    ensures var c, next := Reached(bufferSize, actions), Reached(bufferSize, actions + [DoUnsubscribe(id, sent)]);
            IsActive(c.inner, id) ==>
              && next.inner.Some? && !IsActive(next.inner, id)
              && next.inner.value.subscriptions
                 == c.inner.value.subscriptions[id := RequestedUnsubscription(|c.requests|)]
              && next.inner.value.sender == c.inner.value.sender && next.inner.value.pending == c.inner.value.pending
  {
    RunOne(bufferSize, actions, DoSubscribe(e, sent));
    RunOne(bufferSize, actions, DoUnsubscribe(id, sent));
  }

  // ------------------------------------------------------------------ connections

  /** Losing the connection empties the tables and drops every request that was not answered. */
  lemma ConnectionLossDropsAll(bufferSize: nat, actions: seq<Action>, a: Action, t: Token)
    requires a == Connect || a == Disconnect
    requires var c := Reached(bufferSize, actions); c.stalled.None? && t < |c.requests|
    ensures var c, next := Reached(bufferSize, actions), Reached(bufferSize, actions + [a]);
            && next.inner == (if a == Connect then Some(EMPTY) else None)
            && next.connection == c.connection + (if a == Connect then 1 else 0)
            && next.channels == c.channels && next.requests == c.requests
            && t in next.replies && next.replies[t] == if t in c.replies then c.replies[t] else Dropped
  {
    var c := Reached(bufferSize, actions);
    ReachedOk(bufferSize, actions);
    RunOne(bufferSize, actions, a);
    if c.inner.Some? { HeldIsUnanswered(c, t); }
  }

  // ------------------------------------------------------------------ consumers

  /** `n` times the next message. */
  function Consumes(k: nat, n: nat): seq<Action> {
    seq(n, i => Consume(k))
  }

  lemma TakeEffect(c: Client, k: nat)
    requires SendersExist(c) && k < |c.channels| && c.channels[k].open
    ensures var ch, next := c.channels[k], Step(c, Consume(k)).channels;
            && |next| == |c.channels| && next[k].open
            && next[k].consumed == ch.consumed + (if ch.buffered == [] then [] else [ch.buffered[0]])
            && next[k].buffered == if ch.buffered == [] then [] else ch.buffered[1..]
  {}

  lemma RunOneFrom(c: Client, actions: seq<Action>, a: Action)
    requires SendersExist(c)
    ensures Run(c, actions + [a]) == Step(Run(c, actions), a)
  {
    assert (actions + [a])[..|actions|] == actions;
  }

  lemma OneMoreTaken(consumed: seq<Message>, buffered: seq<Message>, n: nat)
    requires n < |buffered|
    ensures consumed + buffered[..n] + [buffered[n..][0]] == consumed + buffered[..n + 1]
    ensures buffered[n..][1..] == buffered[n + 1..]
  {}

  /** A consumer that reads on gets what is buffered for it, in order and to the last message. */
  lemma {:induction false} ConsumerGetsItsBuffer(c: Client, k: nat, n: nat)
    requires SendersExist(c) && k < |c.channels| && c.channels[k].open && n <= |c.channels[k].buffered|
    ensures var ch, end := c.channels[k], Run(c, Consumes(k, n)).channels;
            && |end| == |c.channels| && end[k].open
            && end[k].consumed == ch.consumed + ch.buffered[..n] && end[k].buffered == ch.buffered[n..]
  {
    if n == 0 {
      assert Consumes(k, 0) == [];
    } else {
      ConsumerGetsItsBuffer(c, k, n - 1);
      TakeEffect(Run(c, Consumes(k, n - 1)), k);
      RunOneFrom(c, Consumes(k, n - 1), Consume(k));
      assert Consumes(k, n) == Consumes(k, n - 1) + [Consume(k)];
      OneMoreTaken(c.channels[k].consumed, c.channels[k].buffered, n - 1);
    }
  }

  /** The consumer of this channel went away. */
  ghost predicate Abandoned(c: Client, k: nat, consumed: seq<Message>) {
    k < |c.channels| && !c.channels[k].open && c.channels[k].buffered == [] && c.channels[k].consumed == consumed
  }

  lemma AbandonedStays(c: Client, a: Action, k: nat, consumed: seq<Message>)
    requires SendersExist(c) && Abandoned(c, k, consumed)
    ensures Abandoned(Step(c, a), k, consumed)
  {
    if a.Handle? && c.stalled.None? {
      HandledAbandonedStays(c, a.message, k, consumed);
    }
  }

  lemma HandledAbandonedStays(c: Client, m: ServerMessage, k: nat, consumed: seq<Message>)
    requires SendersExist(c) && Abandoned(c, k, consumed)
    ensures Abandoned(HandleMsg(c, m).0, k, consumed)
  {
    if c.inner.Some? && m.Deltas? {
      DeltasLeaveAbandoned(c, m.id, m.msg, m.sent, k, consumed);
    }
  }

  lemma DeltasLeaveAbandoned(c: Client, id: Uuid, msg: Message, sent: bool, k: nat, consumed: seq<Message>)
    requires SendersExist(c) && c.inner.Some? && Abandoned(c, k, consumed)
    ensures Abandoned(HandleBlockChanges(c, id, msg, sent).0, k, consumed)
  {}

  /** A receiver that was dropped gets nothing more, in any continuation. */
  lemma {:induction false} DroppedReceiverGetsNothing(bufferSize: nat, actions: seq<Action>, k: nat, later: seq<Action>)
    requires k < |Reached(bufferSize, actions).channels|
    ensures Abandoned(Run(Reached(bufferSize, actions + [DropReceiver(k)]), later), k,
                      Reached(bufferSize, actions).channels[k].consumed)
  {
    RunOne(bufferSize, actions, DropReceiver(k));
    if later == [] {
    } else {
      var init, last := later[..|later| - 1], later[|later| - 1];
      DroppedReceiverGetsNothing(bufferSize, actions, k, init);
      AbandonedStays(Run(Reached(bufferSize, actions + [DropReceiver(k)]), init), last, k,
                     Reached(bufferSize, actions).channels[k].consumed);
    }
  }

  /** Where an open channel of the next state comes from: it was open before, or a listener is told of it now. */
  lemma OpenStep(c: Client, a: Action, k: nat)
    requires TableInv(c) && SendersExist(c) && k < |Step(c, a).channels| && Step(c, a).channels[k].open
    ensures k < |c.channels| ==> c.channels[k].open && c.channels[k].opener == Step(c, a).channels[k].opener
    ensures k >= |c.channels| ==>
      var next, t := Step(c, a), Step(c, a).channels[k].opener;
      t in next.replies && next.replies[t] == Subscribed(k)
  {
    if a.Handle? && c.stalled.None? && c.inner.Some? && a.message.NewSubscriptionMsg? {
      OpenActivation(c, a.message.extractor, a.message.id, k);
    }
    if a.Handle? && c.stalled.None? && c.inner.Some? && a.message.Deltas? {
      OpenDeltas(c, a.message.id, a.message.msg, a.message.sent, k);
    }
  }

  lemma OpenActivation(c: Client, e: Extractor, id: Uuid, k: nat)
    requires TableInv(c) && c.inner.Some?
    requires k < |MarkActive(c, e, id).channels| && MarkActive(c, e, id).channels[k].open
    ensures k < |c.channels| ==> MarkActive(c, e, id).channels[k] == c.channels[k]
    ensures k >= |c.channels| ==>
      var next, t := MarkActive(c, e, id), MarkActive(c, e, id).channels[k].opener;
      t in next.replies && next.replies[t] == Subscribed(k)
  {}

  lemma OpenDeltas(c: Client, id: Uuid, msg: Message, sent: bool, k: nat)
    requires SendersExist(c) && c.inner.Some?
    ensures var next := HandleBlockChanges(c, id, msg, sent).0.channels;
            && |next| == |c.channels|
            && (k < |next| ==> next[k].open == c.channels[k].open && next[k].opener == c.channels[k].opener)
  {}

  /** A channel with a receiver is one whose subscriber was told of it. */
  lemma {:induction false} OpenMeansTold(bufferSize: nat, actions: seq<Action>, k: nat)
    requires k < |Reached(bufferSize, actions).channels| && Reached(bufferSize, actions).channels[k].open
    ensures var c := Reached(bufferSize, actions);
            c.channels[k].opener in c.replies && c.replies[c.channels[k].opener] == Subscribed(k)
  {
    if actions == [] {
    } else {
      var init, last := actions[..|actions| - 1], actions[|actions| - 1];
      var c := Reached(bufferSize, init);
      ReachedOk(bufferSize, init);
      OpenStep(c, last, k);
      if k < |c.channels| {
        OpenMeansTold(bufferSize, init, k);
        StepAnswers(c, last, c.channels[k].opener);
      }
    }
  }

  // ------------------------------------------------------------------ results

  predicate NeedsTables(m: ServerMessage) {
    || m.Deltas? || m.NewSubscriptionMsg? || m.SubscriptionEnded? || m.ExtractorNotFound?
    || m.SubscriptionNotFound? || m.SubscribeError? || m.Ping?
  }

  /** Without a connection a message is refused exactly when it is about the tables, or to be answered. */
  lemma RefusedWithoutConnectionIff(bufferSize: nat, actions: seq<Action>, m: ServerMessage)
    requires Reached(bufferSize, actions).stalled.None?
    ensures var c := Reached(bufferSize, actions);
            && (HandleMsg(c, m).1.NotConnectedError? <==> c.inner.None? && NeedsTables(m))
            && (HandleMsg(c, m).1.ServerFailure? <==> m.ParseError? || m.CompressionError?)
            && (HandleMsg(c, m).1.ConnectionClosed? <==> m.CloseFrame? || m.SocketClosed?)
            && (HandleMsg(c, m).1.ConnectionError? <==> m.SocketAlreadyClosed? || m.SocketIoOrProtocol?)
  {
    ReachedOk(bufferSize, actions);
  }
}
