/**
The connect task of the websocket client: as program counters, one step for every access to shared state,
and as the two nested loops it is written as.
*/
module Connection {
  datatype TaskResult = NotConnected | Fine | Failed | BadUri | ConnectionClosed

  /** Where the connect task stands. From `Finishing` to `Wake` it keeps the lock. */
  datatype TaskPc =
    | Head
    | Connecting
    | Clearing
    | Install
    | Announce
    | Receiving
    | Exiting
    | Finishing
    | Bury
    | Wake
    | Done

  /** What the world does next to the task. */
  datatype Event =
    | BadRequest
    | ConnectFails
    | ConnectSucceeds
    | MessageHandled
    | Idle
    | ConnectionLost
    | StreamEnded
    | CloseRequested
    | FatalMessage

  /** The task's own variables; `attempts` counts connection attempts and `buried` its store to `dead`. */
  datatype Task = Task(pc: TaskPc, max: nat, retries: nat, attempts: nat, result: TaskResult, buried: bool)

  /** The state every clone of the client shares; `notified` counts the calls of `notify_waiters`. */
  datatype Shared = Shared(connected: bool, dead: bool, notified: nat)

  function StartTask(max: nat): Task {
    Task(Head, max, 0, 0, NotConnected, false)
  }

  const FRESH := Shared(false, false, 0)

  /** One step of the connect task. An event that cannot occur where the task stands changes nothing. */
  function TaskStep(t: Task, s: Shared, e: Event): (Task, Shared) {
    match t.pc
    case Head => (t.(pc := if t.retries < t.max then Connecting else Exiting), s)
    case Connecting =>
      (match e
       case BadRequest => t.(pc := Done, result := BadUri)
       case ConnectFails => t.(pc := Clearing, attempts := t.attempts + 1, retries := t.retries + 1)
       case ConnectSucceeds => t.(pc := Install, attempts := t.attempts + 1)
       case _ => t, s)
    case Clearing => (t.(pc := Head), s.(connected := false))
    case Install => (t.(pc := Announce), s.(connected := true))
    case Announce => (t.(pc := Receiving, result := Fine), s.(notified := s.notified + 1))
    case Receiving =>
      (match e
       case Idle => t.(pc := Clearing, retries := t.retries + 1)
       case ConnectionLost => t.(pc := Clearing, retries := t.retries + 1)
       case StreamEnded => t.(pc := Exiting)
       case CloseRequested => t.(pc := Exiting)
       case FatalMessage => t.(pc := Exiting, result := Failed)
       case _ => t, s)
    case Exiting => (t.(pc := Finishing), s.(connected := false))
    case Finishing => (t.(pc := if t.retries >= t.max then Bury else Done), s)
    case Bury => (t.(pc := Wake, buried := true), s.(dead := true))
    case Wake => (t.(pc := Done, result := ConnectionClosed), s.(notified := s.notified + 1))
    case Done => (t, s)
  }

  // ------------------------------------------------------------------ the task on its own

  /** The task waits for the world, or is over. */
  predicate Settled(t: Task) {
    t.pc.Connecting? || t.pc.Receiving? || t.pc.Done?
  }

  function StepsToSettle(pc: TaskPc): nat {
    match pc
    case Clearing => 6 case Head => 5 case Exiting => 4 case Finishing => 3 case Bury => 2 case Wake => 1
    case Install => 2 case Announce => 1
    case Connecting => 0 case Receiving => 0 case Done => 0
  }

  /** Runs the task until it waits for the world. */
  function Settle(t: Task, s: Shared): (r: (Task, Shared))
    ensures Settled(r.0)
    decreases StepsToSettle(t.pc)
  {
    if Settled(t) then (t, s)
    else
      var (t, s) := TaskStep(t, s, MessageHandled);
      Settle(t, s)
  }

  /** The task after a sequence of events, alone in the world. */
  function TaskRun(max: nat, events: seq<Event>): (r: (Task, Shared))
    ensures Settled(r.0)
  {
    if events == [] then Settle(StartTask(max), FRESH)
    else
      var (t, s) := TaskRun(max, events[..|events| - 1]);
      var (t, s) := TaskStep(t, s, events[|events| - 1]);
      Settle(t, s)
  }

  /** What every step of the task keeps, whatever else goes on. */
  ghost predicate TaskOk(t: Task, s: Shared) {
    && t.retries <= t.max
    && (t.pc.Head? || t.pc.Clearing? ==> t.attempts == t.retries)
    && (t.pc.Connecting? ==> t.attempts == t.retries < t.max)
    && (t.pc.Install? || t.pc.Announce? || t.pc.Receiving? ==> t.attempts == t.retries + 1 <= t.max)
    && (t.pc.Exiting? || t.pc.Finishing? ==>
          t.attempts == t.retries == t.max || t.attempts == t.retries + 1 <= t.max)
    && (t.pc.Bury? || t.pc.Wake? ==> t.attempts == t.retries == t.max)
    && (t.pc.Done? ==> t.attempts == t.retries || t.attempts == t.retries + 1 <= t.max)
    && (s.connected ==> t.pc.Announce? || t.pc.Receiving? || t.pc.Clearing? || t.pc.Exiting?)
    && (t.pc.Announce? || t.pc.Receiving? ==> s.connected)
    && (t.buried ==> s.dead && (t.pc.Wake? || t.pc.Done?))
    && (t.pc.Wake? ==> t.buried)
    && (t.pc.Done? ==> (t.buried <==> t.result == ConnectionClosed) && (t.buried <==> t.retries >= t.max))
    && (t.result == ConnectionClosed ==> t.pc.Done?)
  }

  lemma TaskStepKeeps(t: Task, s: Shared, e: Event)
    requires TaskOk(t, s)
    ensures var (t', s') := TaskStep(t, s, e);
            TaskOk(t', s') && t'.attempts <= t'.max && t'.max == t.max && s.notified <= s'.notified
  {}

  lemma {:induction false} SettleKeeps(t: Task, s: Shared)
    requires TaskOk(t, s)
    ensures TaskOk(Settle(t, s).0, Settle(t, s).1) && Settle(t, s).0.max == t.max
    ensures s.dead == t.buried ==> Settle(t, s).1.dead == Settle(t, s).0.buried
    decreases StepsToSettle(t.pc)
  {
    if !Settled(t) {
      var (t', s') := TaskStep(t, s, MessageHandled);
      TaskStepKeeps(t, s, MessageHandled);
      SettleKeeps(t', s');
    }
  }

  lemma {:induction false} TaskRunOk(max: nat, events: seq<Event>)
    ensures var (t, s) := TaskRun(max, events);
            TaskOk(t, s) && t.max == max && (s.dead <==> t.buried)
  {
    if events == [] {
      SettleKeeps(StartTask(max), FRESH);
    } else {
      TaskRunOk(max, events[..|events| - 1]);
      var (t, s) := TaskRun(max, events[..|events| - 1]);
      var (t', s') := TaskStep(t, s, events[|events| - 1]);
      TaskStepKeeps(t, s, events[|events| - 1]);
      SettleKeeps(t', s');
    }
  }

  lemma TaskRunOne(max: nat, script: seq<Event>, i: nat)
    requires i < |script|
    ensures var (t, s) := TaskRun(max, script[..i]);
            var (t', s') := TaskStep(t, s, script[i]);
            TaskRun(max, script[..i + 1]) == Settle(t', s')
  {
    assert script[..i + 1][..i] == script[..i];
  }

  /** A task that is over ignores the rest of the script. */
  lemma {:induction false} DoneStays(max: nat, script: seq<Event>, i: nat)
    requires i <= |script| && TaskRun(max, script[..i]).0.pc.Done?
    ensures TaskRun(max, script) == TaskRun(max, script[..i])
    decreases |script| - i
  {
    if i < |script| {
      TaskRunOne(max, script, i);
      DoneStays(max, script, i + 1);
    } else {
      assert script[..i] == script;
    }
  }

  lemma SettleExit(t: Task, s: Shared)
    requires t.pc.Exiting?
    ensures Settle(t, s) ==
      if t.retries >= t.max then
        (t.(pc := Done, buried := true, result := ConnectionClosed),
         s.(connected := false, dead := true, notified := s.notified + 1))
      else (t.(pc := Done), s.(connected := false))
  {
    var (t1, s1) := TaskStep(t, s, MessageHandled);
    var (t2, s2) := TaskStep(t1, s1, MessageHandled);
    assert Settle(t, s) == Settle(t2, s2);
    if t.retries >= t.max {
      var (t3, s3) := TaskStep(t2, s2, MessageHandled);
      var (t4, s4) := TaskStep(t3, s3, MessageHandled);
      assert Settle(t2, s2) == Settle(t4, s4);
    }
  }

  lemma SettleInstall(t: Task, s: Shared)
    requires t.pc.Install?
    ensures Settle(t, s) == (t.(pc := Receiving, result := Fine), s.(connected := true, notified := s.notified + 1))
  {
    var (t1, s1) := TaskStep(t, s, MessageHandled);
    var (t2, s2) := TaskStep(t1, s1, MessageHandled);
    assert Settle(t1, s1) == Settle(t2, s2);
  }

  /** Where the task waits once it is back at the head of its outer loop. */
  function FromHead(max: nat, retries: nat, attempts: nat, result: TaskResult, notified: nat): (Task, Shared) {
    if retries < max then
      (Task(Connecting, max, retries, attempts, result, false), Shared(false, false, notified))
    else
      (Task(Done, max, retries, attempts, ConnectionClosed, true), Shared(false, true, notified + 1))
  }

  lemma SettleHead(t: Task, s: Shared)
    requires (t.pc.Head? || t.pc.Clearing?) && !t.buried && !s.dead && (t.pc.Head? ==> !s.connected)
    ensures Settle(t, s) == FromHead(t.max, t.retries, t.attempts, t.result, s.notified)
    decreases t.pc.Clearing?
  {
    if t.pc.Clearing? {
      SettleHead(t.(pc := Head), s.(connected := false));
    } else if t.retries >= t.max {
      SettleExit(t.(pc := Exiting), s);
    }
  }

  /** How the message loop was left: the script ran out, the connection is to be rebuilt, or the task ends. */
  datatype LoopExit = StillOpen | Rebuild | Leave

  /** An event that ends the loop over messages. */
  predicate Decides(e: Event) {
    e.Idle? || e.ConnectionLost? || e.StreamEnded? || e.CloseRequested? || e.FatalMessage?
  }

  /** The inner loop: messages of one connection. */
  method ReceiveMessages(max: nat, script: seq<Event>, start: nat, ghost t: Task, ghost s: Shared)
    returns (i: nat, exit: LoopExit, result: TaskResult)
    requires start <= |script| && t == Task(Receiving, max, t.retries, t.attempts, Fine, false) && t.retries < max
    requires s == Shared(true, false, s.notified) && TaskRun(max, script[..start]) == (t, s)
    ensures start <= i <= |script| && (exit.StillOpen? ==> i == |script|)
    ensures exit.StillOpen? <==> forall j | start <= j < |script| :: !Decides(script[j])
    ensures !exit.StillOpen? ==>
      && start < i && Decides(script[i - 1]) && (forall j | start <= j < i - 1 :: !Decides(script[j]))
      && (exit.Rebuild? <==> script[i - 1].Idle? || script[i - 1].ConnectionLost?)
      && (exit.Leave? <==> script[i - 1].StreamEnded? || script[i - 1].CloseRequested? || script[i - 1].FatalMessage?)
    ensures result == if exit.Leave? && script[i - 1].FatalMessage? then Failed else Fine
    ensures exit.StillOpen? ==> TaskRun(max, script[..i]) == (t, s)
    ensures exit.Rebuild? ==> TaskRun(max, script[..i]) == FromHead(max, t.retries + 1, t.attempts, Fine, s.notified)
    ensures exit.Leave? ==> TaskRun(max, script[..i]) == (t.(pc := Done, result := result), s.(connected := false))
  {
    i, result := start, Fine;
    while i < |script|
      invariant start <= i <= |script|
      invariant forall j | start <= j < i :: !Decides(script[j])
      invariant TaskRun(max, script[..i]) == (t, s)
    {
      TaskRunOne(max, script, i);
      var e := script[i];
      i := i + 1;
      if e.Idle? || e.ConnectionLost? {
        SettleHead(t.(pc := Clearing, retries := t.retries + 1), s);
        return i, Rebuild, Fine;
      } else if e.StreamEnded? || e.CloseRequested? {
        SettleExit(t.(pc := Exiting), s);
        return i, Leave, Fine;
      } else if e.FatalMessage? {
        SettleExit(t.(pc := Exiting, result := Failed), s);
        return i, Leave, Failed;
      }
    }
    exit := StillOpen;
  }

  /** What the next event makes of a task that waits to connect. */
  lemma ConnectingStep(max: nat, script: seq<Event>, i: nat,
                       retries: nat, attempts: nat, result: TaskResult, notified: nat)
    requires retries < max && i < |script|
    requires TaskRun(max, script[..i]) == FromHead(max, retries, attempts, result, notified)
    ensures TaskRun(max, script[..i + 1]) ==
      match script[i]
      case BadRequest => (Task(Done, max, retries, attempts, BadUri, false), Shared(false, false, notified))
      case ConnectFails => FromHead(max, retries + 1, attempts + 1, result, notified)
      case ConnectSucceeds =>
        (Task(Receiving, max, retries, attempts + 1, Fine, false), Shared(true, false, notified + 1))
      case _ => FromHead(max, retries, attempts, result, notified)
  {
    TaskRunOne(max, script, i);
    var s := Shared(false, false, notified);
    SettleInstall(Task(Install, max, retries, attempts + 1, result, false), s);
    SettleHead(Task(Clearing, max, retries + 1, attempts + 1, result, false), s);
  }

  // ------------------------------------------------------------------ what the events bring about

  /** What a life of the task amounts to: it tries to connect, it is connected, or it is over. */
  datatype Phase = Trying(retries: nat) | Up(retries: nat) | Over(retries: nat, result: TaskResult)

  /** One more retry is used, and the last one ends the client. */
  function Lost(max: nat, retries: nat): Phase {
    if retries + 1 < max then Trying(retries + 1) else Over(retries + 1, ConnectionClosed)
  }

  function PhaseAfter(max: nat, events: seq<Event>): Phase {
    if events == [] then if max == 0 then Over(0, ConnectionClosed) else Trying(0)
    else
      match (PhaseAfter(max, events[..|events| - 1]), events[|events| - 1])
      case (Trying(n), BadRequest) => Over(n, BadUri)
      case (Trying(n), ConnectFails) => Lost(max, n)
      case (Trying(n), ConnectSucceeds) => Up(n)
      case (Up(n), Idle) => Lost(max, n)
      case (Up(n), ConnectionLost) => Lost(max, n)
      case (Up(n), StreamEnded) => Over(n, Fine)
      case (Up(n), CloseRequested) => Over(n, Fine)
      case (Up(n), FatalMessage) => Over(n, Failed)
      case (phase, _) => phase
  }

  /** The task's variables say that it is in this phase. */
  ghost predicate InPhase(run: (Task, Shared), phase: Phase) {
    && run.0.retries == phase.retries
    && (run.0.pc.Connecting? <==> phase.Trying?)
    && (run.0.pc.Receiving? <==> phase.Up?)
    && (run.0.pc.Done? <==> phase.Over?)
    && (run.1.connected <==> phase.Up?)
    && (run.1.dead <==> phase.Over? && phase.result == ConnectionClosed)
    && (phase.Over? ==> run.0.result == phase.result)
    && (phase.Up? ==> run.0.result == Fine)
  }

  lemma FirstPhase(max: nat)
    ensures InPhase(TaskRun(max, []), PhaseAfter(max, []))
  {
    SettleHead(StartTask(max), FRESH);
  }

  /** A task that waits to connect. */
  lemma ConnectingMeets(t: Task, s: Shared, e: Event)
    requires TaskOk(t, s) && t.pc.Connecting? && !s.dead
    ensures var (t', s') := TaskStep(t, s, e);
            Settle(t', s') ==
            match e
            case BadRequest => (t.(pc := Done, result := BadUri), s)
            case ConnectFails => FromHead(t.max, t.retries + 1, t.attempts + 1, t.result, s.notified)
            case ConnectSucceeds =>
              (t.(pc := Receiving, attempts := t.attempts + 1, result := Fine),
               Shared(true, false, s.notified + 1))
            case _ => (t, s)
  {
    SettleInstall(t.(pc := Install, attempts := t.attempts + 1), s);
    SettleHead(t.(pc := Clearing, retries := t.retries + 1, attempts := t.attempts + 1), s);
  }

  /** A task that is connected. */
  lemma ReceivingMeets(t: Task, s: Shared, e: Event)
    requires TaskOk(t, s) && t.pc.Receiving? && !s.dead
    ensures var (t', s') := TaskStep(t, s, e);
            Settle(t', s') ==
            match e
            case Idle => FromHead(t.max, t.retries + 1, t.attempts, t.result, s.notified)
            case ConnectionLost => FromHead(t.max, t.retries + 1, t.attempts, t.result, s.notified)
            case StreamEnded => (t.(pc := Done), s.(connected := false))
            case CloseRequested => (t.(pc := Done), s.(connected := false))
            case FatalMessage => (t.(pc := Done, result := Failed), s.(connected := false))
            case _ => (t, s)
  {
    SettleHead(t.(pc := Clearing, retries := t.retries + 1), s);
    SettleExit(t.(pc := Exiting), s);
    SettleExit(t.(pc := Exiting, result := Failed), s);
  }

  /**
  After every script of events the task is where the phases say: a close or the end of the stream ends a
  connected task without burying the client, silence and a lost connection cost one retry, a fatal message
  ends it with its error, and nothing else does.
  */
  lemma {:induction false} TaskRunIsPhase(max: nat, events: seq<Event>)
    ensures InPhase(TaskRun(max, events), PhaseAfter(max, events))
  {
    if events == [] {
      FirstPhase(max);
    } else {
      var init, last := events[..|events| - 1], events[|events| - 1];
      TaskRunIsPhase(max, init);
      TaskRunOk(max, init);
      var (t, s) := TaskRun(max, init);
      if t.pc.Connecting? {
        ConnectingMeets(t, s, last);
      } else if t.pc.Receiving? {
        ReceivingMeets(t, s, last);
      }
    }
  }

  /** The task stands where these variables say. */
  ghost predicate Shows(run: (Task, Shared), over: bool, max: nat, retries: nat, attempts: nat,
                        connected: bool, dead: bool, notified: nat, result: TaskResult)
  {
    && run.0 == Task(run.0.pc, max, retries, attempts, result, dead)
    && run.1 == Shared(connected, dead, notified)
    && run.0.pc.Done? == over
  }

  /**
  Over its life the task makes at most `max` connection attempts; when it is over it left no
  connection behind, and it declared the client dead exactly when its retries were used up.
  */
  lemma TaskRunBounds(max: nat, events: seq<Event>)
    ensures var (t, s) := TaskRun(max, events);
            && t.attempts <= max && t.retries <= max
            && (t.pc.Done? ==> !s.connected)
            && (t.pc.Done? ==> (s.dead <==> t.retries >= max) && (s.dead <==> t.result == ConnectionClosed))
  {
    TaskRunOk(max, events);
  }

  /**
  The connect task as it is written: an outer loop over attempts and an inner one over messages. The
  world is a script of events; a script that runs out leaves the task waiting.
  */
  method ConnectTask(max: nat, script: seq<Event>)
    returns (over: bool, retries: nat, attempts: nat, connected: bool, dead: bool, notified: nat, result: TaskResult)
    ensures attempts <= max && retries <= max
    ensures over ==> !connected
    ensures over ==> (dead <==> retries >= max) && (dead <==> result == ConnectionClosed)
    ensures var phase := PhaseAfter(max, script);
            && retries == phase.retries && over == phase.Over? && connected == phase.Up?
            && (over ==> result == phase.result)
    ensures Shows(TaskRun(max, script), over, max, retries, attempts, connected, dead, notified, result)
  {
    over, retries, attempts, connected, dead, notified, result := Attempts(max, script);
    TaskRunBounds(max, script);
    TaskRunIsPhase(max, script);
  }

  /** The outer loop: one iteration for every connection attempt. */
  method Attempts(max: nat, script: seq<Event>)
    returns (over: bool, retries: nat, attempts: nat, connected: bool, dead: bool, notified: nat, result: TaskResult)
    ensures Shows(TaskRun(max, script), over, max, retries, attempts, connected, dead, notified, result)
  {
    retries, attempts, connected, dead, notified, result, over := 0, 0, false, false, 0, NotConnected, false;
    var i := 0;
    SettleHead(StartTask(max), FRESH);
    label Retry:
    while retries < max
      invariant 0 <= i <= |script| && !connected && !dead && !over
      invariant TaskRun(max, script[..i]) == FromHead(max, retries, attempts, result, notified)
      decreases |script| - i
    {
      if i == |script| {
        assert script[..i] == script;
        return;
      }
      ConnectingStep(max, script, i, retries, attempts, result, notified);
      var e := script[i];
      i := i + 1;
      if e.BadRequest? {
        over, result := true, BadUri;
        DoneStays(max, script, i);
        return;
      } else if e.ConnectFails? {
        attempts, retries := attempts + 1, retries + 1;
      } else if e.ConnectSucceeds? {
        attempts, connected, notified, result := attempts + 1, true, notified + 1, Fine;
        var exit;
        i, exit, result := ReceiveMessages(
          max, script, i, Task(Receiving, max, retries, attempts, Fine, false), Shared(true, false, notified));
        match exit {
          case StillOpen =>
            assert script[..i] == script;
            return;
          case Leave => break Retry;
          case Rebuild => retries, connected := retries + 1, false;
        }
      }
    }
    connected, over := false, true;
    if retries >= max {
      dead, notified, result := true, notified + 1, ConnectionClosed;
    }
    DoneStays(max, script, i);
  }
}
