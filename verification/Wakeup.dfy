/**
Waiting for a connection: any number of callers of `ensure_connection`, of `close` and of `connect`,
interleaved in every possible way with the connect task. A task that is over may be followed by another
one. One step of a program counter is one access to shared state; any interleaving of such steps is a run.

A waiter's ticket is the number of `notify_waiters` calls at the moment it was created: the waiter is
woken by any later call.
*/
module Wakeup {
  import opened Connection

  /**
  Where a waiter stands. `ReadDead` to `Parked` is the loop of `ensure_connection`; the `Caller`
  positions are the end of `connect`, which takes its ticket only after the task was started.
  */
  datatype WaiterPc =
    | ReadDead
    | Check
    | TakeTicket
    | Recheck
    | Parked
    | CallerTicket
    | CallerParked
    | CallerCheck
    | Returned(ok: bool)

  /** `deadThen` and `announcedThen` record whether the client was dead, and a connection announced, at the ticket. */
  datatype Waiter = Waiter(pc: WaiterPc, ticket: nat, deadThen: bool, announcedThen: bool)

  /** `closing` callers of `close` have marked the client dead and not yet notified. */
  datatype World = World(task: Task, shared: Shared, waiters: seq<Waiter>, closing: nat)

  /** The task keeps the lock from its clean-up to its end. */
  predicate Locked(t: Task) {
    t.pc.Finishing? || t.pc.Bury? || t.pc.Wake?
  }

  /** A connection is up and its waiters have been called. */
  predicate Announced(t: Task, s: Shared) {
    s.connected && !t.pc.Announce?
  }

  function WaiterStep(w: Waiter, s: Shared, t: Task): Waiter {
    var locked := Locked(t);
    match w.pc
    case ReadDead => w.(pc := if s.dead then Returned(false) else Check)
    case Check => if locked then w else w.(pc := if s.connected then Returned(true) else TakeTicket)
    case TakeTicket => Waiter(Recheck, s.notified, s.dead, Announced(t, s))
    case Recheck => if locked then w else w.(pc := if s.connected then ReadDead else Parked)
    case Parked => if w.ticket < s.notified then w.(pc := ReadDead) else w
    case CallerTicket => Waiter(CallerParked, s.notified, s.dead, Announced(t, s))
    case CallerParked => if w.ticket < s.notified then w.(pc := CallerCheck) else w
    case CallerCheck => if locked then w else w.(pc := Returned(s.connected))
    case Returned(_) => w
  }

  datatype Move =
    | TaskMoves(event: Event)
    | WaiterMoves(index: nat)
    | WaiterArrives
    | CallerArrives
    | CloseMarksDead
    | CloseNotifies
    | ConnectAgain

  function Next(w: World, m: Move): World {
    match m
    case TaskMoves(e) =>
      var (t, s) := TaskStep(w.task, w.shared, e);
      w.(task := t, shared := s)
    case WaiterMoves(i) =>
      if i < |w.waiters| then
        w.(waiters := w.waiters[i := WaiterStep(w.waiters[i], w.shared, w.task)])
      else w
    case WaiterArrives => w.(waiters := w.waiters + [Waiter(ReadDead, 0, false, false)])
    case CallerArrives => w.(waiters := w.waiters + [Waiter(CallerTicket, 0, false, false)])
    case CloseMarksDead => w.(shared := w.shared.(dead := true), closing := w.closing + 1)
    case CloseNotifies =>
      if w.closing == 0 then w
      else w.(shared := w.shared.(notified := w.shared.notified + 1), closing := w.closing - 1)
    case ConnectAgain =>
      if !w.task.pc.Done? then w
      else w.(task := StartTask(w.task.max), waiters := w.waiters + [Waiter(CallerTicket, 0, false, false)])
  }

  function Start(max: nat): World {
    World(StartTask(max), FRESH, [], 0)
  }

  function Moves(w: World, moves: seq<Move>): World {
    if moves == [] then w else Next(Moves(w, moves[..|moves| - 1]), moves[|moves| - 1])
  }

  function After(max: nat, moves: seq<Move>): World {
    Moves(Start(max), moves)
  }

  /** A step of the task on its own. */
  const STEP := TaskMoves(MessageHandled)

  predicate HasTicket(w: Waiter) {
    w.pc.Recheck? || w.pc.Parked? || w.pc.CallerParked?
  }

  /** Parked, and nobody has called since. */
  predicate Asleep(w: Waiter, s: Shared) {
    (w.pc.Parked? || w.pc.CallerParked?) && w.ticket == s.notified
  }

  /** Somebody has marked the client dead and is about to wake everybody. */
  predicate DeadCallPending(w: World) {
    w.task.pc.Wake? || w.closing > 0
  }

  ghost predicate WaiterOk(w: Waiter, world: World) {
    HasTicket(w) ==>
      && w.ticket <= world.shared.notified
      && (w.deadThen ==> world.shared.dead)
      && (w.ticket == world.shared.notified ==>
            && (world.shared.dead && !w.deadThen ==> DeadCallPending(world))
            && (world.shared.connected && (w.pc.Parked? || !w.announcedThen) ==> world.task.pc.Announce?))
  }

  ghost predicate WorldOk(w: World) {
    TaskOk(w.task, w.shared) && forall i: nat | i < |w.waiters| :: WaiterOk(w.waiters[i], w)
  }

  lemma NextKeeps(w: World, m: Move)
    requires WorldOk(w)
    ensures WorldOk(Next(w, m))
  {
    if m.TaskMoves? { TaskStepKeeps(w.task, w.shared, m.event); }
  }

  lemma {:induction false} AfterOk(max: nat, moves: seq<Move>)
    ensures WorldOk(After(max, moves)) && After(max, moves).task.max == max
  {
    if moves == [] {
    } else {
      AfterOk(max, moves[..|moves| - 1]);
      NextKeeps(After(max, moves[..|moves| - 1]), moves[|moves| - 1]);
    }
  }

  // ------------------------------------------------------------------ what the waiters get

  /** In every interleaving the task keeps to its retries and cleans up behind itself. */
  lemma TaskBoundsInEveryInterleaving(max: nat, moves: seq<Move>)
    ensures var w := After(max, moves);
            && w.task.attempts <= max && w.task.retries <= max
            && (w.task.pc.Head? ==> !w.shared.connected && w.task.attempts == w.task.retries)
            && (w.task.pc.Done? ==> !w.shared.connected)
            && (w.task.pc.Done? ==> (w.task.buried <==> w.task.retries >= max))
            && (w.task.pc.Done? ==> (w.task.buried <==> w.task.result == ConnectionClosed))
  {
    AfterOk(max, moves);
  }

  /**
  No connect wake-up is lost: a caller of `ensure_connection` sleeps beside a live connection only
  while the task stands between installing it and announcing it, and the task's next step wakes it.
  */
  lemma NoLostConnectWakeup(max: nat, moves: seq<Move>, i: nat, e: Event)
    requires i < |After(max, moves).waiters|
    requires var w := After(max, moves); w.waiters[i].pc.Parked? && Asleep(w.waiters[i], w.shared) && w.shared.connected
    ensures After(max, moves).task.pc.Announce?
    ensures var w := Next(After(max, moves), TaskMoves(e)); !Asleep(w.waiters[i], w.shared)
  {
    AfterOk(max, moves);
    assert WaiterOk(After(max, moves).waiters[i], After(max, moves));
  }

  /**
  The wake-up for a dead client can be lost: a caller that nobody is about to wake sleeps beside a dead
  client exactly when the client was dead already when the caller took its ticket.
  */
  lemma DeadWakeupLostIff(max: nat, moves: seq<Move>, i: nat)
    requires i < |After(max, moves).waiters|
    requires var w := After(max, moves); Asleep(w.waiters[i], w.shared) && !DeadCallPending(w)
    ensures var w := After(max, moves); w.shared.dead <==> w.waiters[i].deadThen
  {
    AfterOk(max, moves);
    assert WaiterOk(After(max, moves).waiters[i], After(max, moves));
  }

  /** Once the task is over, nothing wakes such a caller any more until somebody closes the client or connects again. */
  lemma {:induction false} SleepsOn(w: World, i: nat, moves: seq<Move>)
    requires i < |w.waiters| && Asleep(w.waiters[i], w.shared) && w.task.pc.Done? && w.closing == 0
    requires CloseMarksDead !in moves && ConnectAgain !in moves
    ensures var end := Moves(w, moves);
            && i < |end.waiters| && end.waiters[i] == w.waiters[i] && Asleep(end.waiters[i], end.shared)
            && end.task == w.task && end.closing == 0
  {
    if moves == [] {
    } else {
      assert moves[|moves| - 1] in moves;
      SleepsOn(w, i, moves[..|moves| - 1]);
    }
  }

  /** A new connection calls everybody who slept through the end of the old task. */
  lemma NewConnectionWakes(w: World, i: nat)
    requires i < |w.waiters| && Asleep(w.waiters[i], w.shared) && w.task.pc.Done? && w.task.max > 0
    ensures var up := Next(Next(Next(Next(Next(w, ConnectAgain), STEP), TaskMoves(ConnectSucceeds)), STEP), STEP);
            up.task.pc.Receiving? && up.shared.connected && !Asleep(up.waiters[i], up.shared)
  {}

  // ------------------------------------------------------------------ what the run has seen

  /** Some task of the run took a step at `pc`. */
  ghost predicate Passed(max: nat, moves: seq<Move>, pc: TaskPc) {
    moves != [] &&
      var init, last := moves[..|moves| - 1], moves[|moves| - 1];
      Passed(max, init, pc) || (last.TaskMoves? && After(max, init).task.pc == pc)
  }

  /** A waiter changes by its own moves only. */
  lemma OwnMoves(w: World, m: Move, i: nat)
    requires i < |w.waiters|
    ensures var next := Next(w, m);
            && i < |next.waiters|
            && next.waiters[i]
               == if m == WaiterMoves(i) then WaiterStep(w.waiters[i], w.shared, w.task) else w.waiters[i]
  {}

  lemma DeadStep(w: World, m: Move)
    ensures var next := Next(w, m);
            && (next.shared.dead <==> w.shared.dead || m == CloseMarksDead || (m.TaskMoves? && w.task.pc.Bury?))
            && (next.closing > 0 ==> w.closing > 0 || m == CloseMarksDead)
            && (m != ConnectAgain ==> (next.task.buried <==> w.task.buried || (m.TaskMoves? && w.task.pc.Bury?)))
  {}

  /** The client is dead exactly when somebody closed it or some task used up its retries, and it stays so. */
  lemma {:induction false} DeadIff(max: nat, moves: seq<Move>)
    ensures var w := After(max, moves);
            && (w.shared.dead <==> CloseMarksDead in moves || Passed(max, moves, Bury))
            && (w.closing > 0 ==> w.shared.dead)
            && (ConnectAgain !in moves ==> (w.task.buried <==> Passed(max, moves, Bury)))
  {
    if moves == [] {
    } else {
      var init, last := moves[..|moves| - 1], moves[|moves| - 1];
      assert moves == init + [last];
      DeadIff(max, init);
      DeadStep(After(max, init), last);
    }
  }

  // ------------------------------------------------------------------ callers after the end of a task

  /** The steps of a caller of `ensure_connection` on its way to sleep. */
  predicate AtStep(pc: WaiterPc, n: nat) {
    match n
    case 0 => pc.ReadDead?
    case 1 => pc.Check?
    case 2 => pc.TakeTicket?
    case 3 => pc.Recheck?
    case _ => pc.Parked?
  }

  function Count(moves: seq<Move>, m: Move): nat {
    if moves == [] then 0
    else Count(moves[..|moves| - 1], m) + if moves[|moves| - 1] == m then 1 else 0
  }

  predicate Quiet(w: World) {
    w.task.pc.Done? && !w.shared.connected && !w.shared.dead && w.closing == 0
  }

  lemma QuietStep(w: World, m: Move)
    requires Quiet(w) && m != CloseMarksDead && m != ConnectAgain
    ensures Next(w, m).task == w.task && Next(w, m).shared == w.shared && Next(w, m).closing == 0
  {}

  /** Beside a client that is neither connected nor dead, a caller parks with its fourth step and sleeps. */
  lemma {:induction false} CallersOfAQuietClientSleep(w: World, i: nat, moves: seq<Move>)
    requires Quiet(w) && i < |w.waiters| && w.waiters[i].pc.ReadDead?
    requires CloseMarksDead !in moves && ConnectAgain !in moves
    ensures var end := Moves(w, moves);
            && end.task == w.task && end.shared == w.shared && end.closing == 0
            && i < |end.waiters| && AtStep(end.waiters[i].pc, Count(moves, WaiterMoves(i)))
            && (HasTicket(end.waiters[i]) ==> end.waiters[i].ticket == end.shared.notified)
  {
    if moves == [] {
    } else {
      var init, last := moves[..|moves| - 1], moves[|moves| - 1];
      assert last in moves;
      CallersOfAQuietClientSleep(w, i, init);
      QuietStep(Moves(w, init), last);
      OwnMoves(Moves(w, init), last, i);
    }
  }

  /**
  Nobody ever takes the mark of a dead client away: whoever calls `ensure_connection` afterwards is told
  that there is no connection with its first step, in every continuation, even if there is one again.
  */
  lemma {:induction false} DeadClientRefuses(w: World, i: nat, moves: seq<Move>)
    requires w.shared.dead && i < |w.waiters| && w.waiters[i].pc.ReadDead?
    ensures var end := Moves(w, moves);
            && end.shared.dead && i < |end.waiters|
            && end.waiters[i].pc == if Count(moves, WaiterMoves(i)) == 0 then ReadDead else Returned(false)
  {
    if moves == [] {
    } else {
      var init, last := moves[..|moves| - 1], moves[|moves| - 1];
      DeadClientRefuses(w, i, init);
      DeadStep(Moves(w, init), last);
      OwnMoves(Moves(w, init), last, i);
    }
  }

  /**
  Whoever calls `ensure_connection` after the end of a task sleeps, once it has made its four steps and
  as long as nobody closes the client or connects again, exactly when nobody closed the client before and
  no task used up its retries; otherwise it is told that there is no connection. In a life with one task
  and no close that is: exactly when the task had retries left.
  */
  lemma CallersAfterTheEndIff(max: nat, before: seq<Move>, i: nat, later: seq<Move>)
    requires var w := After(max, before); w.task.pc.Done? && i < |w.waiters| && w.waiters[i].pc.ReadDead?
    requires CloseMarksDead !in later && ConnectAgain !in later && Count(later, WaiterMoves(i)) >= 4
    ensures var w, end := After(max, before), Moves(After(max, before), later);
            && i < |end.waiters|
            && (end.waiters[i].pc.Parked? && Asleep(end.waiters[i], end.shared)
                <==> CloseMarksDead !in before && !Passed(max, before, Bury))
            && (!Asleep(end.waiters[i], end.shared) ==> end.waiters[i].pc == Returned(false))
            && (CloseMarksDead !in before && ConnectAgain !in before ==>
                  (Asleep(end.waiters[i], end.shared) <==> w.task.retries < max))
  {
    var w := After(max, before);
    AfterOk(max, before);
    DeadIff(max, before);
    if w.shared.dead {
      DeadClientRefuses(w, i, later);
    } else {
      CallersOfAQuietClientSleep(w, i, later);
    }
  }

  lemma AfterOne(max: nat, moves: seq<Move>, m: Move)
    ensures After(max, moves + [m]) == Next(After(max, moves), m)
  {
    assert (moves + [m])[..|moves|] == moves;
  }

  const LOOK := [WaiterArrives, WaiterMoves(0), WaiterMoves(0)]
  const LOOKED := Waiter(TakeTicket, 0, false, false)

  lemma Looked()
    ensures After(0, LOOK) == World(StartTask(0), FRESH, [LOOKED], 0)
  {
    AfterOne(0, [], WaiterArrives);
    AfterOne(0, LOOK[..1], WaiterMoves(0));
    AfterOne(0, LOOK[..2], WaiterMoves(0));
    assert [] + [WaiterArrives] == LOOK[..1] && LOOK[..1] + [WaiterMoves(0)] == LOOK[..2];
    assert LOOK[..2] + [WaiterMoves(0)] == LOOK;
  }

  lemma Died()
    requires After(0, LOOK) == World(StartTask(0), FRESH, [LOOKED], 0)
    ensures After(0, LOOK + [STEP] + [STEP] + [STEP] + [STEP] + [STEP])
         == World(Task(Done, 0, 0, 0, ConnectionClosed, true), Shared(false, true, 1), [LOOKED], 0)
  {
    AfterOne(0, LOOK, STEP);
    AfterOne(0, LOOK + [STEP], STEP);
    AfterOne(0, LOOK + [STEP] + [STEP], STEP);
    AfterOne(0, LOOK + [STEP] + [STEP] + [STEP], STEP);
    AfterOne(0, LOOK + [STEP] + [STEP] + [STEP] + [STEP], STEP);
  }

  lemma {:induction false} MovesAppend(w: World, first: seq<Move>, second: seq<Move>)
    ensures Moves(w, first + second) == Moves(Moves(w, first), second)
  {
    var all := first + second;
    if second == [] {
      assert all == first;
    } else {
      var init, last := second[..|second| - 1], second[|second| - 1];
      assert all[..|all| - 1] == first + init && all[|all| - 1] == last;
      MovesAppend(w, first, init);
      assert Moves(w, all) == Next(Moves(w, first + init), last);
    }
  }

  const BAD := TaskMoves(BadRequest)
  const ENDED := Task(Done, 1, 0, 0, BadUri, false)

  lemma EndedAtOnce(w: World)
    requires w.task == StartTask(1)
    ensures Moves(w, [STEP, BAD]) == w.(task := ENDED)
  {
    assert [STEP, BAD][..1] == [STEP] && [STEP][..0] == [];
    assert Moves(w, [STEP]) == Next(w, STEP);
  }

  lemma FourSteps(i: nat)
    ensures Count([WaiterMoves(i), WaiterMoves(i), WaiterMoves(i), WaiterMoves(i)], WaiterMoves(i)) == 4
  {
    var m := WaiterMoves(i);
    assert [m, m, m, m][..3] == [m, m, m] && [m, m, m][..2] == [m, m] && [m, m][..1] == [m] && [m][..0] == [];
    assert Count([m], m) == 1;
    assert Count([m, m, m], m) == 3;
  }

  /** The request cannot be built, and whoever asks for the connection afterwards sleeps beside a client not dead. */
  lemma QuietEndStrandsCaller()
    ensures var w := After(1, [STEP, BAD, WaiterArrives]
                              + [WaiterMoves(0), WaiterMoves(0), WaiterMoves(0), WaiterMoves(0)]);
            && |w.waiters| > 0 && w.waiters[0].pc.Parked? && Asleep(w.waiters[0], w.shared)
            && !w.shared.dead && w.task.pc.Done? && w.closing == 0
  {
    var first, second := [STEP, BAD, WaiterArrives], [WaiterMoves(0), WaiterMoves(0), WaiterMoves(0), WaiterMoves(0)];
    EndedAtOnce(Start(1));
    assert first[..2] == [STEP, BAD];
    assert After(1, first) == World(ENDED, FRESH, [Waiter(ReadDead, 0, false, false)], 0);
    MovesAppend(Start(1), first, second);
    FourSteps(0);
    CallersOfAQuietClientSleep(After(1, first), 0, second);
  }

  /** The same end leaves the caller of `connect` asleep that was parked before. */
  lemma BadRequestStrandsConnect()
    ensures var w := After(1, [CallerArrives, WaiterMoves(0)] + [STEP, BAD]);
            && |w.waiters| == 1 && w.waiters[0].pc.CallerParked? && Asleep(w.waiters[0], w.shared)
            && w.task.pc.Done? && w.task.result == BadUri && !w.shared.dead && w.closing == 0
  {
    var first := [CallerArrives, WaiterMoves(0)];
    assert first[..1] == [CallerArrives] && [CallerArrives][..0] == [];
    assert After(1, [CallerArrives]) == World(StartTask(1), FRESH, [Waiter(CallerTicket, 0, false, false)], 0);
    MovesAppend(Start(1), first, [STEP, BAD]);
    EndedAtOnce(After(1, first));
  }

  const REOPENED: seq<Move> := [STEP, BAD, CloseMarksDead, ConnectAgain, STEP, TaskMoves(ConnectSucceeds), STEP, STEP]

  /** A client that was closed and connected again is up, and still turns away whoever asks for the connection. */
  lemma RefusedBesideItsConnection()
    ensures var w := After(1, REOPENED + [WaiterArrives, WaiterMoves(1)]);
            && w.shared.connected && w.task.pc.Receiving? && |w.waiters| == 2 && w.waiters[1].pc == Returned(false)
  {
    var first, second := [STEP, BAD], [CloseMarksDead, ConnectAgain, STEP, TaskMoves(ConnectSucceeds), STEP, STEP];
    EndedAtOnce(Start(1));
    MovesAppend(Start(1), first, second);
    assert first + second == REOPENED;
    Reopened(After(1, first));
    MovesAppend(Start(1), REOPENED, [WaiterArrives, WaiterMoves(1)]);
    var up, third := After(1, REOPENED), [WaiterArrives, WaiterMoves(1)];
    assert third[..1] == [WaiterArrives] && [WaiterArrives][..0] == [];
    assert Moves(up, [WaiterArrives]) == Next(up, WaiterArrives);
  }

  lemma Reopened(w: World)
    requires w == World(ENDED, FRESH, [], 0)
    ensures Moves(w, [CloseMarksDead, ConnectAgain, STEP, TaskMoves(ConnectSucceeds), STEP, STEP])
         == World(Task(Receiving, 1, 0, 1, Fine, false), Shared(true, true, 1),
                  [Waiter(CallerTicket, 0, false, false)], 1)
  {
    var all := [CloseMarksDead, ConnectAgain, STEP, TaskMoves(ConnectSucceeds), STEP, STEP];
    assert all[..5][..4] == all[..4] && all[..4][..3] == all[..3] && all[..3][..2] == all[..2];
    assert all[..2][..1] == all[..1] && all[..1][..0] == [];
    assert Moves(w, all[..1]) == Next(w, CloseMarksDead);
    assert Moves(w, all[..2])
        == World(StartTask(1), Shared(false, true, 0), [Waiter(CallerTicket, 0, false, false)], 1);
    assert Moves(w, all[..3]) == Next(Moves(w, all[..2]), STEP);
    assert Moves(w, all[..4]) == Next(Moves(w, all[..3]), TaskMoves(ConnectSucceeds));
  }

  /** A client without retries dies between a caller's two looks, and the caller sleeps. */
  lemma DeadWakeupLost()
    ensures var w := After(0, [WaiterArrives, WaiterMoves(0), WaiterMoves(0), STEP, STEP, STEP, STEP, STEP,
                               WaiterMoves(0), WaiterMoves(0)]);
            && |w.waiters| == 1 && w.waiters[0].pc.Parked? && Asleep(w.waiters[0], w.shared)
            && w.shared.dead && w.task.pc.Done? && w.closing == 0
  {
    var died := LOOK + [STEP] + [STEP] + [STEP] + [STEP] + [STEP];
    Looked();
    Died();
    AfterOne(0, died, WaiterMoves(0));
    AfterOne(0, died + [WaiterMoves(0)], WaiterMoves(0));
    assert died + [WaiterMoves(0)] + [WaiterMoves(0)]
        == [WaiterArrives, WaiterMoves(0), WaiterMoves(0), STEP, STEP, STEP, STEP, STEP,
            WaiterMoves(0), WaiterMoves(0)];
  }

  /**
  The caller of `connect` takes its ticket only after it started the task. In every run it sleeps beside an
  announced connection only if one was announced before it took its ticket.
  */
  lemma ConnectCallerSleepsOnlyIfLate(max: nat, moves: seq<Move>, i: nat)
    requires i < |After(max, moves).waiters|
    requires var w := After(max, moves);
             w.waiters[i].pc.CallerParked? && Asleep(w.waiters[i], w.shared) && Announced(w.task, w.shared)
    ensures After(max, moves).waiters[i].announcedThen
  {
    AfterOk(max, moves);
    assert WaiterOk(After(max, moves).waiters[i], After(max, moves));
  }

  /** A move that neither closes the client nor takes a live connection down. */
  predicate LeavesConnection(m: Move) {
    && !m.CloseMarksDead? && !m.CloseNotifies?
    && (m.TaskMoves? ==> m.event.MessageHandled?)
  }

  /** A ticket taken beside an announced connection is good for nothing as long as that connection lives. */
  lemma {:induction false} LateCallerSleeps(w: World, i: nat, moves: seq<Move>)
    requires i < |w.waiters| && w.waiters[i].pc.CallerTicket? && w.task.pc.Receiving? && w.shared.connected
    requires forall m <- moves :: LeavesConnection(m)
    ensures var end := Moves(Next(w, WaiterMoves(i)), moves);
            && i < |end.waiters| && end.waiters[i].pc.CallerParked? && Asleep(end.waiters[i], end.shared)
            && end.task.pc.Receiving? && end.shared.connected
  {
    if moves == [] {
    } else {
      assert moves[|moves| - 1] in moves;
      LateCallerSleeps(w, i, moves[..|moves| - 1]);
    }
  }

  /** A ticket taken beside a connection that is not announced yet is called by its announcement. */
  lemma {:induction false} EarlyCallerIsCalled(w: World, i: nat, moves: seq<Move>)
    requires i < |w.waiters| && w.waiters[i].pc.CallerTicket? && w.task.pc.Announce? && w.shared.connected
    requires forall m <- moves :: LeavesConnection(m)
    ensures var end := Moves(Next(w, WaiterMoves(i)), moves);
            && i < |end.waiters| && end.shared.connected
            && (end.task.pc.Announce? ==> end.waiters[i].pc.CallerParked? && Asleep(end.waiters[i], end.shared))
            && (end.task.pc.Announce? || (end.task.pc.Receiving? && !Asleep(end.waiters[i], end.shared)))
            && !end.waiters[i].pc.Parked?
            && (end.waiters[i].pc.CallerParked? || end.waiters[i].pc.CallerCheck?
                || end.waiters[i].pc == Returned(true))
  {
    if moves == [] {
    } else {
      assert moves[|moves| - 1] in moves;
      EarlyCallerIsCalled(w, i, moves[..|moves| - 1]);
    }
  }

  /** From a connection that is being given up, messages alone do not lead back to a connection. */
  lemma {:induction false} NoWayBack(w: World, moves: seq<Move>)
    requires !w.task.pc.Install? && !w.task.pc.Announce? && !w.task.pc.Receiving?
    requires forall m <- moves :: LeavesConnection(m)
    ensures var end := Moves(w, moves); !end.task.pc.Install? && !end.task.pc.Announce? && !end.task.pc.Receiving?
  {
    if moves == [] {
    } else {
      assert moves[|moves| - 1] in moves;
      NoWayBack(w, moves[..|moves| - 1]);
    }
  }

  /**
  The caller of `connect` that takes its ticket while a connection is up sleeps beside it, in every run in
  which the connection lives and nobody closes the client, exactly when the connection was announced before.
  */
  lemma ConnectCallerSleepsIff(max: nat, before: seq<Move>, i: nat, later: seq<Move>)
    requires var w := After(max, before);
             i < |w.waiters| && w.waiters[i].pc.CallerTicket? && w.shared.connected
    requires forall m <- later :: LeavesConnection(m)
    requires Moves(Next(After(max, before), WaiterMoves(i)), later).task.pc.Receiving?
    ensures var w := After(max, before);
            var end := Moves(Next(w, WaiterMoves(i)), later);
            i < |end.waiters| && (Asleep(end.waiters[i], end.shared) <==> Announced(w.task, w.shared))
  {
    var w := After(max, before);
    AfterOk(max, before);
    if w.task.pc.Receiving? {
      LateCallerSleeps(w, i, later);
    } else if w.task.pc.Announce? {
      EarlyCallerIsCalled(w, i, later);
    } else {
      NoWayBack(Next(w, WaiterMoves(i)), later);
    }
  }

  // ------------------------------------------------------------------ endings that leave a caller asleep

  lemma {:induction false} CallsAreAnnouncements(max: nat, moves: seq<Move>)
    requires CloseMarksDead !in moves
    ensures var w := After(max, moves);
            && w.closing == 0
            && (w.shared.notified == 0 <==> !Passed(max, moves, Announce) && !Passed(max, moves, Wake))
            && (!Passed(max, moves, Announce) ==>
                  && !w.task.pc.Receiving?
                  && (w.task.pc.Exiting? || w.task.pc.Finishing? ==> w.task.retries >= w.task.max)
                  && (w.task.pc.Done? && !Passed(max, moves, Wake) ==> w.task.result == BadUri))
  {
    AfterOk(max, moves);
    if moves == [] {
    } else {
      var init, last := moves[..|moves| - 1], moves[|moves| - 1];
      assert last in moves;
      AfterOk(max, init);
      CallsAreAnnouncements(max, init);
    }
  }

  /**
  A caller of `connect` that was parked before anybody was called is left asleep by the end of a task
  exactly when no connection was announced before and no task used up its retries. Then the request could
  not be built.
  */
  lemma ConnectCallerLeftAsleepIff(max: nat, moves: seq<Move>, i: nat)
    requires CloseMarksDead !in moves && i < |After(max, moves).waiters|
    requires var w := After(max, moves);
             w.task.pc.Done? && w.waiters[i].pc.CallerParked? && w.waiters[i].ticket == 0
    ensures var w := After(max, moves);
            && (Asleep(w.waiters[i], w.shared) <==> !Passed(max, moves, Announce) && !Passed(max, moves, Wake))
            && (Asleep(w.waiters[i], w.shared) ==> w.task.result == BadUri)
            && (ConnectAgain !in moves ==>
                  (Asleep(w.waiters[i], w.shared) <==> w.task.result == BadUri && !Passed(max, moves, Announce)))
  {
    AfterOk(max, moves);
    CallsAreAnnouncements(max, moves);
    if ConnectAgain !in moves { WokeIsBuried(max, moves); }
  }

  lemma {:induction false} WokeIsBuried(max: nat, moves: seq<Move>)
    requires ConnectAgain !in moves
    ensures Passed(max, moves, Wake) ==> After(max, moves).task.pc.Done? && After(max, moves).task.buried
  {
    AfterOk(max, moves);
    if moves == [] {
    } else {
      var init, last := moves[..|moves| - 1], moves[|moves| - 1];
      assert last in moves;
      AfterOk(max, init);
      WokeIsBuried(max, init);
    }
  }

  /** A fast task leaves the caller of `connect` asleep although the connection is up. */
  lemma ConnectCallerCanSleepThroughItsConnection()
    ensures var w := After(1, [CallerArrives, STEP, TaskMoves(ConnectSucceeds), STEP, STEP, WaiterMoves(0)]);
            && |w.waiters| == 1 && w.waiters[0].pc.CallerParked? && Asleep(w.waiters[0], w.shared)
            && w.shared.connected && w.task.pc.Receiving?
  {
    var up := TaskMoves(ConnectSucceeds);
    var one := [CallerArrives];
    AfterOne(1, [], CallerArrives);
    assert [] + [CallerArrives] == one;
    AfterOne(1, one, STEP);
    AfterOne(1, one + [STEP], up);
    AfterOne(1, one + [STEP] + [up], STEP);
    AfterOne(1, one + [STEP] + [up] + [STEP], STEP);
    AfterOne(1, one + [STEP] + [up] + [STEP] + [STEP], WaiterMoves(0));
    assert one + [STEP] + [up] + [STEP] + [STEP] + [WaiterMoves(0)]
        == [CallerArrives, STEP, up, STEP, STEP, WaiterMoves(0)];
  }

  // ------------------------------------------------------------------ those who are called go on

  /** A call wakes everybody, and these are the calls: an announcement, the end of the client, and a close. */
  lemma CallsWakeEverybody(w: World, m: Move, i: nat)
    requires WorldOk(w) && i < |w.waiters|
    ensures var next := Next(w, m);
            && (next.shared.notified == w.shared.notified + 1
                <==> (m == CloseNotifies && w.closing > 0)
                     || (m.TaskMoves? && (w.task.pc.Announce? || w.task.pc.Wake?)))
            && (next.shared.notified != w.shared.notified ==> !Asleep(next.waiters[i], next.shared))
  {
    assert WaiterOk(w.waiters[i], w);
  }

  /** How many of its own steps bring a caller of `ensure_connection` back, beside a connection. */
  function StepsBack(pc: WaiterPc): nat {
    match pc
    case TakeTicket => 4
    case Recheck => 3
    case Parked => 3
    case ReadDead => 2
    case Check => 1
    case _ => 0
  }

  /** On its way back, or back: in the loop, called if it is parked, or returned with the connection. */
  predicate OnItsWay(w: Waiter, s: Shared) {
    || w.pc.ReadDead? || w.pc.Check? || w.pc.TakeTicket? || w.pc.Recheck?
    || (w.pc.Parked? && w.ticket < s.notified) || w.pc == Returned(true)
  }

  predicate Serving(w: World) {
    w.task.pc.Receiving? && w.shared.connected && !w.shared.dead
  }

  lemma ServingStep(w: World, m: Move)
    requires Serving(w) && LeavesConnection(m)
    ensures Serving(Next(w, m)) && Next(w, m).shared == w.shared && Next(w, m).task == w.task
  {}

  /**
  A caller of `ensure_connection` beside a live client gets its connection with at most four steps of its own,
  whatever else goes on, as long as the connection lives.
  */
  lemma {:induction false} CallerGetsItsConnection(w: World, i: nat, moves: seq<Move>)
    requires Serving(w) && i < |w.waiters| && OnItsWay(w.waiters[i], w.shared)
    requires forall m <- moves :: LeavesConnection(m)
    ensures var end := Moves(w, moves);
            && Serving(end) && end.shared == w.shared && i < |end.waiters| && OnItsWay(end.waiters[i], end.shared)
            && StepsBack(end.waiters[i].pc) + Count(moves, WaiterMoves(i)) >= StepsBack(w.waiters[i].pc)
            && (Count(moves, WaiterMoves(i)) >= StepsBack(w.waiters[i].pc) ==> end.waiters[i].pc == Returned(true))
            && (Count(moves, WaiterMoves(i)) < StepsBack(w.waiters[i].pc) ==>
                  StepsBack(end.waiters[i].pc) == StepsBack(w.waiters[i].pc) - Count(moves, WaiterMoves(i)))
  {
    if moves == [] {
    } else {
      var init, last := moves[..|moves| - 1], moves[|moves| - 1];
      assert last in moves;
      CallerGetsItsConnection(w, i, init);
      ServingStep(Moves(w, init), last);
      OwnMoves(Moves(w, init), last, i);
    }
  }

  /** In every run nobody in the loop of `ensure_connection` is left out beside an announced connection. */
  lemma EveryCallerGetsItsConnection(max: nat, before: seq<Move>, i: nat, later: seq<Move>)
    requires Serving(After(max, before)) && i < |After(max, before).waiters|
    requires var pc := After(max, before).waiters[i].pc;
             pc.ReadDead? || pc.Check? || pc.TakeTicket? || pc.Recheck? || pc.Parked?
    requires (forall m <- later :: LeavesConnection(m)) && Count(later, WaiterMoves(i)) >= 4
    ensures var end := Moves(After(max, before), later); i < |end.waiters| && end.waiters[i].pc == Returned(true)
  {
    var w := After(max, before);
    AfterOk(max, before);
    assert WaiterOk(w.waiters[i], w);
    CallerGetsItsConnection(w, i, later);
  }

  /** A caller of `connect` that was called goes on and returns whether there is a connection. */
  lemma CalledConnectCallerReturns(w: World, i: nat)
    requires i < |w.waiters| && w.waiters[i].pc.CallerParked? && w.waiters[i].ticket < w.shared.notified
    requires !Locked(w.task)
    ensures var end := Next(Next(w, WaiterMoves(i)), WaiterMoves(i)); end.waiters[i].pc == Returned(w.shared.connected)
  {}

  /** A caller of `ensure_connection` that is called because the client died is told so. */
  lemma CalledByDeathReturns(w: World, i: nat)
    requires i < |w.waiters| && w.waiters[i].pc.Parked? && w.waiters[i].ticket < w.shared.notified && w.shared.dead
    ensures var end := Next(Next(w, WaiterMoves(i)), WaiterMoves(i)); end.waiters[i].pc == Returned(false)
  {}

  /** Nobody looks at the connection while the task cleans up: the lock is taken. */
  lemma LockedOut(w: World, i: nat)
    requires i < |w.waiters| && (w.task.pc.Finishing? || w.task.pc.Bury? || w.task.pc.Wake?)
    requires w.waiters[i].pc.Check? || w.waiters[i].pc.Recheck? || w.waiters[i].pc.CallerCheck?
    ensures Next(w, WaiterMoves(i)).waiters == w.waiters
  {}
}
