/** The worklet wrapper around a kernel work item (driver_src/wlan/tdsp_tasklet.c), with its
    schedule call and its work routine cut into the steps that other threads can come between.
    The work queue does not run one item twice at the same time. */
module Worklet {

  /** Where the worker is: not running this item, about to test the flag, or inside the function. */
  datatype Worker = Idle | Taken | InFunc

  /** midway counts the schedule calls that have set the flag and not yet queued the work;
      scheduled, clearCalls and runs are history: schedule calls so far, those that found the flag
      clear, and calls of the function. */
  datatype Sys = Sys(running: bool, pending: bool, worker: Worker, midway: nat,
                     scheduled: nat, clearCalls: nat, runs: nat)

  datatype Move = SetFlag | Queue | Dequeue | Check | Clear

  predicate Enabled(s: Sys, m: Move)
  {
    match m
    case SetFlag => true
    case Queue => s.midway > 0
    case Dequeue => s.pending && s.worker == Idle
    case Check => s.worker == Taken
    case Clear => s.worker == InFunc
  }

  function Next(s: Sys, m: Move): Sys
    requires Enabled(s, m)
  {
    match m
    case SetFlag => s.(running := true, midway := s.midway + 1, scheduled := s.scheduled + 1,
                       clearCalls := if s.running then s.clearCalls else s.clearCalls + 1)
    case Queue => s.(pending := true, midway := s.midway - 1)
    case Dequeue => s.(pending := false, worker := Taken)
    case Check => if s.running then s.(worker := InFunc, runs := s.runs + 1) else s.(worker := Idle)
    case Clear => s.(running := false, worker := Idle)
  }

  function Initial(): Sys { Sys(false, false, Idle, 0, 0, 0, 0) }

  function Attempt(s: Sys, m: Move): Sys { if Enabled(s, m) then Next(s, m) else s }

  /** The state that a sequence of moves leads to; a move that is not enabled does not happen. */
  function RunFrom(s: Sys, moves: seq<Move>): (r: Sys)
    decreases |moves|
  {
    if moves == [] then s
    else
      Attempt(RunFrom(s, moves[..|moves| - 1]), moves[|moves| - 1])
  }

  function Run(moves: seq<Move>): (r: Sys) { RunFrom(Initial(), moves) }

  predicate Quiescent(s: Sys) { !s.pending && s.worker == Idle && s.midway == 0 }

  ghost predicate Inv(s: Sys)
  {
    && (s.worker == InFunc ==> s.running)
    && (s.running ==> s.pending || s.worker != Idle || s.midway > 0)
    && s.clearCalls == s.runs + (if s.running && s.worker != InFunc then 1 else 0)
    && s.runs + (if s.pending then 1 else 0) + (if s.worker == Taken then 1 else 0) + s.midway <= s.scheduled
  }

  /** The worklet data and its work item, moved one step at a time. */
  class WorkletData {
    var running: bool
    var pending: bool
    var worker: Worker
    var midway: nat
    ghost var scheduled: nat
    ghost var clearCalls: nat
    ghost var runs: nat

    ghost function Now(): Sys
      reads this
    {
      Sys(running, pending, worker, midway, scheduled, clearCalls, runs)
    }

    ghost predicate Valid()
      reads this
    {
      Inv(Now())
    }

    /** tdsp_worklet_init */
    constructor ()
      ensures Valid() && Now() == Initial()
    {
      running, pending, worker, midway := false, false, Idle, 0;
      scheduled, clearCalls, runs := 0, 0, 0;
    }

    /** tdsp_worklet_schedule, first step. */
    method ScheduleSet()
      requires Valid()
      modifies this
      ensures Valid() && Now() == Next(old(Now()), SetFlag)
    {
      if !running { clearCalls := clearCalls + 1; }
      running := true;
      midway := midway + 1;
      scheduled := scheduled + 1;
    }

    /** tdsp_worklet_schedule, second step: schedule_work does nothing for a work already pending. */
    method ScheduleQueue()
      requires Valid() && midway > 0
      modifies this
      ensures Valid() && Now() == Next(old(Now()), Queue)
    {
      midway := midway - 1;
      if !pending { pending := true; }
    }

    /** The work queue picks the item up. */
    method PickUp()
      requires Valid() && pending && worker == Idle
      modifies this
      ensures Valid() && Now() == Next(old(Now()), Dequeue)
    {
      pending := false;
      worker := Taken;
    }

    /** _tdsp_worklet_routine up to the call of the function. */
    method RoutineCheck()
      requires Valid() && worker == Taken
      modifies this
      ensures Valid() && Now() == Next(old(Now()), Check)
    {
      if running {
        worker := InFunc;
        runs := runs + 1;
      } else {
        worker := Idle;
      }
    }

    /** _tdsp_worklet_routine after the function has returned. */
    method RoutineClear()
      requires Valid() && worker == InFunc
      modifies this
      ensures Valid() && Now() == Next(old(Now()), Clear)
    {
      running := false;
      worker := Idle;
    }

    /** Any number of callers and the worker take their steps in the order given. At rest the flag
        is clear and the function has run at most once for each call. */
    method Interleave(moves: seq<Move>)
      requires Valid()
      modifies this
      ensures Valid() && Now() == RunFrom(old(Now()), moves)
      ensures runs <= scheduled && (Quiescent(Now()) ==> !running)
    {
      ghost var start := Now();
      for i := 0 to |moves|
        invariant Valid() && Now() == RunFrom(start, moves[..i])
      {
        match moves[i] {
          case SetFlag => ScheduleSet();
          case Queue => if midway > 0 { ScheduleQueue(); }
          case Dequeue => if pending && worker == Idle { PickUp(); }
          case Check => if worker == Taken { RoutineCheck(); }
          case Clear => if worker == InFunc { RoutineClear(); }
        }
        assert moves[..i + 1][..i] == moves[..i];
      }
      assert moves[..|moves|] == moves;
    }

    /** tdsp_worklet_running: true only while a run is under way or still to come. */
    method WorkletRunning() returns (r: bool)
      requires Valid()
      ensures r ==> !Quiescent(Now())
      ensures !r ==> worker != InFunc && runs == clearCalls
    {
      r := running;
    }
  }

  lemma {:induction false} InvHolds(s: Sys, moves: seq<Move>)
    requires Inv(s)
    ensures Inv(RunFrom(s, moves)) && s.runs <= RunFrom(s, moves).runs
    decreases |moves|
  {
    if moves != [] { InvHolds(s, moves[..|moves| - 1]); }
  }

  /** In every interleaving the function runs at most once per schedule call, and the flag cannot
      stay set: once nothing is pending, running or half scheduled, it is clear. */
  lemma NeverStuck(moves: seq<Move>)
    ensures var s := Run(moves);
            s.runs <= s.scheduled && (Quiescent(s) ==> !s.running)
  {
    InvHolds(Initial(), moves);
  }

  /** At rest there have been as many runs as schedule calls that found the flag clear: every
      other call shared a run, or was lost. */
  lemma RunsAreFreshCalls(moves: seq<Move>)
    requires Quiescent(Run(moves))
    ensures var s := Run(moves);
            s.runs == s.clearCalls && (s.runs == s.scheduled <==> s.clearCalls == s.scheduled)
  {
    InvHolds(Initial(), moves);
  }

  // ---------- which calls are lost ----------

  /** Among the moves there is a schedule call made while the function is not running. */
  predicate CalledOutside(s: Sys, moves: seq<Move>)
    decreases |moves|
  {
    moves != [] &&
    var before := moves[..|moves| - 1];
    CalledOutside(s, before) || (moves[|moves| - 1] == SetFlag && RunFrom(s, before).worker != InFunc)
  }

  /** Once a call has been made outside the function, a run has followed it or is on its way. */
  lemma {:induction false} OutsideCallServed(s: Sys, moves: seq<Move>, done: nat)
    requires Inv(s) && s.runs >= done
    requires (s.running && s.worker != InFunc) || CalledOutside(s, moves)
    ensures var e := RunFrom(s, moves); e.runs > done || (e.running && e.worker != InFunc)
    decreases |moves|
  {
    if moves != [] {
      var before := moves[..|moves| - 1];
      InvHolds(s, before);
      if (s.running && s.worker != InFunc) || CalledOutside(s, before) { OutsideCallServed(s, before, done); }
    }
  }

  /** While calls come only from inside the function, nothing starts it again. */
  lemma {:induction false} InsideCallsLost(s: Sys, moves: seq<Move>)
    requires Inv(s) && (s.worker == InFunc || !s.running) && !CalledOutside(s, moves)
    ensures var e := RunFrom(s, moves); e.runs == s.runs && (e.worker == InFunc || !e.running)
    decreases |moves|
  {
    if moves != [] {
      InvHolds(s, moves[..|moves| - 1]);
      InsideCallsLost(s, moves[..|moves| - 1]);
    }
  }

  /** Which calls are answered. A schedule call made in s is followed by a start of the function
      before everything comes to rest if and only if the function is not running at the call, or
      a later call comes when it is not running. Every other call is lost. */
  lemma CallIsServedExactly(s: Sys, later: seq<Move>)
    requires Inv(s)
    requires Quiescent(RunFrom(Next(s, SetFlag), later))
    ensures RunFrom(Next(s, SetFlag), later).runs > s.runs
            <==> s.worker != InFunc || CalledOutside(Next(s, SetFlag), later)
  {
    var called := Next(s, SetFlag);
    InvHolds(called, later);
    if s.worker != InFunc || CalledOutside(called, later) {
      OutsideCallServed(called, later, s.runs);
    } else {
      InsideCallsLost(called, later);
    }
  }

  lemma OneMove(s: Sys, moves: seq<Move>, r: Sys, m: Move) returns (more: seq<Move>)
    requires RunFrom(s, moves) == r
    ensures more == moves + [m] && RunFrom(s, more) == Attempt(r, m)
  {
    more := moves + [m];
    assert more[..|moves|] == moves;
  }

  lemma TwoMoves(s: Sys, moves: seq<Move>, r: Sys, a: Move, b: Move) returns (more: seq<Move>)
    requires RunFrom(s, moves) == r
    ensures more == moves + [a, b] && RunFrom(s, more) == Attempt(Attempt(r, a), b)
  {
    more := OneMove(s, moves, r, a);
    more := OneMove(s, more, Attempt(r, a), b);
  }

  lemma FourMoves(s: Sys, a: Move, b: Move, c: Move, d: Move) returns (moves: seq<Move>)
    ensures moves == [a, b, c, d]
    ensures RunFrom(s, moves) == Attempt(Attempt(Attempt(Attempt(s, a), b), c), d)
  {
    moves := TwoMoves(s, [], s, a, b);
    moves := TwoMoves(s, moves, Attempt(Attempt(s, a), b), c, d);
  }

  lemma FunctionEntered() returns (first: seq<Move>)
    ensures Run(first) == Sys(true, false, InFunc, 0, 1, 1, 1)
  {
    first := FourMoves(Initial(), SetFlag, Queue, Dequeue, Check);
  }

  /** A call that is lost: it comes while the function runs, its flag is wiped by the routine, and
      the work it queues finds nothing to do. */
  lemma LostWakeup() returns (first: seq<Move>, s: Sys, later: seq<Move>, e: Sys)
    ensures s == Run(first) && s.worker == InFunc && later == [Queue, Clear, Dequeue, Check]
    ensures e == RunFrom(Next(s, SetFlag), later) && Quiescent(e) && e.runs == s.runs && e.scheduled > s.scheduled
  {
    first := FunctionEntered();
    s := Sys(true, false, InFunc, 0, 1, 1, 1);
    later := FourMoves(Sys(true, false, InFunc, 1, 2, 1, 1), Queue, Clear, Dequeue, Check);
    e := Sys(false, false, Idle, 0, 2, 1, 1);
  }
}
