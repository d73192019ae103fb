/**
 The locks and the data together. Any number of threads run the store's operations, each
 move allowed by the locks alone; what an operation does to the data happens on a move
 inside its critical section, and says nothing about what other threads are doing. Every
 such interleaving is a run of the machine of `System`.
 */
module Interleaving {
  import opened Wrappers
  import opened System
  import opened Refinement
  import Locks

  datatype Machine = Machine(locks: Locks.State, data: Split, tasks: map<nat, Event>)

  /** A thread goes on, or starts the given task; or a request does something that needs no lock of the store. */
  datatype Turn = Turn(thread: nat, to: Locks.Pc, task: Event) | Free(e: Event)

  /** Which operation runs which event. */
  predicate Suits(pc: Locks.Pc, e: Event) {
    match pc
    case Idle => true
    case AppendStarts => e.Append?
    case AppendChecks => e.Append?
    case AppendLooksUp => e.Append?
    case AppendReads => e.Append?
    case AppendWrites => e.Append?
    case RetrieveStarts => e.Commit?
    case RetrieveTakes => e.Commit?
    case UpdateStarts => e.Publish? || e.Poll?
    case UpdateWaits => e.Publish? || e.Poll?
    case UpdateWrites => e.Publish? || e.Poll?
    case SnapshotStarts => e.Snapshot?
    case SnapshotReads => e.Snapshot?
    case SweepStarts => e.Clean?
    case SweepStaged => e.Clean?
    case SweepWaits => e.Clean?
    case SweepWrites => e.Clean?
    case SweepEnds => e.Clean?
  }

  /** The point whose critical section does the whole of an operation other than an append. */
  predicate Acts(pc: Locks.Pc) {
    pc.RetrieveTakes? || pc.UpdateWrites? || pc.SnapshotReads? || pc.SweepWrites?
  }

  /** What a thread does to the data as it leaves a point. */
  function Effect(pc: Locks.Pc, e: Event): Option<Micro> {
    if pc.AppendChecks? then Some(Begin(e))
    else if pc.AppendReads? then Some(ReadInterval)
    else if pc.AppendWrites? then Some(Finish)
    else if Acts(pc) then Some(Micro.Other(e))
    else None
  }

  /**
   The locks let the thread go on; an append looks up the live store if it has to; and an
   event finds what it needs of its own request.
   */
  ghost predicate CanTurn(c: Config, y: Machine, turn: Turn) {
    match turn
    case Turn(t, to, task) =>
      var pc := Locks.PcOf(y.locks, t);
      && Locks.MayGo(y.locks, t, to)
      && (pc.Idle? ==> Suits(to, task))
      && (!pc.Idle? ==> t in y.tasks)
      && (pc.AppendChecks? && y.tasks[t].Append? ==>
            (to.AppendLooksUp? <==> NeedsInterval(c, y.data.s.store.staging, y.tasks[t])))
      && (Acts(pc) ==> Enabled(c, y.data.s, y.tasks[t]))
    case Free(e) =>
      (e.Post? || e.Parse? || e.Lookup? || e.Fill?) && Enabled(c, y.data.s, e)
  }

  ghost function EffectOf(y: Machine, turn: Turn): Option<Micro> {
    match turn
    case Turn(t, _, _) => if t in y.tasks then Effect(Locks.PcOf(y.locks, t), y.tasks[t]) else None
    case Free(e) => Some(Micro.Other(e))
  }

  /** An append between making room and writing. */
  predicate Midway(pc: Locks.Pc) {
    pc.AppendLooksUp? || pc.AppendReads? || pc.AppendWrites?
  }

  /** The append under way, if any, is that of the thread that holds `stagingMu` midway. */
  ghost predicate Pends(y: Machine, t: nat)
    requires t in y.locks.threads
  {
    Midway(y.locks.threads[t]) ==>
      && y.data.inside.Some? && t in y.tasks
      && y.data.inside.value.append == y.tasks[t]
      && (y.data.inside.value.Opened? <==> y.locks.threads[t].AppendWrites?)
  }

  ghost predicate SomeoneMidway(threads: map<nat, Locks.Pc>) {
    exists t :: t in threads && Midway(threads[t])
  }

  ghost predicate HasTask(y: Machine, t: nat)
    requires t in y.locks.threads
  {
    !y.locks.threads[t].Idle? ==> t in y.tasks && Suits(y.locks.threads[t], y.tasks[t])
  }

  ghost predicate Linked(c: Config, y: Machine) {
    && Locks.Consistent(y.locks)
    && OnItsWay(c, y.data)
    && (forall t :: t in y.locks.threads ==> HasTask(y, t))
    && (forall t :: t in y.locks.threads ==> Pends(y, t))
    && (y.data.inside.Some? ==> SomeoneMidway(y.locks.threads))
  }

  /** Whoever holds `stagingMu` and is not midway finds no append under way. */
  lemma NothingInside(c: Config, y: Machine, t: nat)
    requires Linked(c, y) && t in y.locks.threads
    requires Locks.HoldsStaging(y.locks.threads[t]) && !Midway(y.locks.threads[t])
    ensures y.data.inside.None?
  {
    forall u | u in y.locks.threads
      ensures !Midway(y.locks.threads[u])
    {
      assert u != t ==> Locks.Exclude(y.locks.threads, t, u);
    }
  }

  /** What the locks allow is what the data can take: the hand-written conditions of `Refinement` follow. */
  lemma EffectMayHappen(c: Config, y: Machine, turn: Turn)
    requires Linked(c, y) && CanTurn(c, y, turn) && EffectOf(y, turn).Some?
    ensures MayHappen(c, y.data, EffectOf(y, turn).value)
  {
    hide Locks.Consistent, Locks.MayGo, NeedsInterval, Enabled, OnItsWay;
    if turn.Turn? {
      var t := turn.thread;
      var pc := Locks.PcOf(y.locks, t);
      assert t in y.locks.threads && HasTask(y, t) && Pends(y, t);
      if pc.AppendChecks? || pc.RetrieveTakes? || pc.SweepWrites? {
        NothingInside(c, y, t);
      }
    }
  }

  ghost function Next(c: Config, y: Machine, turn: Turn): Machine
    requires Linked(c, y) && CanTurn(c, y, turn)
  {
    var data :=
      if EffectOf(y, turn).Some? then
        EffectMayHappen(c, y, turn);
        Happens(c, y.data, EffectOf(y, turn).value)
      else y.data;
    match turn
    case Turn(t, to, task) =>
      Machine(Locks.Go(y.locks, t, to), data, if Locks.PcOf(y.locks, t).Idle? then y.tasks[t := task] else y.tasks)
    case Free(_) => Machine(y.locks, data, y.tasks)
  }

  lemma NextThreads(c: Config, y: Machine, turn: Turn)
    requires Linked(c, y) && CanTurn(c, y, turn)
    ensures var y' := Next(c, y, turn);
      match turn
      case Turn(t, to, task) =>
        && y'.locks == Locks.Go(y.locks, t, to) && y'.locks.threads == y.locks.threads[t := to]
        && y'.tasks == if Locks.PcOf(y.locks, t).Idle? then y.tasks[t := task] else y.tasks
      case Free(_) => y'.locks == y.locks && y'.tasks == y.tasks
  {
    hide Locks.Consistent, Locks.MayGo, NeedsInterval, Enabled, OnItsWay, EffectOf, Happens, HasTask, Pends;
  }

  /** An effect that changes which append is under way belongs to a thread that holds `stagingMu`. */
  lemma InsideAfter(c: Config, y: Machine, turn: Turn)
    requires Linked(c, y) && CanTurn(c, y, turn)
    ensures turn.Free? ==> Next(c, y, turn).data.inside == y.data.inside
    ensures turn.Turn? ==>
              var pc, inside' := Locks.PcOf(y.locks, turn.thread), Next(c, y, turn).data.inside;
              if pc.AppendChecks? then
                inside' == if turn.to.AppendLooksUp? then Some(Opening(y.tasks[turn.thread], y.data.s.store.staging)) else None
              else if pc.AppendReads? then
                inside'.Some? && inside'.value.Opened? && inside'.value.append == y.tasks[turn.thread]
              else if pc.AppendWrites? then inside'.None?
              else inside' == y.data.inside
  {
    if EffectOf(y, turn).Some? {
      EffectMayHappen(c, y, turn);
    }
    if turn.Turn? && turn.thread in y.locks.threads {
      assert HasTask(y, turn.thread) && Pends(y, turn.thread);
    }
    hide Locks.Consistent, NeedsInterval, Enabled, OnItsWay, Step;
  }

  lemma OthersKeepPending(c: Config, y: Machine, turn: Turn, u: nat)
    requires Linked(c, y) && CanTurn(c, y, turn) && turn.Turn?
    requires u in y.locks.threads && u != turn.thread
    ensures Pends(Next(c, y, turn), u)
  {
    var t := turn.thread;
    InsideAfter(c, y, turn);
    NextThreads(c, y, turn);
    assert Pends(y, u) && HasTask(y, u);
    if t in y.locks.threads {
      assert Locks.Exclude(y.locks.threads, t, u);
    }
    hide Locks.Consistent, Locks.MayGo, NeedsInterval, Enabled, OnItsWay, EffectOf, Happens;
  }

  lemma OwnPending(c: Config, y: Machine, turn: Turn)
    requires Linked(c, y) && CanTurn(c, y, turn) && turn.Turn?
    ensures Pends(Next(c, y, turn), turn.thread)
  {
    var t := turn.thread;
    InsideAfter(c, y, turn);
    NextThreads(c, y, turn);
    if t in y.locks.threads {
      assert Pends(y, t) && HasTask(y, t);
    }
    hide Locks.Consistent, NeedsInterval, Enabled, OnItsWay, EffectOf, Happens, Next, Locks.Go, Acts, Suits;
  }

  lemma OwnTask(c: Config, y: Machine, turn: Turn)
    requires Linked(c, y) && CanTurn(c, y, turn) && turn.Turn?
    ensures turn.thread in Next(c, y, turn).locks.threads && HasTask(Next(c, y, turn), turn.thread)
  {
    NextThreads(c, y, turn);
    if turn.thread in y.locks.threads {
      assert HasTask(y, turn.thread);
    }
    hide Locks.Consistent, NeedsInterval, Enabled, OnItsWay, EffectOf, Happens, Next, Locks.Go, Acts, Pends;
  }

  lemma StillMidway(c: Config, y: Machine, turn: Turn)
    requires Linked(c, y) && CanTurn(c, y, turn) && turn.Turn?
    requires Next(c, y, turn).data.inside.Some?
    ensures SomeoneMidway(Next(c, y, turn).locks.threads)
  {
    var t, threads' := turn.thread, Next(c, y, turn).locks.threads;
    InsideAfter(c, y, turn);
    NextThreads(c, y, turn);
    assert t in threads' && threads'[t] == turn.to;
    assert !Midway(turn.to) ==> !Midway(Locks.PcOf(y.locks, t)) && y.data.inside.Some?;
    hide Locks.Consistent, NeedsInterval, Enabled, OnItsWay, EffectOf, Happens, HasTask, Pends, Next, Locks.Go, Locks.MayGo, Acts;
    if !Midway(turn.to) {
      var u :| u in y.locks.threads && Midway(y.locks.threads[u]);
      assert u in threads' && Midway(threads'[u]);
    }
  }

  lemma NextIsLinked(c: Config, y: Machine, turn: Turn)
    requires Linked(c, y) && CanTurn(c, y, turn)
    ensures Linked(c, Next(c, y, turn))
  {
    var y' := Next(c, y, turn);
    if EffectOf(y, turn).Some? {
      EffectMayHappen(c, y, turn);
      MicroFollows(c, y.data, EffectOf(y, turn).value);
    }
    InsideAfter(c, y, turn);
    NextThreads(c, y, turn);
    assert OnItsWay(c, y'.data);
    hide NeedsInterval, Enabled, OnItsWay, EffectOf, Happens, Next, Locks.Go, Acts, HasTask, Pends, Locks.Consistent, Locks.MayGo;
    match turn {
      case Turn(t, to, _) =>
        Locks.MovesKeepConsistent(y.locks, t, to);
        OwnPending(c, y, turn);
        OwnTask(c, y, turn);
        if y'.data.inside.Some? {
          StillMidway(c, y, turn);
        }
        forall u | u in y'.locks.threads
          ensures HasTask(y', u) && Pends(y', u)
        {
          if u != t {
            OthersKeepPending(c, y, turn, u);
            assert HasTask(y, u);
          }
        }
      case Free(_) =>
        forall u | u in y'.locks.threads
          ensures HasTask(y', u) && Pends(y', u)
        {
          assert HasTask(y, u) && Pends(y, u);
        }
    }
  }

  ghost predicate Plays(c: Config, y: Machine, turns: seq<Turn>)
    requires Linked(c, y)
    decreases |turns|
  {
    turns == [] || (CanTurn(c, y, turns[0]) && (NextIsLinked(c, y, turns[0]); Plays(c, Next(c, y, turns[0]), turns[1..])))
  }

  ghost function Played(c: Config, y: Machine, turns: seq<Turn>): Machine
    requires Linked(c, y) && Plays(c, y, turns)
    decreases |turns|
  {
    if turns == [] then y
    else
      NextIsLinked(c, y, turns[0]);
      Played(c, Next(c, y, turns[0]), turns[1..])
  }

  const REST := Machine(Locks.START, Split(INITIAL, None), map[])

  lemma RestIsLinked(c: Config)
    ensures Linked(c, REST)
  {
    assert Locks.Readers(Locks.START.threads) == {};
  }

  /** The pieces that a play does to the data, in their order. */
  lemma {:induction false} PlayIsSchedule(c: Config, y: Machine, turns: seq<Turn>) returns (ms: seq<Micro>)
    requires Linked(c, y) && Plays(c, y, turns)
    ensures Schedule(c, y.data, ms) && Ends(c, y.data, ms) == Played(c, y, turns).data
    ensures Linked(c, Played(c, y, turns))
    decreases |turns|
  {
    if turns == [] {
      ms := [];
    } else {
      NextIsLinked(c, y, turns[0]);
      var rest := PlayIsSchedule(c, Next(c, y, turns[0]), turns[1..]);
      if EffectOf(y, turns[0]).Some? {
        EffectMayHappen(c, y, turns[0]);
        ms := [EffectOf(y, turns[0]).value] + rest;
        assert ms[1..] == rest;
      } else {
        ms := rest;
      }
    }
  }

  ghost predicate PlaysFromRest(c: Config, turns: seq<Turn>) {
    RestIsLinked(c);
    Plays(c, REST, turns)
  }

  ghost function PlayedFromRest(c: Config, turns: seq<Turn>): Machine
    requires PlaysFromRest(c, turns)
  {
    RestIsLinked(c);
    Played(c, REST, turns)
  }

  /**
   Every interleaving that the two locks allow, of any number of threads, ends with the
   data as after a run of the machine; while no append is midway, with exactly its state.
   */
  lemma InterleavingsAreRuns(c: Config, turns: seq<Turn>) returns (es: seq<Event>)
    requires PlaysFromRest(c, turns)
    ensures IsRun(c, es)
    ensures var y := PlayedFromRest(c, turns);
      && OnItsWay(c, y.data) && After(c, es).value == Seen(c, y.data)
      && (!SomeoneMidway(y.locks.threads) ==> After(c, es).value == y.data.s)
  {
    RestIsLinked(c);
    var ms := PlayIsSchedule(c, REST, turns);
    es := InterruptedAppendsAreAtomic(c, ms);
    hide IsRun, After, Plays, Played, OnItsWay, Seen, Schedule, Ends;
  }
}
