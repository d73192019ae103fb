/**
 The two locks of the store. Any number of threads run the store's operations; each is
 followed from one lock operation to the next. `liveMu` is a read-write lock on which a
 waiting writer keeps new readers out.
 */
module Locks {
  import opened MapSums

  /** Where a thread stands in the operation that it runs. */
  datatype Pc =
    | Idle
    | AppendStarts    // waits for stagingMu
    | AppendChecks    // stagingMu; may refuse the chunk, or write it to an open transaction
    | AppendLooksUp   // stagingMu, waits to read under liveMu
    | AppendReads     // stagingMu, liveMu for reading
    | AppendWrites    // stagingMu; opens the transaction
    | RetrieveStarts  // waits for stagingMu
    | RetrieveTakes   // stagingMu
    | UpdateStarts    // waits for its turn as a writer
    | UpdateWaits     // keeps new readers out, waits for the present ones
    | UpdateWrites    // liveMu for writing
    | SnapshotStarts  // waits to read under liveMu
    | SnapshotReads   // liveMu for reading
    | SweepStarts     // waits for stagingMu
    | SweepStaged     // stagingMu, waits for its turn as a writer
    | SweepWaits      // stagingMu, keeps new readers out, waits for the present ones
    | SweepWrites     // stagingMu, liveMu for writing
    | SweepEnds       // stagingMu

  predicate HoldsStaging(pc: Pc) {
    || pc.AppendChecks? || pc.AppendLooksUp? || pc.AppendReads? || pc.AppendWrites? || pc.RetrieveTakes?
    || pc.SweepStaged? || pc.SweepWaits? || pc.SweepWrites? || pc.SweepEnds?
  }

  predicate ReadsLive(pc: Pc) {
    pc.AppendReads? || pc.SnapshotReads?
  }

  predicate WritesLive(pc: Pc) {
    pc.UpdateWrites? || pc.SweepWrites?
  }

  /** The one writer that holds the lock or is next. */
  predicate BlocksReaders(pc: Pc) {
    WritesLive(pc) || pc.UpdateWaits? || pc.SweepWaits?
  }

  /** The program text: which point follows which. */
  predicate Follows(pc: Pc, to: Pc) {
    match pc
    case Idle => to.AppendStarts? || to.RetrieveStarts? || to.UpdateStarts? || to.SnapshotStarts? || to.SweepStarts?
    case AppendStarts => to.AppendChecks?
    case AppendChecks => to.AppendLooksUp? || to.Idle?
    case AppendLooksUp => to.AppendReads?
    case AppendReads => to.AppendWrites?
    case AppendWrites => to.Idle?
    case RetrieveStarts => to.RetrieveTakes?
    case RetrieveTakes => to.Idle?
    case UpdateStarts => to.UpdateWaits?
    case UpdateWaits => to.UpdateWrites?
    case UpdateWrites => to.Idle?
    case SnapshotStarts => to.SnapshotReads?
    case SnapshotReads => to.Idle?
    case SweepStarts => to.SweepStaged?
    case SweepStaged => to.SweepWaits?
    case SweepWaits => to.SweepWrites?
    case SweepWrites => to.SweepEnds?
    case SweepEnds => to.Idle?
  }

  /** The locks' own fields: `staging` and `writer` are mutexes, `readers` counts. */
  datatype State = State(threads: map<nat, Pc>, staging: bool, writer: bool, readers: int)

  const START := State(map[], false, false, 0)

  function PcOf(s: State, t: nat): Pc {
    if t in s.threads then s.threads[t] else Idle
  }

  /** A thread may go on if the lock that it needs for that, if any, lets it. */
  predicate MayGo(s: State, t: nat, to: Pc) {
    var pc := PcOf(s, t);
    && Follows(pc, to)
    && (HoldsStaging(to) && !HoldsStaging(pc) ==> !s.staging)
    && (ReadsLive(to) && !ReadsLive(pc) ==> !s.writer)
    && (BlocksReaders(to) && !BlocksReaders(pc) ==> !s.writer)
    && (WritesLive(to) && !WritesLive(pc) ==> s.readers == 0)
  }

  function Flag(held: bool, before: bool, after: bool): bool {
    if before == after then held else after
  }

  function Count(holds: bool): int {
    if holds then 1 else 0
  }

  function Go(s: State, t: nat, to: Pc): State {
    var pc := PcOf(s, t);
    State(s.threads[t := to],
          Flag(s.staging, HoldsStaging(pc), HoldsStaging(to)),
          Flag(s.writer, BlocksReaders(pc), BlocksReaders(to)),
          s.readers - Count(ReadsLive(pc)) + Count(ReadsLive(to)))
  }

  datatype Move = Move(thread: nat, to: Pc)

  ghost predicate Schedule(s: State, moves: seq<Move>)
    decreases |moves|
  {
    moves == [] || (MayGo(s, moves[0].thread, moves[0].to) && Schedule(Go(s, moves[0].thread, moves[0].to), moves[1..]))
  }

  ghost function After(s: State, moves: seq<Move>): State
    decreases |moves|
  {
    if moves == [] then s else After(Go(s, moves[0].thread, moves[0].to), moves[1..])
  }

  // ---- The locks' fields tell who holds what ----

  ghost function Readers(threads: map<nat, Pc>): set<nat> {
    set t | t in threads && ReadsLive(threads[t])
  }

  /** Two threads do not hold the same exclusive lock. */
  ghost predicate Exclude(threads: map<nat, Pc>, t: nat, u: nat)
    requires t in threads && u in threads
  {
    && !(HoldsStaging(threads[t]) && HoldsStaging(threads[u]))
    && !(BlocksReaders(threads[t]) && BlocksReaders(threads[u]))
  }

  ghost predicate StagingInUse(threads: map<nat, Pc>) {
    exists t :: t in threads && HoldsStaging(threads[t])
  }

  ghost predicate WriterAhead(threads: map<nat, Pc>) {
    exists t :: t in threads && BlocksReaders(threads[t])
  }

  ghost predicate Consistent(s: State) {
    && (s.staging <==> StagingInUse(s.threads))
    && (s.writer <==> WriterAhead(s.threads))
    && s.readers == |Readers(s.threads)|
    && (forall t, u :: t in s.threads && u in s.threads && t != u ==> Exclude(s.threads, t, u))
    && (forall t :: t in s.threads && WritesLive(s.threads[t]) ==> s.readers == 0)
  }

  lemma ReadersAfter(s: State, t: nat, to: Pc)
    ensures |Readers(s.threads[t := to])| == |Readers(s.threads)| - Count(ReadsLive(PcOf(s, t))) + Count(ReadsLive(to))
  {
    ReadersElsewhere(s, t, to);
    WithOrWithout(Readers(s.threads), t);
    WithOrWithout(Readers(s.threads[t := to]), t);
    hide Readers, ReadsLive;
  }

  lemma ReadersElsewhere(s: State, t: nat, to: Pc)
    ensures Readers(s.threads[t := to]) - {t} == Readers(s.threads) - {t}
    ensures t in Readers(s.threads[t := to]) <==> ReadsLive(to)
    ensures t in Readers(s.threads) <==> ReadsLive(PcOf(s, t))
  {
    IdleReadsNothing();
    hide ReadsLive;
  }

  lemma IdleReadsNothing()
    ensures !ReadsLive(Idle)
  {
  }

  lemma WithOrWithout(threads: set<nat>, t: nat)
    ensures |threads| == |threads - {t}| + Count(t in threads)
  {
    if t in threads {
      assert threads == (threads - {t}) + {t};
    } else {
      assert threads - {t} == threads;
    }
  }

  lemma FlagsAfter(s: State, t: nat, to: Pc)
    requires Consistent(s) && MayGo(s, t, to)
    ensures Go(s, t, to).staging <==> StagingInUse(Go(s, t, to).threads)
    ensures Go(s, t, to).writer <==> WriterAhead(Go(s, t, to).threads)
  {
    var pc, s' := PcOf(s, t), Go(s, t, to);
    forall u | u in s.threads && u != t
      ensures HoldsStaging(s.threads[u]) ==> s.staging && !HoldsStaging(pc)
      ensures BlocksReaders(s.threads[u]) ==> s.writer && !BlocksReaders(pc)
    {
      assert t in s.threads ==> Exclude(s.threads, t, u);
    }
    assert s'.threads[t] == to;
    assert forall u :: u in s.threads && u != t ==> u in s'.threads && s'.threads[u] == s.threads[u];
    hide HoldsStaging, BlocksReaders, ReadsLive, WritesLive, Follows;
  }

  lemma MovesKeepConsistent(s: State, t: nat, to: Pc)
    requires Consistent(s) && MayGo(s, t, to)
    ensures Consistent(Go(s, t, to))
  {
    var s' := Go(s, t, to);
    ReadersAfter(s, t, to);
    FlagsAfter(s, t, to);
    forall u, v | u in s'.threads && v in s'.threads && u != v
      ensures Exclude(s'.threads, u, v)
    {
      assert u in s.threads && v in s.threads ==> Exclude(s.threads, u, v);
    }
    forall u | u in s'.threads && WritesLive(s'.threads[u])
      ensures s'.readers == 0
    {
      assert u in s.threads && WritesLive(s.threads[u]) ==> s.writer;
    }
  }

  /** Whatever the interleaving: a writer of the live store is alone, and so is the user of the staging buffer. */
  lemma {:induction false} LocksExclude(s: State, moves: seq<Move>)
    requires Consistent(s) && Schedule(s, moves)
    ensures Consistent(After(s, moves))
    decreases |moves|
  {
    if moves != [] {
      MovesKeepConsistent(s, moves[0].thread, moves[0].to);
      LocksExclude(Go(s, moves[0].thread, moves[0].to), moves[1..]);
    }
  }

  lemma MutualExclusion(moves: seq<Move>, t: nat, u: nat)
    requires Schedule(START, moves)
    requires t != u
    ensures var p, q := PcOf(After(START, moves), t), PcOf(After(START, moves), u);
      && !(HoldsStaging(p) && HoldsStaging(q))
      && !(WritesLive(p) && (WritesLive(q) || ReadsLive(q)))
  {
    assert Readers(START.threads) == {};
    LocksExclude(START, moves);
    var s := After(START, moves);
    if t in s.threads && u in s.threads {
      assert Exclude(s.threads, t, u);
      assert ReadsLive(s.threads[u]) ==> u in Readers(s.threads);
    }
  }

  /** `stagingMu` is taken before `liveMu`: whoever waits for it holds, and queues for, nothing on `liveMu`. */
  lemma StagingComesFirst(s: State, t: nat, to: Pc)
    requires Follows(PcOf(s, t), to) && HoldsStaging(to) && !HoldsStaging(PcOf(s, t))
    ensures !ReadsLive(PcOf(s, t)) && !BlocksReaders(PcOf(s, t))
  {
  }

  // ---- Nothing gets stuck ----

  /** How many moves an operation has still to make, at most. */
  function Left(pc: Pc): nat {
    match pc
    case Idle => 0
    case AppendStarts => 5
    case AppendChecks => 4
    case AppendLooksUp => 3
    case AppendReads => 2
    case AppendWrites => 1
    case RetrieveStarts => 2
    case RetrieveTakes => 1
    case UpdateStarts => 3
    case UpdateWaits => 2
    case UpdateWrites => 1
    case SnapshotStarts => 2
    case SnapshotReads => 1
    case SweepStarts => 5
    case SweepStaged => 4
    case SweepWaits => 3
    case SweepWrites => 2
    case SweepEnds => 1
  }

  ghost function Lefts(threads: map<nat, Pc>): map<nat, int> {
    map t | t in threads :: Left(threads[t])
  }

  ghost function Work(s: State): int {
    Sum(Lefts(s.threads))
  }

  lemma WorkBounds(s: State)
    ensures 0 <= Work(s)
    ensures forall t :: t in s.threads ==> Left(s.threads[t]) <= Work(s)
  {
    SumBounds(Lefts(s.threads));
    assert forall t :: t in s.threads ==> Lefts(s.threads)[t] == Left(s.threads[t]);
  }

  /** Every move of a running operation brings the whole closer to rest. */
  lemma MovesDoWork(s: State, t: nat, to: Pc)
    requires MayGo(s, t, to) && !PcOf(s, t).Idle?
    ensures Work(Go(s, t, to)) < Work(s)
  {
    CloserToRest(PcOf(s, t), to);
    hide Left, Follows;
    assert t in s.threads;
    SumUpdate(Lefts(s.threads), t, Left(to));
    assert Lefts(s.threads[t := to]) == Lefts(s.threads)[t := Left(to)];
    hide Sum;
  }

  lemma CloserToRest(pc: Pc, to: Pc)
    requires Follows(pc, to) && !pc.Idle?
    ensures Left(to) < Left(pc)
  {
  }

  /**
   As long as any operation is unfinished, some unfinished operation can move: the lock
   order and the writers' priority never block all.
   */
  lemma NoDeadlock(s: State, t: nat) returns (m: Move)
    requires Consistent(s) && t in s.threads && !s.threads[t].Idle?
    ensures m.thread in s.threads && !s.threads[m.thread].Idle? && MayGo(s, m.thread, m.to)
  {
    if s.writer {
      var u :| u in s.threads && BlocksReaders(s.threads[u]);
      if !WritesLive(s.threads[u]) && s.readers != 0 {
        var r :| r in Readers(s.threads);
        m := Onward(s, r);
      } else {
        m := Onward(s, u);
      }
    } else if s.staging {
      var u :| u in s.threads && HoldsStaging(s.threads[u]);
      m := Onward(s, u);
    } else {
      m := Onward(s, t);
    }
  }

  /** Where a thread goes next, if its way does not depend on the locks. */
  function Next(pc: Pc): Pc {
    match pc
    case Idle => SnapshotStarts
    case AppendStarts => AppendChecks
    case AppendChecks => Idle
    case AppendLooksUp => AppendReads
    case AppendReads => AppendWrites
    case RetrieveStarts => RetrieveTakes
    case UpdateStarts => UpdateWaits
    case UpdateWaits => UpdateWrites
    case SnapshotStarts => SnapshotReads
    case SweepStarts => SweepStaged
    case SweepStaged => SweepWaits
    case SweepWaits => SweepWrites
    case SweepWrites => SweepEnds
    case _ => Idle
  }

  lemma Onward(s: State, t: nat) returns (m: Move)
    requires t in s.threads && !s.threads[t].Idle?
    requires s.writer ==> ReadsLive(s.threads[t]) || WritesLive(s.threads[t]) || (BlocksReaders(s.threads[t]) && s.readers == 0)
    requires !s.writer && s.staging ==> HoldsStaging(s.threads[t])
    requires !s.writer ==> !BlocksReaders(s.threads[t])
    ensures m.thread == t && MayGo(s, t, m.to)
  {
    m := Move(t, Next(s.threads[t]));
  }

  /** A waiting writer is not overtaken: until it goes on, no new reader gets in. */
  lemma WaitingWriterKeepsReadersOut(s: State, t: nat, to: Pc)
    requires Consistent(s) && s.writer && MayGo(s, t, to)
    ensures Readers(Go(s, t, to).threads) <= Readers(s.threads)
  {
  }

  /** From every state, every way of finishing the running operations does finish them: at most `Work` moves. */
  lemma {:induction false} OperationsFinish(s: State, moves: seq<Move>)
    requires Schedule(s, moves) && FinishOnly(s, moves)
    ensures |moves| <= Work(s) - Work(After(s, moves))
    decreases |moves|
  {
    if moves != [] {
      MovesDoWork(s, moves[0].thread, moves[0].to);
      OperationsFinish(Go(s, moves[0].thread, moves[0].to), moves[1..]);
    }
  }

  /** No move of the schedule starts an operation. */
  ghost predicate FinishOnly(s: State, moves: seq<Move>)
    decreases |moves|
  {
    moves == [] ||
    (!PcOf(s, moves[0].thread).Idle? && FinishOnly(Go(s, moves[0].thread, moves[0].to), moves[1..]))
  }

  ghost predicate AtRest(s: State) {
    forall t :: t in s.threads ==> s.threads[t].Idle?
  }

  /** In particular every reachable state can be run to rest. */
  lemma {:induction false} CanComeToRest(s: State) returns (moves: seq<Move>)
    requires Consistent(s)
    ensures Schedule(s, moves) && FinishOnly(s, moves) && AtRest(After(s, moves))
    decreases Work(s)
  {
    if AtRest(s) {
      moves := [];
    } else {
      var t :| t in s.threads && !s.threads[t].Idle?;
      var m := NoDeadlock(s, t);
      MovesDoWork(s, m.thread, m.to);
      MovesKeepConsistent(s, m.thread, m.to);
      WorkBounds(s);
      var rest := CanComeToRest(Go(s, m.thread, m.to));
      moves := [m] + rest;
      assert moves[1..] == rest;
    }
  }

  /** No interleaving of any operations reaches a state from which the started ones could not all finish. */
  lemma NoInterleavingDeadlocks(moves: seq<Move>) returns (rest: seq<Move>)
    requires Schedule(START, moves)
    ensures Schedule(After(START, moves), rest) && FinishOnly(After(START, moves), rest)
    ensures AtRest(After(After(START, moves), rest))
  {
    assert Readers(START.threads) == {};
    LocksExclude(START, moves);
    rest := CanComeToRest(After(START, moves));
  }
}
