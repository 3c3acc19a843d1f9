/** Deadlock freedom and termination of the job queue: with finitely many submissions every run is
    short, can always be continued without a timer or a failure while something is unfinished, and
    ends with every gate given back. */
module JobQueueProgress {
  import opened Wrappers
  import opened JobQueue

  /** Nothing is left to do for this submission, its acquirer and its orphan. */
  predicate Finished(j: Job) {
    && (j.pc == Submitting(Rejected) || j.pc == Ending(Done) || j.pc == Crashed)
    && j.acquirer != Locking && j.acquirer != Sending
    && j.orphan != Receiving && j.orphan != Releasing
  }

  predicate Quiet(s: State) {
    forall i :: 0 <= i < |s.jobs| ==> Finished(s.jobs[i])
  }

  /** The actions that need neither an expired timer nor a failure. */
  predicate Normal(a: Action) {
    a == Go || a == AcquirerGo || a == OrphanGo
  }

  // ---- Deadlock freedom ----

  /** A worker step waits only for the channel of its acquirer or for a slot. */
  lemma WorkerReady(s: State, i: nat)
    requires Inv(s) && i < |s.jobs|
    requires s.jobs[i].pc != Submitting(Rejected) && s.jobs[i].pc != Ending(Done) && s.jobs[i].pc != Crashed
    requires s.jobs[i].pc == Waiting(AwaitLock) ==> s.jobs[i].acquired
    requires s.jobs[i].pc == Holding(AwaitSlot) ==> s.sem < s.cap
    ensures Next(s, i, Go).Some?
  {
    var j := s.jobs[i];
    assert Shaped(j);
    JobReady(j, ViewOf(s, j));
    if HoldsSlot(j) { CountPositive(s.jobs, k => HoldsSlot(k), i); }
  }

  lemma JobReady(j: Job, v: View)
    requires Shaped(j)
    requires j.pc != Submitting(Rejected) && j.pc != Ending(Done) && j.pc != Crashed
    requires j.pc == Waiting(AwaitLock) ==> j.acquired
    requires j.pc == Holding(AwaitSlot) ==> v.slotFree
    ensures JobNext(j, Go, v).Some?
    ensures JobNext(j, Go, v).value.sem == Receive ==> HoldsSlot(j)
  {
    match j.pc {
      case Submitting(p) =>
      case Waiting(p) =>
      case Holding(p) =>
      case Window(p) =>
      case Ending(p) =>
    }
  }

  /** Whoever waits for an execution slot, some step is enabled: a full semaphore has an owner that can move. */
  lemma SlotProgress(s: State, i: nat) returns (k: nat, a: Action)
    requires Inv(s) && i < |s.jobs| && s.jobs[i].pc == Holding(AwaitSlot)
    ensures Normal(a) && Next(s, k, a).Some?
  {
    a := Go;
    if s.sem < s.cap {
      k := i;
    } else {
      k := CountWitness(s.jobs, j => HoldsSlot(j));
    }
    WorkerReady(s, k);
  }

  /** A locked mutex has an owner, and the owner or a slot holder can move. */
  lemma MutexProgress(s: State, l: nat) returns (k: nat, a: Action)
    requires Inv(s) && l in s.locked
    ensures Normal(a) && Next(s, k, a).Some?
  {
    assert Owned(s, l);
    k :| 0 <= k < |s.jobs| && Owns(s.jobs[k]) && s.jobs[k].lock == l;
    var j := s.jobs[k];
    assert Shaped(j);
    if j.acquirer == Sending {
      a := AcquirerGo;
    } else if j.orphan == Releasing || j.orphan == Receiving {
      a := OrphanGo;
    } else if j.pc == Holding(AwaitSlot) {
      k, a := SlotProgress(s, k);
    } else {
      a := Go;
      WorkerReady(s, k);
    }
  }

  /** No deadlock: while a submitter, worker, acquirer or orphan is unfinished, some step is enabled
      that needs neither a timer nor a failure. */
  lemma NoDeadlock(cap: nat, repos: seq<Repo>, s: State) returns (k: nat, a: Action)
    requires Reachable(cap, repos, s) && !Quiet(s)
    ensures Normal(a) && Next(s, k, a).Some?
  {
    ReachableInv(cap, repos, s);
    k, a := Progress(s);
  }

  lemma Progress(s: State) returns (k: nat, a: Action)
    requires Inv(s) && !Quiet(s)
    ensures Normal(a) && Next(s, k, a).Some?
  {
    var i :| 0 <= i < |s.jobs| && !Finished(s.jobs[i]);
    var j := s.jobs[i];
    assert Shaped(j);
    if j.acquirer == Locking {
      if j.lock in s.locked {
        k, a := MutexProgress(s, j.lock);
      } else {
        k, a := i, AcquirerGo;
      }
    } else if j.acquirer == Sending {
      k, a := i, AcquirerGo;
    } else if j.orphan == Receiving || j.orphan == Releasing {
      k, a := i, OrphanGo;
    } else if j.pc == Holding(AwaitSlot) {
      k, a := SlotProgress(s, i);
    } else {
      k, a := i, Go;
      WorkerReady(s, i);
    }
  }

  // ---- Termination ----

  function PcRank(pc: Pc): nat {
    match pc
    case Submitting(p) =>
      (match p
       case Submitted => 30 case Admitting => 29 case Reserving => 28 case RefusedReceive => 1
       case MakingRunId => 27 case MakingDir => 26 case WritingMeta => 25 case Spawning => 24
       case UndoPending(_) => 3 case UndoSlot(_) => 2 case RemovingDir => 1 case Rejected => 0)
    case Waiting(p) =>
      (match p
       case HandBack => 23 case LookupLock => 22 case CreateLock => 21 case StartAcquirer => 20
       case AwaitLock => 19 case FailBusy => 4)
    case Holding(p) => (match p case AwaitSlot => 18 case FailCapacity => 17 case Unlocking(_) => 4)
    case Window(p) =>
      (match p
       case MarkRunning => 16 case OpenOutput => 15 case Executing => 14 case Finishing => 13
       case FailInWindow => 12 case ReleaseSlot(_) => 11)
    case Ending(p) =>
      (match p case Recovering => 3 case ReleasePending => 2 case WgDone => 1 case Done => 0)
    case Crashed => 0
  }

  function Rank(j: Job): nat {
    PcRank(j.pc)
    + (match j.acquirer case NotStarted => 3 case Locking => 2 case Sending => 1 case Sent => 0)
    + (match j.orphan case NoOrphan => 3 case Receiving => 2 case Releasing => 1 case Released => 0)
  }

  function TotalRank(jobs: seq<Job>): nat {
    if jobs == [] then 0 else Rank(jobs[0]) + TotalRank(jobs[1..])
  }

  lemma {:induction false} TotalRankPut(jobs: seq<Job>, i: nat, j: Job)
    requires i < |jobs|
    ensures TotalRank(jobs[i := j]) + Rank(jobs[i]) == TotalRank(jobs) + Rank(j)
  {
    if i == 0 {
      assert jobs[0 := j][1..] == jobs[1..];
    } else {
      TotalRankPut(jobs[1..], i - 1, j);
      assert jobs[i := j][1..] == jobs[1..][i - 1 := j];
    }
  }

  lemma SubmitDescends(j: Job, p: SubmitPc, a: Action, v: View)
    requires j.pc == Submitting(p) && SubmitNext(j, p, a, v).Some?
    ensures Rank(SubmitNext(j, p, a, v).value.job) < Rank(j)
  {
  }

  lemma WaitDescends(j: Job, p: WaitPc, a: Action, v: View)
    requires p.StartAcquirer? ==> j.acquirer == NotStarted
    requires p.AwaitLock? ==> j.orphan == NoOrphan
    requires j.pc == Waiting(p) && WaitNext(j, p, a, v).Some?
    ensures Rank(WaitNext(j, p, a, v).value.job) < Rank(j)
  {
  }

  lemma HoldDescends(j: Job, p: OwnPc, a: Action, v: View)
    requires j.pc == Holding(p) && HoldNext(j, p, a, v).Some?
    ensures Rank(HoldNext(j, p, a, v).value.job) < Rank(j)
  {
  }

  lemma WindowDescends(j: Job, p: WindowPc, a: Action)
    requires j.pc == Window(p) && WindowNext(j, p, a).Some?
    ensures Rank(WindowNext(j, p, a).value.job) < Rank(j)
  {
  }

  lemma EndDescends(j: Job, p: EndPc, a: Action)
    requires j.pc == Ending(p) && EndNext(j, p, a).Some?
    ensures Rank(EndNext(j, p, a).value.job) < Rank(j)
  {
  }

  lemma JobDescends(j: Job, a: Action, v: View)
    requires j.pc == Waiting(StartAcquirer) ==> j.acquirer == NotStarted
    requires j.pc == Waiting(AwaitLock) ==> j.orphan == NoOrphan
    requires JobNext(j, a, v).Some?
    ensures Rank(JobNext(j, a, v).value.job) < Rank(j)
  {
    if a == AcquirerGo || a == OrphanGo {
    } else {
      match j.pc {
        case Submitting(p) => SubmitDescends(j, p, a, v);
        case Waiting(p) => WaitDescends(j, p, a, v);
        case Holding(p) => HoldDescends(j, p, a, v);
        case Window(p) => WindowDescends(j, p, a);
        case Ending(p) => EndDescends(j, p, a);
      }
    }
  }

  /** Every step, a time-out or a panic included, lowers the rank. */
  lemma StepDescends(s: State, i: nat, a: Action, t: State)
    requires Inv(s) && Next(s, i, a) == Some(t)
    ensures TotalRank(t.jobs) < TotalRank(s.jobs)
  {
    assert Shaped(s.jobs[i]);
    JobDescends(s.jobs[i], a, ViewOf(s, s.jobs[i]));
    TotalRankPut(s.jobs, i, t.jobs[i]);
  }

  lemma {:induction false} RunDescends(s: State, moves: seq<Move>)
    requires Inv(s) && Run(s, moves).Some?
    ensures TotalRank(Run(s, moves).value.jobs) + |moves| <= TotalRank(s.jobs)
    decreases |moves|
  {
    if moves != [] {
      var t := Next(s, moves[0].job, moves[0].action).value;
      StepDescends(s, moves[0].job, moves[0].action, t);
      StepInv(s, moves[0].job, moves[0].action, t);
      RunDescends(t, moves[1..]);
    }
  }

  lemma {:induction false} RankOfNew(jobs: seq<Job>)
    requires forall i :: 0 <= i < |jobs| ==> Rank(jobs[i]) <= 36
    ensures TotalRank(jobs) <= 36 * |jobs|
  {
    if jobs != [] { RankOfNew(jobs[1..]); }
  }

  /** Termination: no run of n submissions has more than 36 n steps, whatever the schedule, the
      time-outs and the panics. */
  lemma RunsAreFinite(cap: nat, repos: seq<Repo>, moves: seq<Move>)
    requires cap > 0 && Run(Init(cap, repos), moves).Some?
    ensures |moves| <= 36 * |repos|
  {
    InitInv(cap, repos);
    RunDescends(Init(cap, repos), moves);
    RankOfNew(Init(cap, repos).jobs);
  }

  /** A run that cannot continue without a timer or a failure has ended clean: the semaphore and the
      pending map are empty, every mutex is free, and `Drain` finds the wait group at zero. */
  lemma RunsEndClean(cap: nat, repos: seq<Repo>, s: State)
    requires Reachable(cap, repos, s)
    requires forall k, a :: Normal(a) ==> Next(s, k, a).None?
    ensures Quiet(s)
    ensures s.sem == 0 && s.pending == map[] && s.locked == {} && s.wg == 0
  {
    ReachableInv(cap, repos, s);
    if !Quiet(s) {
      var k, a := Progress(s);
      assert false;
    }
    QuietIsClean(s);
  }

  lemma QuietIsClean(s: State)
    requires Inv(s) && Quiet(s)
    ensures s.sem == 0 && s.pending == map[] && s.locked == {} && s.wg == 0
  {
    CountZero(s.jobs, j => HoldsSlot(j));
    CountZero(s.jobs, j => HoldsWg(j));
    forall r: Repo ensures r !in s.pending {
      CountZero(s.jobs, j => HoldsPending(j) && j.repo == r);
    }
    forall k | 0 <= k < |s.jobs| ensures !Owns(s.jobs[k]) {
      assert Finished(s.jobs[k]) && Shaped(s.jobs[k]);
    }
    assert forall l :: l in s.locked ==> Owned(s, l);
  }

  /** From every reachable state the queue can come to rest by normal steps alone. */
  lemma CanComeToRest(cap: nat, repos: seq<Repo>, s: State) returns (moves: seq<Move>)
    requires Reachable(cap, repos, s)
    ensures forall k :: 0 <= k < |moves| ==> Normal(moves[k].action)
    ensures Run(s, moves).Some? && Quiet(Run(s, moves).value)
    ensures Run(s, moves).value.sem == 0 && Run(s, moves).value.wg == 0
  {
    ReachableInv(cap, repos, s);
    moves := RestFrom(s);
    RunInv(s, moves);
    QuietIsClean(Run(s, moves).value);
  }

  lemma {:induction false} RestFrom(s: State) returns (moves: seq<Move>)
    requires Inv(s)
    ensures forall k :: 0 <= k < |moves| ==> Normal(moves[k].action)
    ensures Run(s, moves).Some? && Quiet(Run(s, moves).value)
    decreases TotalRank(s.jobs)
  {
    if Quiet(s) {
      moves := [];
    } else {
      var k, a := Progress(s);
      var t := Next(s, k, a).value;
      StepInv(s, k, a, t);
      StepDescends(s, k, a, t);
      var rest := RestFrom(t);
      moves := [Move(k, a)] + rest;
      assert moves[1..] == rest;
    }
  }
}
