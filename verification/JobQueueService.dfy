/** What the job queue gives to its callers: who is admitted, that an idle queue serves a submission to the end, what a
    finished run has stored, and what a refused one leaves behind (iac-runner/internal/jobq/queue.go). */
module JobQueueService {
  import opened Wrappers
  import opened JobQueue
  import opened JobQueueProgress

  // ---- Admission ----

  /** A submission is admitted exactly when fewer than `cap` jobs hold a slot; it then holds one, and nothing else
      changes. Otherwise it is rejected and nothing changes. */
  lemma AdmittedExactly(cap: nat, repos: seq<Repo>, s: State, i: nat)
    requires Reachable(cap, repos, s) && i < |s.jobs| && s.jobs[i].pc == Submitting(Admitting)
    ensures Next(s, i, Go) ==
              if Count(s.jobs, j => HoldsSlot(j)) < cap
              then Some(s.(sem := s.sem + 1, jobs := s.jobs[i := s.jobs[i].(pc := Submitting(Reserving))]))
              else Some(s.(jobs := s.jobs[i := s.jobs[i].(pc := Submitting(Rejected))]))
  {
    SlotsConserved(cap, repos, s);
    ReachableInv(cap, repos, s);
    AdmitStep(s, i);
  }

  lemma AdmitStep(s: State, i: nat)
    requires i < |s.jobs| && s.jobs[i].pc == Submitting(Admitting) && !s.fault && s.wg >= 0
    ensures Next(s, i, Go) ==
              if s.sem < s.cap
              then Some(s.(sem := s.sem + 1, jobs := s.jobs[i := s.jobs[i].(pc := Submitting(Reserving))]))
              else Some(s.(jobs := s.jobs[i := s.jobs[i].(pc := Submitting(Rejected))]))
  {
  }

  /** It gets a place in the line of its repository exactly when fewer than `cap` admitted unfinished jobs have that
      repository; otherwise its slot goes back. */
  lemma ReservedExactly(cap: nat, repos: seq<Repo>, s: State, i: nat)
    requires Reachable(cap, repos, s) && i < |s.jobs| && s.jobs[i].pc == Submitting(Reserving)
    ensures var repo := s.jobs[i].repo; var n := Count(s.jobs, j => HoldsPending(j) && j.repo == repo);
            Next(s, i, Go) ==
              if n < cap
              then Some(s.(pending := s.pending[repo := n + 1],
                           jobs := s.jobs[i := s.jobs[i].(pc := Submitting(MakingRunId))]))
              else Some(s.(jobs := s.jobs[i := s.jobs[i].(pc := Submitting(RefusedReceive))]))
  {
    ReachableInv(cap, repos, s);
    PendingCounts(cap, repos, s, s.jobs[i].repo);
    ReserveStep(s, i);
  }

  lemma ReserveStep(s: State, i: nat)
    requires i < |s.jobs| && s.jobs[i].pc == Submitting(Reserving) && !s.fault && s.wg >= 0
    ensures var repo := s.jobs[i].repo; var n := if repo in s.pending then s.pending[repo] else 0;
            Next(s, i, Go) ==
              if n < s.cap
              then Some(s.(pending := s.pending[repo := n + 1],
                           jobs := s.jobs[i := s.jobs[i].(pc := Submitting(MakingRunId))]))
              else Some(s.(jobs := s.jobs[i := s.jobs[i].(pc := Submitting(RefusedReceive))]))
  {
  }

  // ---- An idle queue serves ----

  /** All other submissions are finished or have not begun. */
  ghost predicate Alone(s: State, i: nat) {
    i < |s.jobs| && forall k :: 0 <= k < |s.jobs| && k != i ==>
      Finished(s.jobs[k]) || s.jobs[k].pc == Submitting(Submitted)
  }

  /** On the way to the execution without a refusal, a time-out or a failure. */
  predicate Coming(j: Job) {
    match j.pc
    case Submitting(p) =>
      p.Submitted? || p.Admitting? || p.Reserving? || p.MakingRunId? || p.MakingDir? || p.WritingMeta? || p.Spawning?
    case Waiting(p) => !p.FailBusy?
    case Holding(p) => p.AwaitSlot?
    case Window(p) => p.MarkRunning? || p.OpenOutput? || p.Executing?
    case _ => false
  }

  /** On the way from the execution to the end, with success stored as soon as it is written. */
  predicate Going(j: Job) {
    match j.pc
    case Window(p) => p.Executing? || p.Finishing? || (p == ReleaseSlot(false) && j.meta == Some(Succeeded))
    case Holding(p) => p == Unlocking(false) && j.meta == Some(Succeeded)
    case Ending(p) => !p.Recovering? && j.meta == Some(Succeeded)
    case _ => false
  }

  predicate OnTrack(j: Job) { Coming(j) || Going(j) }

  /** Its next action when nothing stands in the way. */
  function Turn(j: Job): Action {
    if j.pc == Waiting(AwaitLock) && j.acquirer != Sent then AcquirerGo else Go
  }

  lemma AloneIsFree(s: State, i: nat)
    requires Inv(s) && Alone(s, i)
    ensures Slots(s.jobs) == Bit(HoldsSlot(s.jobs[i]))
    ensures PendingOf(s.jobs, s.jobs[i].repo) == Bit(HoldsPending(s.jobs[i]))
    ensures forall l :: l in s.locked ==> Owns(s.jobs[i]) && s.jobs[i].lock == l
  {
    forall k | 0 <= k < |s.jobs| && k != i
      ensures !HoldsSlot(s.jobs[k]) && !HoldsPending(s.jobs[k]) && !Owns(s.jobs[k])
    {
      assert Shaped(s.jobs[k]);
    }
    CountOne(s.jobs, j => HoldsSlot(j), i);
    CountOne(s.jobs, j => HoldsPending(j) && j.repo == s.jobs[i].repo, i);
    forall l | l in s.locked ensures Owns(s.jobs[i]) && s.jobs[i].lock == l { assert Owned(s, l); }
  }

  lemma {:induction false} CountOne(jobs: seq<Job>, p: Job -> bool, i: nat)
    requires i < |jobs| && forall k :: 0 <= k < |jobs| && k != i ==> !p(jobs[k])
    ensures Count(jobs, p) == if p(jobs[i]) then 1 else 0
  {
    if i == 0 { CountZero(jobs[1..], p); } else { CountOne(jobs[1..], p, i - 1); }
  }

  /** Its own next action is enabled and keeps it on the track. */
  lemma TurnWorks(s: State, i: nat)
    requires Inv(s) && Alone(s, i) && OnTrack(s.jobs[i]) && s.jobs[i].pc != Ending(Done)
    ensures Next(s, i, Turn(s.jobs[i])).Some?
    ensures var t := Next(s, i, Turn(s.jobs[i])).value;
            && i < |t.jobs| && OnTrack(t.jobs[i])
            && (Coming(s.jobs[i]) && s.jobs[i].pc != Window(Executing) ==> Coming(t.jobs[i]))
            && (Going(s.jobs[i]) ==> Going(t.jobs[i]))
  {
    var j := s.jobs[i];
    var v := ViewOf(s, j);
    AloneIsFree(s, i);
    assert Shaped(j);
    TurnReady(s, i);
    JobTurns(j, v);
  }

  lemma TurnReady(s: State, i: nat)
    requires Inv(s) && Alone(s, i) && OnTrack(s.jobs[i]) && s.jobs[i].pc != Ending(Done)
    ensures var j := s.jobs[i]; var v := ViewOf(s, j);
            && (!HoldsSlot(j) ==> v.slotFree) && (!HoldsPending(j) ==> v.canReserve) && (!Owns(j) ==> v.mutexFree)
            && (HoldsSlot(j) ==> s.sem > 0)
  {
    AloneIsFree(s, i);
    assert PendingExact(s);
  }

  lemma JobTurns(j: Job, v: View)
    requires Shaped(j) && OnTrack(j) && j.pc != Ending(Done)
    requires (!HoldsSlot(j) ==> v.slotFree) && (!HoldsPending(j) ==> v.canReserve) && (!Owns(j) ==> v.mutexFree)
    ensures JobNext(j, Turn(j), v).Some?
    ensures var e := JobNext(j, Turn(j), v).value;
            && OnTrack(e.job) && (Coming(j) && j.pc != Window(Executing) ==> Coming(e.job))
            && (e.sem == Receive ==> HoldsSlot(j)) && (Going(j) ==> Going(e.job))
  {
    match j.pc {
      case Submitting(p) =>
      case Waiting(p) =>
      case Holding(p) =>
      case Window(p) =>
      case Ending(p) =>
    }
  }

  lemma StaysAlone(s: State, i: nat, a: Action, t: State)
    requires Inv(s) && Alone(s, i) && Next(s, i, a) == Some(t)
    ensures Inv(t) && Alone(t, i) && TotalRank(t.jobs) < TotalRank(s.jobs)
    ensures |t.jobs| == |s.jobs| && forall k :: 0 <= k < |s.jobs| && k != i ==> t.jobs[k] == s.jobs[k]
  {
    StepInv(s, i, a, t);
    StepDescends(s, i, a, t);
  }

  /** Only this submission moves, without a timer and without a failure. */
  ghost predicate Own(moves: seq<Move>, i: nat) {
    forall k :: 0 <= k < |moves| ==> moves[k].job == i && (moves[k].action == Go || moves[k].action == AcquirerGo)
  }

  lemma OneMoreMove(s: State, i: nat, a: Action, rest: seq<Move>)
    requires Next(s, i, a).Some? && Own(rest, i) && (a == Go || a == AcquirerGo)
    ensures Own([Move(i, a)] + rest, i) && Run(s, [Move(i, a)] + rest) == Run(Next(s, i, a).value, rest)
  {
    assert ([Move(i, a)] + rest)[1..] == rest;
  }

  lemma {:induction false} ComesToWork(s: State, i: nat) returns (moves: seq<Move>)
    requires Inv(s) && Alone(s, i) && Coming(s.jobs[i])
    ensures Own(moves, i) && Run(s, moves).Some?
    ensures var t := Run(s, moves).value; Inv(t) && Alone(t, i) && t.jobs[i].pc == Window(Executing)
    decreases TotalRank(s.jobs)
  {
    if s.jobs[i].pc == Window(Executing) {
      moves := [];
    } else {
      TurnWorks(s, i);
      var a := Turn(s.jobs[i]);
      var t := Next(s, i, a).value;
      StaysAlone(s, i, a, t);
      var rest := ComesToWork(t, i);
      moves := [Move(i, a)] + rest;
      OneMoreMove(s, i, a, rest);
    }
  }

  lemma {:induction false} GoesToEnd(s: State, i: nat) returns (moves: seq<Move>)
    requires Inv(s) && Alone(s, i) && Going(s.jobs[i])
    ensures Own(moves, i) && Run(s, moves).Some?
    ensures var t := Run(s, moves).value;
            Inv(t) && Alone(t, i) && t.jobs[i].pc == Ending(Done) && t.jobs[i].meta == Some(Succeeded)
    decreases TotalRank(s.jobs)
  {
    if s.jobs[i].pc == Ending(Done) {
      moves := [];
    } else {
      TurnWorks(s, i);
      var a := Turn(s.jobs[i]);
      var t := Next(s, i, a).value;
      StaysAlone(s, i, a, t);
      var rest := GoesToEnd(t, i);
      moves := [Move(i, a)] + rest;
      OneMoreMove(s, i, a, rest);
    }
  }

  /** Whatever has happened before, a submission to a queue in which nothing else is under way is admitted, executes,
      and ends as succeeded, by its own steps alone. */
  lemma IdleQueueServes(cap: nat, repos: seq<Repo>, s: State, i: nat) returns (before: seq<Move>, after: seq<Move>)
    requires Reachable(cap, repos, s) && Alone(s, i) && s.jobs[i].pc == Submitting(Submitted)
    ensures Own(before, i) && Own(after, i)
    ensures Run(s, before).Some? && Run(Run(s, before).value, after).Some?
    ensures var work := Run(s, before).value; var end := Run(work, after).value;
            && i < |work.jobs| && work.jobs[i].pc == Window(Executing)
            && i < |end.jobs| && end.jobs[i].pc == Ending(Done) && end.jobs[i].meta == Some(Succeeded)
  {
    ReachableInv(cap, repos, s);
    before := ComesToWork(s, i);
    after := GoesToEnd(Run(s, before).value, i);
  }

  /** In particular the only submission of a fresh queue. */
  lemma FreshQueueServes(cap: nat, repo: Repo) returns (before: seq<Move>, after: seq<Move>)
    requires cap > 0
    ensures Own(before, 0) && Own(after, 0)
    ensures Run(Init(cap, [repo]), before).Some? && Run(Run(Init(cap, [repo]), before).value, after).Some?
    ensures var work := Run(Init(cap, [repo]), before).value; var end := Run(work, after).value;
            && |work.jobs| == |end.jobs| == 1 && work.jobs[0].pc == Window(Executing)
            && end.jobs[0].pc == Ending(Done) && end.jobs[0].meta == Some(Succeeded)
  {
    var s := Init(cap, [repo]);
    assert Run(s, []) == Some(s);
    before, after := IdleQueueServes(cap, [repo], s, 0);
    InitInv(cap, [repo]);
    RunInv(s, before);
    RunInv(Run(s, before).value, after);
  }

  // ---- What a run leaves behind ----

  /** Once its work is over a worker has a terminal status. */
  predicate Told(j: Job) {
    match j.pc
    case Holding(p) => p == Unlocking(false) ==> Terminal(j.meta)
    case Window(p) => p == ReleaseSlot(false) ==> Terminal(j.meta)
    case Ending(p) => !p.Recovering? ==> Terminal(j.meta)
    case _ => true
  }

  /** A directory is there only if its removal is still due. */
  predicate Tidy(j: Job) {
    j.pc.Submitting? && (j.pc.submit == UndoPending(false) || j.pc.submit == UndoSlot(false)) ==> !j.dir
  }

  lemma JobTells(j: Job, a: Action, v: View)
    requires Shaped(j) && JobNext(j, a, v).Some?
    ensures Told(j) && a != Lose ==> Told(JobNext(j, a, v).value.job)
  {
    if a != AcquirerGo && a != OrphanGo {
      match j.pc {
        case Submitting(p) =>
        case Waiting(p) =>
        case Holding(p) =>
        case Window(p) =>
        case Ending(p) =>
      }
    }
  }

  lemma JobTidies(j: Job, a: Action, v: View)
    requires Shaped(j) && JobNext(j, a, v).Some?
    ensures Tidy(j) ==> Tidy(JobNext(j, a, v).value.job)
  {
    if a != AcquirerGo && a != OrphanGo {
      match j.pc {
        case Submitting(p) =>
        case Waiting(p) =>
        case Holding(p) =>
        case Window(p) =>
        case Ending(p) =>
      }
    }
  }

  lemma JobRejected(j: Job, a: Action, v: View)
    requires Shaped(j) && Tidy(j) && JobNext(j, a, v).Some? && j.pc != Submitting(Rejected)
    requires JobNext(j, a, v).value.job.pc == Submitting(Rejected)
    ensures JobNext(j, a, v).value.job.dir ==> j.pc == Submitting(RemovingDir) && a == Refuse
  {
    if a != AcquirerGo && a != OrphanGo { assert j.pc.Submitting?; }
  }

  /** No store update of this run fails. */
  ghost predicate Stores(moves: seq<Move>, i: nat) {
    forall k :: 0 <= k < |moves| && moves[k].job == i ==> moves[k].action != Lose
  }

  lemma {:induction false} RunLeaves(s: State, moves: seq<Move>, i: nat)
    requires Inv(s) && Run(s, moves).Some? && i < |s.jobs| && Tidy(s.jobs[i])
    ensures var t := Run(s, moves).value;
            Inv(t) && i < |t.jobs| && Tidy(t.jobs[i]) && (Told(s.jobs[i]) && Stores(moves, i) ==> Told(t.jobs[i]))
    decreases |moves|
  {
    if moves != [] {
      var m := moves[0];
      var u := Next(s, m.job, m.action).value;
      StepInv(s, m.job, m.action, u);
      if m.job == i {
        assert Shaped(s.jobs[i]);
        JobTells(s.jobs[i], m.action, ViewOf(s, s.jobs[i]));
        JobTidies(s.jobs[i], m.action, ViewOf(s, s.jobs[i]));
      }
      RunLeaves(u, moves[1..], i);
    }
  }

  /** A worker that is done has stored a terminal status, whatever timed out, failed or panicked, unless a store update
      of its own run failed. */
  lemma DoneIsTerminal(cap: nat, repos: seq<Repo>, moves: seq<Move>, s: State, i: nat)
    requires cap > 0 && Run(Init(cap, repos), moves) == Some(s) && i < |s.jobs| && Stores(moves, i)
    requires s.jobs[i].pc == Ending(Done)
    ensures Terminal(s.jobs[i].meta)
  {
    InitInv(cap, repos);
    RunInv(Init(cap, repos), moves);
    RunLeaves(Init(cap, repos), moves, i);
  }

  /** A submission that is rejected leaves no status, and a run directory only if removing it failed. */
  lemma RejectedLeavesNothing(cap: nat, repos: seq<Repo>, s: State, i: nat, a: Action, t: State)
    requires Reachable(cap, repos, s) && i < |s.jobs| && Next(s, i, a) == Some(t)
    requires t.jobs[i].pc == Submitting(Rejected) && s.jobs[i].pc != Submitting(Rejected)
    ensures t.jobs[i].meta == None && (t.jobs[i].dir ==> s.jobs[i].pc == Submitting(RemovingDir) && a == Refuse)
  {
    ReachesTidy(cap, repos, s, i);
    RejectedStep(s, i, a, t);
  }

  lemma ReachesTidy(cap: nat, repos: seq<Repo>, s: State, i: nat)
    requires Reachable(cap, repos, s) && i < |s.jobs|
    ensures Inv(s) && Tidy(s.jobs[i])
  {
    var moves :| Run(Init(cap, repos), moves) == Some(s);
    InitInv(cap, repos);
    RunInv(Init(cap, repos), moves);
    RunLeaves(Init(cap, repos), moves, i);
  }

  lemma RejectedStep(s: State, i: nat, a: Action, t: State)
    requires Inv(s) && i < |s.jobs| && Tidy(s.jobs[i]) && Next(s, i, a) == Some(t)
    requires i < |t.jobs| && t.jobs[i].pc == Submitting(Rejected) && s.jobs[i].pc != Submitting(Rejected)
    ensures t.jobs[i].meta == None && (t.jobs[i].dir ==> s.jobs[i].pc == Submitting(RemovingDir) && a == Refuse)
  {
    StepInv(s, i, a, t);
    assert Shaped(s.jobs[i]) && Shaped(t.jobs[i]);
    JobRejected(s.jobs[i], a, ViewOf(s, s.jobs[i]));
  }
}
