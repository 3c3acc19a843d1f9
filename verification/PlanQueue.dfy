/** The plan machine on top of the job queue: that one run of a repository executes at a time is not built in here, it
    follows from the queue's mutexes. */
module PlanQueue {
  import opened Wrappers
  import Q = JobQueue
  import P = PlanArtifacts

  /** Run and job have the same index. */
  datatype World = World(queue: Q.State, plans: P.State)

  /** A step of the queue, a step of the process that a job executes, or an event beside both. */
  datatype Event = QueueStep(job: nat, action: Q.Action) | Work(job: nat, move: P.Move) | Beside(event: P.Event)

  /** The job runs its commands, or writes its terminal state. */
  predicate AtWork(j: Q.Job) { j.pc == Q.Window(Q.Executing) || j.pc == Q.Window(Q.Finishing) }

  /** A panic of a job at work ends its process; otherwise it goes on to the slot release only when the work is done. */
  ghost function Next(w: World, e: Event): Option<World> {
    match e
    case QueueStep(i, a) =>
      (match Q.Next(w.queue, i, a)
       case None => None
       case Some(queue) =>
         if i < |w.plans.runs| && i < |queue.jobs| && P.InWindow(w.plans.runs[i]) && !AtWork(queue.jobs[i]) then
           if a == Q.Panic then Some(World(queue, P.Aborted(w.plans, i))) else None
         else Some(World(queue, w.plans)))
    case Work(i, m) =>
      if i >= |w.queue.jobs| || !AtWork(w.queue.jobs[i]) then None
      else (match P.JobStep(w.plans, i, m) case None => None case Some(plans) => Some(World(w.queue, plans)))
    case Beside(event) =>
      if event.Step? || event.Submit? then None
      else match P.Next(w.plans, event) case None => None case Some(plans) => Some(World(w.queue, plans))
  }

  /** The submissions, as they are stored. */
  datatype Request = Request(repo: string, path: string, kind: P.Kind, started: int)

  function Submits(rs: seq<Request>): seq<P.Event> {
    seq(|rs|, i requires 0 <= i < |rs| => P.Submit(rs[i].repo, rs[i].path, rs[i].kind, rs[i].started))
  }

  function Repos(rs: seq<Request>): seq<Q.Repo> { seq(|rs|, i requires 0 <= i < |rs| => rs[i].repo) }

  function NewRun(r: Request): P.Run {
    P.Run(r.repo, r.path, r.kind, r.started, P.Queued, true, P.Live, "", false, false)
  }

  function Init(cap: nat, rs: seq<Request>): World {
    World(Q.Init(cap, Repos(rs)), P.State(seq(|rs|, i requires 0 <= i < |rs| => NewRun(rs[i])), map[], [], {}))
  }

  ghost function Run(w: World, events: seq<Event>): Option<World>
    decreases |events|
  {
    if events == [] then Some(w) else match Next(w, events[0]) case None => None case Some(u) => Run(u, events[1..])
  }

  // ---- The two machines fit ----

  ghost predicate Coupled(w: World) {
    && |w.plans.runs| == |w.queue.jobs|
    && forall i :: 0 <= i < |w.plans.runs| ==>
         w.plans.runs[i].repo == w.queue.jobs[i].repo && (P.InWindow(w.plans.runs[i]) ==> AtWork(w.queue.jobs[i]))
  }

  /** While a job is at work no other run of its repository has begun and not ended: the guard of the plan machine. */
  lemma QueueGuardsPlans(cap: nat, repos: seq<Q.Repo>, w: World, i: nat)
    requires Coupled(w) && Q.Reachable(cap, repos, w.queue) && i < |w.queue.jobs| && AtWork(w.queue.jobs[i])
    requires !P.InWindow(w.plans.runs[i])
    ensures P.Free(w.plans, w.plans.runs[i].repo)
  {
    forall j | 0 <= j < |w.plans.runs| && w.plans.runs[j].repo == w.plans.runs[i].repo
      ensures !P.InWindow(w.plans.runs[j])
    {
      Q.MutualExclusion(cap, repos, w.queue, i, j);
    }
  }

  lemma QueueReaches(cap: nat, repos: seq<Q.Repo>, s: Q.State, i: nat, a: Q.Action, t: Q.State)
    requires Q.Reachable(cap, repos, s) && Q.Next(s, i, a) == Some(t)
    ensures Q.Reachable(cap, repos, t) && |t.jobs| == |s.jobs| && t.jobs == s.jobs[i := t.jobs[i]]
    ensures t.jobs[i].repo == s.jobs[i].repo
  {
    Q.ReachableInv(cap, repos, s);
    Q.StepInv(s, i, a, t);
    var moves :| Q.Run(Q.Init(cap, repos), moves) == Some(s);
    QueueSnoc(Q.Init(cap, repos), moves, Q.Move(i, a));
  }

  lemma {:induction false} QueueSnoc(s: Q.State, moves: seq<Q.Move>, m: Q.Move)
    ensures Q.Run(s, moves + [m]) == match Q.Run(s, moves) case None => None case Some(t) => Q.Next(t, m.job, m.action)
    decreases |moves|
  {
    if moves == [] {
      assert [] + [m] == [m] && [m][1..] == [];
    } else {
      assert (moves + [m])[0] == moves[0] && (moves + [m])[1..] == moves[1..] + [m];
      var next := Q.Next(s, moves[0].job, moves[0].action);
      if next.Some? { QueueSnoc(next.value, moves[1..], m); }
    }
  }

  lemma PlansReach(s: P.State, e: P.Event, t: P.State)
    requires P.Reachable(s) && P.Next(s, e) == Some(t)
    ensures P.Reachable(t)
  {
    var events :| P.RunFrom(P.INITIAL, events) == Some(s);
    P.RunSnoc(P.INITIAL, events, e);
  }

  lemma {:induction false} InitReaches(cap: nat, rs: seq<Request>)
    ensures P.RunFrom(P.INITIAL, Submits(rs)) == Some(Init(cap, rs).plans)
    decreases |rs|
  {
    if rs != [] {
      var front, r := rs[..|rs| - 1], rs[|rs| - 1];
      InitReaches(cap, front);
      assert Submits(rs) == Submits(front) + [P.Submit(r.repo, r.path, r.kind, r.started)];
      P.RunSnoc(P.INITIAL, Submits(front), P.Submit(r.repo, r.path, r.kind, r.started));
      assert Init(cap, rs).plans.runs == Init(cap, front).plans.runs + [NewRun(r)];
    } else {
      assert Submits(rs) == [] && Init(cap, rs).plans.runs == [];
    }
  }

  // ---- Every step keeps them together ----

  ghost predicate Inv(cap: nat, rs: seq<Request>, w: World) {
    Coupled(w) && Q.Reachable(cap, Repos(rs), w.queue) && P.Reachable(w.plans)
  }

  lemma InitTogether(cap: nat, rs: seq<Request>)
    requires cap > 0
    ensures Inv(cap, rs, Init(cap, rs))
  {
    InitReaches(cap, rs);
    assert Q.Run(Q.Init(cap, Repos(rs)), []) == Some(Q.Init(cap, Repos(rs)));
  }

  lemma QueueStepKeeps(cap: nat, rs: seq<Request>, w: World, i: nat, a: Q.Action, u: World)
    requires Inv(cap, rs, w) && Next(w, QueueStep(i, a)) == Some(u)
    ensures Inv(cap, rs, u)
  {
    QueueReaches(cap, Repos(rs), w.queue, i, a, u.queue);
    QueueStepCouples(w, i, a, u);
    if u.plans != w.plans {
      PlansReach(w.plans, P.Step(i, P.Abort), u.plans);
    }
  }

  lemma QueueStepCouples(w: World, i: nat, a: Q.Action, u: World)
    requires Coupled(w) && Next(w, QueueStep(i, a)) == Some(u)
    requires i < |w.queue.jobs| == |u.queue.jobs| && u.queue.jobs == w.queue.jobs[i := u.queue.jobs[i]]
    requires u.queue.jobs[i].repo == w.queue.jobs[i].repo
    ensures Coupled(u) && (u.plans == w.plans || P.Next(w.plans, P.Step(i, P.Abort)) == Some(u.plans))
  {
  }

  lemma WorkKeeps(cap: nat, rs: seq<Request>, w: World, i: nat, m: P.Move, u: World)
    requires Inv(cap, rs, w) && Next(w, Work(i, m)) == Some(u)
    ensures Inv(cap, rs, u)
  {
    if !P.InWindow(w.plans.runs[i]) { QueueGuardsPlans(cap, Repos(rs), w, i); }
    assert P.Next(w.plans, P.Step(i, m)) == Some(u.plans);
    P.ReachableInv(w.plans);
    P.StepIsLocal(w.plans, u.plans, i, m);
    PlansReach(w.plans, P.Step(i, m), u.plans);
  }

  lemma BesideKeeps(cap: nat, rs: seq<Request>, w: World, e: P.Event, u: World)
    requires Inv(cap, rs, w) && Next(w, Beside(e)) == Some(u)
    ensures Inv(cap, rs, u)
  {
    PlansReach(w.plans, e, u.plans);
  }

  lemma {:induction false} RunKeeps(cap: nat, rs: seq<Request>, w: World, events: seq<Event>)
    requires Inv(cap, rs, w) && Run(w, events).Some?
    ensures Inv(cap, rs, Run(w, events).value)
    decreases |events|
  {
    if events != [] {
      var u := Next(w, events[0]).value;
      match events[0] {
        case QueueStep(i, a) => QueueStepKeeps(cap, rs, w, i, a, u);
        case Work(i, m) => WorkKeeps(cap, rs, w, i, m, u);
        case Beside(e) => BesideKeeps(cap, rs, w, e, u);
      }
      RunKeeps(cap, rs, u, events[1..]);
    }
  }

  // ---- The results ----

  /** Whatever the queue does, with time-outs and panics, its plans are in a state that the plan machine reaches by
      itself: what is proved about that machine holds of the runs that the queue executes. */
  lemma QueuePlansAreReachable(cap: nat, rs: seq<Request>, events: seq<Event>, w: World)
    requires cap > 0 && Run(Init(cap, rs), events) == Some(w)
    ensures P.Reachable(w.plans) && Q.Reachable(cap, Repos(rs), w.queue) && Coupled(w)
  {
    InitTogether(cap, rs);
    RunKeeps(cap, rs, Init(cap, rs), events);
  }

  /** Under the queue a saved plan is used by at most one successful apply, unless its consumption failed in both
      parts. */
  lemma PlanUsedOnceUnderQueue(cap: nat, rs: seq<Request>, events: seq<Event>, w: World, x: nat, y: nat)
    requires cap > 0 && Run(Init(cap, rs), events) == Some(w)
    requires x < |w.plans.uses| && y < |w.plans.uses| && w.plans.uses[x].plan == w.plans.uses[y].plan
    requires w.plans.uses[x].plan !in w.plans.leaky
    ensures x == y
  {
    QueuePlansAreReachable(cap, rs, events, w);
    P.PlanUsedOnce(w.plans, x, y);
  }
}
