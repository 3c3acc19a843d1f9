/** Saved plans: recorded by plan runs, looked up and used by apply runs, with pulls and rotation in between
    (iac-runner/internal/jobq/exec.go). That one run per repository executes at a time is a guard of the steps here;
    PlanQueue derives it from the job queue. */
module PlanArtifacts {
  import opened Wrappers

  datatype Kind = Plan | Apply

  datatype Status = Live | Succeeded | Failed

  /** The metadata of a run as one load gave it; `file` is whether a plan file is named. */
  datatype Loaded = Loaded(run: nat, started: int, file: bool, head: string)

  datatype Phase =
    | Queued
    | PlanInit
    | PlanExec
    | Scan(next: nat, count: nat, best: Option<Loaded>)   // List, run directory by run directory
    | Looked(best: Option<Loaded>)                        // before HEAD is read
    | Judge(best: Option<Loaded>, head: string)           // HEAD read, the file not yet checked
    | Exec(prior: Option<nat>, head: string)
    | Removing(plan: nat)
    | Clearing(plan: nat, removed: bool)
    | Closing                                             // consumed, before the terminal write
    | Ended

  /** One run: what is stored (`dir` says that its directory exists) and how far its job is. */
  datatype Run = Run(
    repo: string, path: string, kind: Kind, started: int, phase: Phase,
    dir: bool, status: Status, head: string, named: bool, artifact: bool)

  /** A successful apply of a saved plan. */
  datatype Use = Use(apply: nat, plan: nat, head: string)

  /** `heads` is each repository's HEAD ("" when git cannot tell); `uses` and `leaky` are history: the successful
      uses, and the plans for which neither removal nor clearing worked. */
  datatype State = State(runs: seq<Run>, heads: map<string, string>, uses: seq<Use>, leaky: set<nat>)

  /** `Settle` is the terminal write of a job outside its window: it panicked, or it never got there. */
  datatype Event =
    | Submit(repo: string, path: string, kind: Kind, started: int)
    | Pull(repo: string, head: string)
    | Rotate(run: nat)
    | Settle(run: nat)
    | Step(run: nat, move: Move)

  /** What the outside decides in one step of a job; the moves that fit are listed with the phases below. `Abort` is a
      panic, possible everywhere. */
  datatype Move = Go | Fail | Finish(success: bool, written: bool, stored: bool) | Try(ok: bool) | Abort

  function Head(s: State, repo: string): string { if repo in s.heads then s.heads[repo] else "" }

  predicate InWindow(r: Run) { r.phase != Queued && r.phase != Ended }

  ghost predicate Free(s: State, repo: string) {
    forall j :: 0 <= j < |s.runs| && s.runs[j].repo == repo ==> !InWindow(s.runs[j])
  }

  /** What the lookup asks for: a stored succeeded plan of this repository and directory. */
  predicate Matches(r: Run, repo: string, path: string) {
    r.dir && r.kind == Plan && r.status == Succeeded && r.repo == repo && r.path == path
  }

  /** Newest first, directory order among equals, cut to one. */
  function Better(best: Option<Loaded>, l: Loaded): Option<Loaded> {
    if best.Some? && best.value.started >= l.started then best else Some(l)
  }

  function Load(i: nat, r: Run): Loaded { Loaded(i, r.started, r.named, r.head) }

  /** The candidate is used if a file is named, its HEAD is the one read now, and the file is there. */
  function Choice(best: Option<Loaded>, head: string, present: set<nat>): Option<nat> {
    if best.Some? && best.value.file && best.value.head == head && best.value.run in present
    then Some(best.value.run) else None
  }

  function Present(s: State): set<nat> { set i: nat | i < |s.runs| && s.runs[i].artifact }

  function Put(s: State, i: nat, r: Run): State
    requires i < |s.runs|
  {
    s.(runs := s.runs[i := r])
  }

  function Moved(s: State, i: nat, p: Phase): State
    requires i < |s.runs|
  {
    Put(s, i, s.runs[i].(phase := p))
  }

  ghost function PlanStep(s: State, i: nat, m: Move): Option<State>
    requires i < |s.runs|
  {
    var r := s.runs[i];
    if r.phase == PlanInit then
      match m
      case Fail => Some(Moved(s, i, Ended))
      case Try(ok) => Some(Put(s, i, r.(phase := PlanExec, head := if ok then Head(s, r.repo) else r.head)))
      case _ => None
    else if m.Finish? then
      var after := r.(phase := Ended, artifact := r.artifact || m.written);
      Some(Put(s, i, if !m.stored then after
                     else if m.success then after.(status := Succeeded, named := true) else after.(status := Failed)))
    else None
  }

  ghost function LookupStep(s: State, i: nat, m: Move): Option<State>
    requires i < |s.runs|
  {
    var r := s.runs[i];
    match r.phase
    case Scan(next, count, best) =>
      if m == Fail then Some(Moved(s, i, Exec(None, "")))
      else if m != Go then None
      else if next >= count || next >= |s.runs| then Some(Moved(s, i, Looked(best)))
      else
        var found := if Matches(s.runs[next], r.repo, r.path) then Better(best, Load(next, s.runs[next])) else best;
        Some(Moved(s, i, Scan(next + 1, count, found)))
    case Looked(best) =>
      if m != Go then None
      else if Head(s, r.repo) == "" then Some(Moved(s, i, Exec(None, "")))
      else Some(Moved(s, i, Judge(best, Head(s, r.repo))))
    case Judge(best, head) => if m != Go then None else Some(Moved(s, i, Exec(Choice(best, head, Present(s)), head)))
    case _ => None
  }

  ghost function ApplyStep(s: State, i: nat, m: Move): Option<State>
    requires i < |s.runs|
  {
    var r := s.runs[i];
    match r.phase
    case Exec(prior, head) =>
      if !m.Finish? then None
      else if m.success && prior.Some? then
        Some(Moved(s, i, Removing(prior.value)).(uses := s.uses + [Use(i, prior.value, head)]))
      else
        var status := if !m.stored then r.status else if m.success then Succeeded else Failed;
        Some(Put(s, i, r.(phase := Ended, status := status)))
    case Removing(p) =>
      if !m.Try? || p >= |s.runs| || p == i then None
      else
        var t := if m.ok then Put(s, p, s.runs[p].(artifact := false)) else s;
        Some(Moved(t, i, Clearing(p, m.ok || !s.runs[p].artifact)))
    case Clearing(p, removed) =>
      if !m.Try? || p >= |s.runs| || p == i then None
      else
        var t := if m.ok && s.runs[p].dir then Put(s, p, s.runs[p].(named := false)) else s;
        Some(Moved(t, i, Closing).(leaky := if removed || m.ok then s.leaky else s.leaky + {p}))
    case Closing =>
      if !m.Finish? then None
      else Some(Put(s, i, r.(phase := Ended, status := if m.stored then Succeeded else r.status)))
    case _ => None
  }

  ghost function Next(s: State, e: Event): Option<State> {
    match e
    case Submit(repo, path, kind, started) =>
      Some(s.(runs := s.runs + [Run(repo, path, kind, started, Queued, true, Live, "", false, false)]))
    case Pull(repo, head) => Some(s.(heads := s.heads[repo := head]))
    case Rotate(i) =>
      if i >= |s.runs| || s.runs[i].status == Live then None
      else Some(Put(s, i, s.runs[i].(dir := false, artifact := false)))
    case Settle(i) =>
      if i >= |s.runs| || s.runs[i].status != Live || InWindow(s.runs[i]) then None
      else Some(Put(s, i, s.runs[i].(status := Failed, phase := Ended)))
    case Step(i, m) =>
      if i < |s.runs| && s.runs[i].phase == Queued && !Free(s, s.runs[i].repo) then None else JobStep(s, i, m)
  }

  /** One step of a job, whoever else is in the window of its repository. */
  ghost function JobStep(s: State, i: nat, m: Move): Option<State> {
    if i >= |s.runs| then None
    else
      var r := s.runs[i];
      if m == Abort then (if InWindow(r) then Some(Aborted(s, i)) else None)
      else if r.phase == Queued then
        if m != Go then None else Some(Moved(s, i, if r.kind == Plan then PlanInit else Scan(0, |s.runs|, None)))
      else if r.phase == PlanInit || r.phase == PlanExec then PlanStep(s, i, m)
      else if r.phase.Scan? || r.phase.Looked? || r.phase.Judge? then LookupStep(s, i, m)
      else ApplyStep(s, i, m)
  }

  /** A panic during a consumption leaves the plan as it is: removed or not, and still named. */
  function Aborted(s: State, i: nat): State
    requires i < |s.runs|
  {
    var p := s.runs[i].phase;
    Moved(s, i, Ended).(leaky := s.leaky + if p.Removing? || (p.Clearing? && !p.removed) then {p.plan} else {})
  }

  ghost function RunFrom(s: State, events: seq<Event>): Option<State>
    decreases |events|
  {
    if events == [] then Some(s) else match Next(s, events[0]) case None => None case Some(t) => RunFrom(t, events[1..])
  }

  const INITIAL := State([], map[], [], {})

  ghost predicate Reachable(s: State) { exists events :: RunFrom(INITIAL, events) == Some(s) }

  // ---- The invariant ----

  /** A plan whose run has ended: what it stores changes no more, except for being used up or rotated away. */
  ghost predicate Settled(s: State, p: int, x: Run) {
    0 <= p < |s.runs| && s.runs[p].kind == Plan && s.runs[p].phase == Ended && s.runs[p].status == Succeeded
    && s.runs[p].repo == x.repo && s.runs[p].path == x.path
  }

  /** A candidate still describes its plan. */
  ghost predicate Good(s: State, x: Run, best: Option<Loaded>) {
    best.Some? ==>
      var l := best.value;
      Settled(s, l.run, x) && l == Loaded(l.run, s.runs[l.run].started, s.runs[l.run].named, s.runs[l.run].head)
  }

  /** No stored succeeded plan below `n` is newer than the candidate. */
  ghost predicate NewestBelow(s: State, x: Run, best: Option<Loaded>, n: int) {
    forall q :: 0 <= q < n && q < |s.runs| && Matches(s.runs[q], x.repo, x.path) ==>
      best.Some? && best.value.started >= s.runs[q].started
  }

  ghost predicate NoneFrom(s: State, x: Run, n: int) {
    forall q :: n <= q < |s.runs| && q >= 0 ==> !Matches(s.runs[q], x.repo, x.path)
  }

  ghost predicate UsedBefore(s: State, p: nat) { exists u :: 0 <= u < |s.uses| && s.uses[u].plan == p }

  ghost predicate Findable(r: Run) { r.dir && r.named && r.artifact }

  ghost predicate Shaped(s: State, i: nat)
    requires i < |s.runs|
  {
    var x := s.runs[i];
    && (x.kind == Plan ==> x.phase in {Queued, PlanInit, PlanExec, Ended})
    && (x.kind == Apply ==> x.phase != PlanInit && x.phase != PlanExec)
    && (x.phase != Ended ==> x.status == Live && !x.named && x.dir)
    && (x.artifact ==> x.dir)
    && match x.phase
       case Scan(next, count, best) =>
         next <= count <= |s.runs| && Good(s, x, best) && NewestBelow(s, x, best, next) && NoneFrom(s, x, count)
       case Looked(best) => Good(s, x, best) && NewestBelow(s, x, best, |s.runs|)
       case Judge(best, _) => Good(s, x, best) && NewestBelow(s, x, best, |s.runs|)
       case Exec(prior, _) =>
         prior.Some? ==> Settled(s, prior.value, x) && (UsedBefore(s, prior.value) ==> prior.value in s.leaky)
       case Removing(p) => Settled(s, p, x)
       case Clearing(p, removed) => Settled(s, p, x) && (removed ==> !s.runs[p].artifact)
       case _ => true
  }

  /** The plan of a use is settled, and cannot be found any more unless its consumption is still running or leaked. */
  ghost predicate UseInv(s: State, u: Use) {
    && u.apply < |s.runs| && u.plan < |s.runs| && Settled(s, u.plan, s.runs[u.apply])
    && (Consuming(s.runs[u.apply].phase, u.plan) || u.plan in s.leaky || !Findable(s.runs[u.plan]))
  }

  predicate Consuming(p: Phase, plan: nat) { (p.Removing? || p.Clearing?) && p.plan == plan }

  ghost predicate Once(s: State) {
    forall u, v :: 0 <= u < v < |s.uses| && s.uses[u].plan == s.uses[v].plan ==> s.uses[u].plan in s.leaky
  }

  ghost predicate OneEach(s: State) {
    forall i, j :: 0 <= i < j < |s.runs| && InWindow(s.runs[i]) && InWindow(s.runs[j]) ==>
      s.runs[i].repo != s.runs[j].repo
  }

  ghost predicate Inv(s: State) {
    && (forall i :: 0 <= i < |s.runs| ==> Shaped(s, i)) && OneEach(s)
    && (forall u :: 0 <= u < |s.uses| ==> UseInv(s, s.uses[u])) && Once(s)
  }

  // ---- Every step keeps it ----

  /** A settled plan may lose its directory and its file, nothing else. */
  ghost predicate Aged(a: Run, b: Run) {
    b == a.(dir := b.dir, artifact := b.artifact) && (b.dir ==> a.dir) && (b.artifact ==> a.artifact)
  }

  /** What a run in the window of `repo` may rely on while others move. */
  ghost predicate Frame(s: State, t: State, repo: string) {
    && |s.runs| <= |t.runs| && s.leaky <= t.leaky
    && (forall q :: 0 <= q < |s.runs| && SettledIn(s.runs[q], repo) ==>
          Aged(s.runs[q], t.runs[q]) && (UsedBefore(t, q) ==> UsedBefore(s, q)))
    && (forall q :: 0 <= q < |t.runs| && WorkedIn(t.runs[q], repo) ==> q < |s.runs| && SettledIn(s.runs[q], repo))
  }

  predicate WorkedIn(r: Run, repo: string) { r.repo == repo && r.kind == Plan && r.status == Succeeded }

  predicate SettledIn(r: Run, repo: string) { WorkedIn(r, repo) && r.phase == Ended }

  lemma ShapedKept(s: State, t: State, j: nat)
    requires j < |s.runs| && j < |t.runs| && Shaped(s, j) && t.runs[j] == s.runs[j]
    requires InWindow(s.runs[j]) ==> Frame(s, t, s.runs[j].repo)
    ensures Shaped(t, j)
  {
    var x := s.runs[j];
    if InWindow(x) {
      assert forall q :: 0 <= q < |t.runs| && Matches(t.runs[q], x.repo, x.path) ==>
               q < |s.runs| && Matches(s.runs[q], x.repo, x.path);
      assert forall q :: Settled(s, q, x) ==> Settled(t, q, x) && Aged(s.runs[q], t.runs[q]);
      assert forall q :: 0 <= q < |t.runs| && Matches(t.runs[q], x.repo, x.path) ==>
               t.runs[q].started == s.runs[q].started;
    }
  }

  lemma SubmitKeeps(s: State, t: State, e: Event)
    requires Inv(s) && e.Submit? && Next(s, e) == Some(t)
    ensures Inv(t)
  {
    forall j | 0 <= j < |t.runs| ensures Shaped(t, j) {
      if j < |s.runs| {
        FrameOfSubmit(s, t, e, s.runs[j].repo);
        ShapedKept(s, t, j);
      }
    }
    forall u | 0 <= u < |t.uses| ensures UseInv(t, t.uses[u]) { assert UseInv(s, s.uses[u]); }
  }

  lemma FrameOfSubmit(s: State, t: State, e: Event, repo: string)
    requires e.Submit? && Next(s, e) == Some(t) && forall i :: 0 <= i < |s.runs| ==> Shaped(s, i)
    ensures Frame(s, t, repo)
  {
    assert forall q :: UsedBefore(t, q) ==> UsedBefore(s, q);
    forall q | 0 <= q < |s.runs| && s.runs[q].status == Succeeded ensures s.runs[q].phase == Ended {
      assert Shaped(s, q);
    }
  }

  lemma RotateKeeps(s: State, t: State, i: nat)
    requires Inv(s) && Next(s, Rotate(i)) == Some(t)
    ensures Inv(t)
  {
    assert Shaped(s, i);
    forall j | 0 <= j < |t.runs| ensures Shaped(t, j) {
      assert Shaped(s, j);
      if j != i {
        FrameOfRotate(s, t, i, s.runs[j].repo);
        ShapedKept(s, t, j);
      }
    }
    forall u | 0 <= u < |t.uses| ensures UseInv(t, t.uses[u]) { assert UseInv(s, s.uses[u]); }
  }

  lemma FrameOfRotate(s: State, t: State, i: nat, repo: string)
    requires Next(s, Rotate(i)) == Some(t) && forall i :: 0 <= i < |s.runs| ==> Shaped(s, i)
    ensures Frame(s, t, repo)
  {
    assert forall q :: UsedBefore(t, q) ==> UsedBefore(s, q);
    forall q | 0 <= q < |s.runs| && s.runs[q].status == Succeeded ensures s.runs[q].phase == Ended {
      assert Shaped(s, q);
    }
  }

  lemma SettleKeeps(s: State, t: State, i: nat)
    requires Inv(s) && Next(s, Settle(i)) == Some(t)
    ensures Inv(t)
  {
    assert Shaped(s, i);
    forall j | 0 <= j < |t.runs| ensures Shaped(t, j) {
      assert Shaped(s, j);
      if j != i {
        FrameOfSettle(s, t, i, s.runs[j].repo);
        ShapedKept(s, t, j);
      }
    }
    forall u | 0 <= u < |t.uses| ensures UseInv(t, t.uses[u]) { assert UseInv(s, s.uses[u]); }
  }

  lemma FrameOfSettle(s: State, t: State, i: nat, repo: string)
    requires Next(s, Settle(i)) == Some(t) && forall i :: 0 <= i < |s.runs| ==> Shaped(s, i)
    ensures Frame(s, t, repo)
  {
    assert forall q :: UsedBefore(t, q) ==> UsedBefore(s, q);
    forall q | 0 <= q < |s.runs| && s.runs[q].status == Succeeded ensures s.runs[q].phase == Ended {
      assert Shaped(s, q);
    }
  }

  lemma PullKeeps(s: State, t: State, e: Event)
    requires Inv(s) && e.Pull? && Next(s, e) == Some(t)
    ensures Inv(t)
  {
    forall j | 0 <= j < |t.runs| ensures Shaped(t, j) { assert Shaped(s, j); SameRuns(s, t, j); }
    forall u | 0 <= u < |t.uses| ensures UseInv(t, t.uses[u]) { assert UseInv(s, s.uses[u]); }
  }

  lemma SameRuns(s: State, t: State, j: nat)
    requires s.runs == t.runs && s.uses == t.uses && s.leaky == t.leaky && j < |s.runs| && Shaped(s, j)
    ensures Shaped(t, j)
  {
    assert forall q :: UsedBefore(t, q) ==> UsedBefore(s, q);
  }

  // ---- Steps of a job ----

  /** The plan that a consuming job writes to. */
  ghost predicate Touches(s: State, i: nat, j: nat)
    requires i < |s.runs|
  {
    Consuming(s.runs[i].phase, j)
  }

  /** A step of `i` changes its own run, and the plan it consumes in `named` and `artifact` only. */
  ghost predicate Local(s: State, t: State, i: nat)
    requires i < |s.runs|
  {
    && |t.runs| == |s.runs|
    && (forall j :: 0 <= j < |s.runs| && j != i && !Touches(s, i, j) ==> t.runs[j] == s.runs[j])
    && (forall j :: 0 <= j < |s.runs| && j != i && Touches(s, i, j) ==>
          && t.runs[j] == s.runs[j].(named := t.runs[j].named, artifact := t.runs[j].artifact)
          && (t.runs[j].named ==> s.runs[j].named) && (t.runs[j].artifact ==> s.runs[j].artifact))
    && t.runs[i] == s.runs[i].(phase := t.runs[i].phase, status := t.runs[i].status, head := t.runs[i].head,
                               named := t.runs[i].named, artifact := t.runs[i].artifact)
  }

  lemma StepIsLocal(s: State, t: State, i: nat, m: Move)
    requires Next(s, Step(i, m)) == Some(t)
    ensures i < |s.runs| && Local(s, t, i) && s.leaky <= t.leaky
    ensures t.uses == s.uses ||
            (|t.uses| == |s.uses| + 1 && t.uses[..|s.uses|] == s.uses && t.uses[|s.uses|].apply == i)
  {
    if m == Abort {
      assert t == Aborted(s, i);
    } else if s.runs[i].phase == PlanInit || s.runs[i].phase == PlanExec {
      PlanIsLocal(s, t, i, m);
    } else if s.runs[i].phase.Scan? || s.runs[i].phase.Looked? || s.runs[i].phase.Judge? {
      LookupIsLocal(s, t, i, m);
    } else if s.runs[i].phase != Queued {
      ApplyIsLocal(s, t, i, m);
    }
  }

  lemma PlanIsLocal(s: State, t: State, i: nat, m: Move)
    requires i < |s.runs| && (s.runs[i].phase == PlanInit || s.runs[i].phase == PlanExec) &&
             PlanStep(s, i, m) == Some(t)
    ensures Local(s, t, i) && t.leaky == s.leaky && t.uses == s.uses
  {
  }

  lemma LookupIsLocal(s: State, t: State, i: nat, m: Move)
    requires i < |s.runs| && LookupStep(s, i, m) == Some(t)
    ensures Local(s, t, i) && t.leaky == s.leaky && t.uses == s.uses
  {
  }

  lemma ApplyIsLocal(s: State, t: State, i: nat, m: Move)
    requires i < |s.runs| && ApplyStep(s, i, m) == Some(t)
    ensures Local(s, t, i) && s.leaky <= t.leaky
    ensures t.uses == s.uses ||
            (|t.uses| == |s.uses| + 1 && t.uses[..|s.uses|] == s.uses && t.uses[|s.uses|].apply == i)
  {
  }

  lemma FrameOfStep(s: State, t: State, i: nat, m: Move, repo: string)
    requires Inv(s) && Next(s, Step(i, m)) == Some(t) && i < |s.runs| && repo != s.runs[i].repo
    ensures Frame(s, t, repo)
  {
    StepIsLocal(s, t, i, m);
    assert Shaped(s, i);
    forall q | 0 <= q < |s.runs| && s.runs[q].status == Succeeded ensures s.runs[q].phase == Ended {
      assert Shaped(s, q);
    }
    forall q | 0 <= q < |s.runs| && s.runs[q].repo == repo && UsedBefore(t, q) ensures UsedBefore(s, q) {
      var u :| 0 <= u < |t.uses| && t.uses[u].plan == q;
      if u == |s.uses| { UseOfRepo(s, t, i, m); }
      else { assert s.uses[u].plan == q; }
    }
  }

  lemma UseOfRepo(s: State, t: State, i: nat, m: Move)
    requires Inv(s) && Next(s, Step(i, m)) == Some(t) && i < |s.runs| && |t.uses| > |s.uses|
    ensures s.runs[i].phase.Exec? && s.runs[i].phase.prior.Some?
    ensures t.uses == s.uses + [Use(i, s.runs[i].phase.prior.value, s.runs[i].phase.head)]
    ensures Settled(s, s.runs[i].phase.prior.value, s.runs[i])
    ensures t.runs[i].phase == Removing(s.runs[i].phase.prior.value)
  {
    assert Shaped(s, i);
  }

  lemma OthersKept(s: State, t: State, i: nat, m: Move, j: nat)
    requires Inv(s) && Next(s, Step(i, m)) == Some(t) && i < |s.runs| && j < |s.runs| && j != i
    ensures j < |t.runs| && Shaped(t, j)
  {
    StepIsLocal(s, t, i, m);
    assert Shaped(s, j) && Shaped(s, i);
    if Touches(s, i, j) {
      assert s.runs[j].phase == Ended;
    } else {
      if InWindow(s.runs[j]) { WindowsDiffer(s, t, i, m, j); FrameOfStep(s, t, i, m, s.runs[j].repo); }
      ShapedKept(s, t, j);
    }
  }

  lemma WindowsDiffer(s: State, t: State, i: nat, m: Move, j: nat)
    requires Inv(s) && Next(s, Step(i, m)) == Some(t) && i < |s.runs| && j < |s.runs| && j != i && InWindow(s.runs[j])
    ensures s.runs[j].repo != s.runs[i].repo
  {
    if InWindow(s.runs[i]) { assert OneEach(s); }
    else { assert s.runs[i].phase != Ended; }
  }

  lemma WindowKept(s: State, t: State, i: nat, m: Move)
    requires Inv(s) && Next(s, Step(i, m)) == Some(t)
    ensures OneEach(t)
  {
    StepIsLocal(s, t, i, m);
    forall j, k | 0 <= j < k < |t.runs| && InWindow(t.runs[j]) && InWindow(t.runs[k])
      ensures t.runs[j].repo != t.runs[k].repo
    {
      assert Shaped(s, i);
      var o := if j == i then k else j;
      if j == i || k == i {
        assert t.runs[o].phase == s.runs[o].phase;
        WindowsDiffer(s, t, i, m, o);
      } else {
        assert OneEach(s);
      }
    }
  }

  // ---- The run that moves ----

  lemma QueuedMoves(s: State, t: State, i: nat, m: Move)
    requires Inv(s) && m != Abort && Next(s, Step(i, m)) == Some(t) && i < |s.runs| && s.runs[i].phase == Queued
    ensures Shaped(t, i)
  {
    assert Shaped(s, i);
  }

  lemma PlanMoves(s: State, t: State, i: nat, m: Move)
    requires Inv(s) && m != Abort && Next(s, Step(i, m)) == Some(t) && i < |s.runs| &&
             (s.runs[i].phase == PlanInit || s.runs[i].phase == PlanExec)
    ensures Shaped(t, i)
  {
    assert Shaped(s, i);
  }

  lemma ScanMoves(s: State, t: State, i: nat, m: Move)
    requires Inv(s) && m != Abort && Next(s, Step(i, m)) == Some(t) && i < |s.runs| && s.runs[i].phase.Scan?
    ensures Shaped(t, i)
  {
    assert Shaped(s, i);
    var x := s.runs[i];
    var best, next := x.phase.best, x.phase.next;
    ScanStill(s, t, i);
    if m == Go && next < x.phase.count {
      var found := if Matches(s.runs[next], x.repo, x.path) then Better(best, Load(next, s.runs[next])) else best;
      LoadOne(s, x, best, next);
      assert t.runs[i].phase == Scan(next + 1, x.phase.count, found);
    }
  }

  lemma LoadOne(s: State, x: Run, best: Option<Loaded>, n: nat)
    requires n < |s.runs| && Shaped(s, n) && Good(s, x, best) && NewestBelow(s, x, best, n)
    ensures var found := if Matches(s.runs[n], x.repo, x.path) then Better(best, Load(n, s.runs[n])) else best;
            Good(s, x, found) && NewestBelow(s, x, found, n + 1)
  {
  }

  /** Moving the searching run leaves what it found as it is. */
  lemma ScanStill(s: State, t: State, i: nat)
    requires i < |s.runs| && s.runs[i].kind == Apply && (exists p :: t == Moved(s, i, p))
    ensures forall best :: Good(s, s.runs[i], best) ==> Good(t, t.runs[i], best)
    ensures forall best, n :: NewestBelow(s, s.runs[i], best, n) ==> NewestBelow(t, t.runs[i], best, n)
    ensures forall n :: NoneFrom(s, s.runs[i], n) ==> NoneFrom(t, t.runs[i], n)
  {
  }

  lemma LookedMoves(s: State, t: State, i: nat, m: Move)
    requires Inv(s) && m != Abort && Next(s, Step(i, m)) == Some(t) && i < |s.runs| && s.runs[i].phase.Looked?
    ensures Shaped(t, i)
  {
    assert Shaped(s, i);
    ScanStill(s, t, i);
  }

  lemma JudgeMoves(s: State, t: State, i: nat, m: Move)
    requires Inv(s) && m != Abort && Next(s, Step(i, m)) == Some(t) && i < |s.runs| && s.runs[i].phase.Judge?
    ensures Shaped(t, i)
  {
    assert Shaped(s, i);
    var x := s.runs[i];
    var c := Choice(x.phase.best, x.phase.head, Present(s));
    if c.Some? {
      assert Shaped(s, c.value) && Settled(s, c.value, x) && Findable(s.runs[c.value]);
      if UsedBefore(s, c.value) {
        var u :| 0 <= u < |s.uses| && s.uses[u].plan == c.value;
        assert UseInv(s, s.uses[u]) && OneEach(s);
      }
      assert UsedBefore(t, c.value) ==> UsedBefore(s, c.value);
      assert Settled(t, c.value, t.runs[i]);
    }
  }

  lemma ConsumeMoves(s: State, t: State, i: nat, m: Move)
    requires Inv(s) && m != Abort && Next(s, Step(i, m)) == Some(t) && i < |s.runs|
    requires var p := s.runs[i].phase; p.Exec? || p.Removing? || p.Clearing? || p.Closing?
    ensures Shaped(t, i)
  {
    assert Shaped(s, i);
  }

  // ---- The uses ----

  lemma OldUseKept(s: State, t: State, i: nat, m: Move, u: Use)
    requires Inv(s) && Next(s, Step(i, m)) == Some(t) && UseInv(s, u)
    ensures UseInv(t, u)
  {
    StepIsLocal(s, t, i, m);
    assert Shaped(s, i) && i != u.plan;
    var p := u.plan;
    assert Findable(t.runs[p]) ==> Findable(s.runs[p]);
    if u.apply == i && Consuming(s.runs[i].phase, p) { ConsumptionHides(s, t, i, m); }
  }

  /** After its consumption a plan can be found only if neither removing the file nor clearing its name worked. */
  lemma ConsumptionHides(s: State, t: State, i: nat, m: Move)
    requires Inv(s) && Next(s, Step(i, m)) == Some(t) && i < |s.runs| &&
             (s.runs[i].phase.Removing? || s.runs[i].phase.Clearing?)
    ensures var p := s.runs[i].phase.plan;
            p < |t.runs| && (Consuming(t.runs[i].phase, p) || p in t.leaky || !Findable(t.runs[p]))
  {
    assert Shaped(s, i);
  }

  lemma StepKeeps(s: State, t: State, i: nat, m: Move)
    requires Inv(s) && Next(s, Step(i, m)) == Some(t)
    ensures Inv(t)
  {
    StepIsLocal(s, t, i, m);
    WindowKept(s, t, i, m);
    forall j | 0 <= j < |t.runs| ensures Shaped(t, j) {
      if j != i { OthersKept(s, t, i, m, j); } else { MoverKept(s, t, i, m); }
    }
    UsesKept(s, t, i, m);
  }

  lemma MoverKept(s: State, t: State, i: nat, m: Move)
    requires Inv(s) && Next(s, Step(i, m)) == Some(t)
    ensures i < |t.runs| && Shaped(t, i)
  {
    StepIsLocal(s, t, i, m);
    if m == Abort { assert Shaped(s, i); return; }
    match s.runs[i].phase {
      case Queued => QueuedMoves(s, t, i, m);
      case PlanInit => PlanMoves(s, t, i, m);
      case PlanExec => PlanMoves(s, t, i, m);
      case Scan(_, _, _) => ScanMoves(s, t, i, m);
      case Looked(_) => LookedMoves(s, t, i, m);
      case Judge(_, _) => JudgeMoves(s, t, i, m);
      case Exec(_, _) => ConsumeMoves(s, t, i, m);
      case Removing(_) => ConsumeMoves(s, t, i, m);
      case Clearing(_, _) => ConsumeMoves(s, t, i, m);
      case Closing => ConsumeMoves(s, t, i, m);
      case Ended =>
    }
  }

  lemma UsesKept(s: State, t: State, i: nat, m: Move)
    requires Inv(s) && Next(s, Step(i, m)) == Some(t)
    ensures (forall u :: 0 <= u < |t.uses| ==> UseInv(t, t.uses[u])) && Once(t)
  {
    StepIsLocal(s, t, i, m);
    if t.uses == s.uses {
      forall u | 0 <= u < |t.uses| ensures UseInv(t, t.uses[u]) { OldUseKept(s, t, i, m, s.uses[u]); }
    } else {
      UseOfRepo(s, t, i, m);
      assert Shaped(s, i);
      var p := s.runs[i].phase.prior.value;
      forall u | 0 <= u < |t.uses| ensures UseInv(t, t.uses[u]) {
        if u < |s.uses| { assert t.uses[u] == s.uses[u]; OldUseKept(s, t, i, m, s.uses[u]); }
      }
      forall u, v | 0 <= u < v < |t.uses| && t.uses[u].plan == t.uses[v].plan ensures t.uses[u].plan in t.leaky {
        assert t.uses[u] == s.uses[u];
        if v == |s.uses| { assert UsedBefore(s, p); } else { assert t.uses[v] == s.uses[v] && Once(s); }
      }
    }
  }

  lemma EventKeeps(s: State, t: State, e: Event)
    requires Inv(s) && Next(s, e) == Some(t)
    ensures Inv(t)
  {
    match e {
      case Submit(_, _, _, _) => SubmitKeeps(s, t, e);
      case Pull(_, _) => PullKeeps(s, t, e);
      case Rotate(i) => RotateKeeps(s, t, i);
      case Settle(i) => SettleKeeps(s, t, i);
      case Step(i, m) => StepKeeps(s, t, i, m);
    }
  }

  lemma {:induction false} RunKeeps(s: State, events: seq<Event>)
    requires Inv(s) && RunFrom(s, events).Some?
    ensures Inv(RunFrom(s, events).value)
    decreases |events|
  {
    if events != [] {
      EventKeeps(s, Next(s, events[0]).value, events[0]);
      RunKeeps(Next(s, events[0]).value, events[1..]);
    }
  }

  lemma ReachableInv(s: State)
    requires Reachable(s)
    ensures Inv(s)
  {
    var events :| RunFrom(INITIAL, events) == Some(s);
    RunKeeps(INITIAL, events);
  }

  // ---- The results ----

  /** In every run without crashes, pulls and rotations anywhere, a saved plan is used by at most one successful apply,
      unless both removing its file and clearing its name failed. */
  lemma PlanUsedOnce(s: State, u: nat, v: nat)
    requires Reachable(s) && u < |s.uses| && v < |s.uses| && s.uses[u].plan == s.uses[v].plan &&
             s.uses[u].plan !in s.leaky
    ensures u == v
  {
    ReachableInv(s);
    assert Once(s);
  }

  /** The exemption is not wider than that: a plan comes into it only when its file was not removed and then clearing
      its name fails as well, or a panic comes first. */
  lemma LeakyOnlyIfBothFail(s: State, t: State, e: Event, p: nat)
    requires Next(s, e) == Some(t) && p in t.leaky && p !in s.leaky
    ensures e.Step? && e.run < |s.runs| && Consuming(s.runs[e.run].phase, p)
    ensures var phase := s.runs[e.run].phase;
            && (phase.Clearing? ==> !phase.removed && (e.move == Abort || e.move == Try(false)))
            && (phase.Removing? ==> e.move == Abort)
  {
    if e.Step? && e.move != Abort {
      var phase := s.runs[e.run].phase;
      if phase == PlanInit || phase == PlanExec {
        PlanIsLocal(s, t, e.run, e.move);
      } else if phase.Scan? || phase.Looked? || phase.Judge? {
        LookupIsLocal(s, t, e.run, e.move);
      }
    }
  }

  /** A plan that an apply takes is the newest succeeded plan still stored for its repository and directory, recorded
      the HEAD that this lookup read, and is not used yet. */
  lemma TakenPlanIsFresh(s: State, t: State, i: nat, m: Move, p: nat, head: string)
    requires Reachable(s) && Next(s, Step(i, m)) == Some(t) && t.runs[i].phase == Exec(Some(p), head)
    ensures p < |s.runs| && s.runs[p].dir && s.runs[p].kind == Plan && s.runs[p].status == Succeeded
    ensures s.runs[p].repo == s.runs[i].repo && s.runs[p].path == s.runs[i].path
    ensures s.runs[p].named && s.runs[p].artifact
    ensures s.runs[i].phase.Judge? && s.runs[i].phase.head == head == s.runs[p].head
    ensures forall q :: 0 <= q < |s.runs| && s.runs[q].started > s.runs[p].started ==>
              var r := s.runs[q];
              !r.dir || r.kind == Apply || r.status != Succeeded || r.repo != s.runs[i].repo || r.path != s.runs[i].path
    ensures UsedBefore(s, p) ==> p in s.leaky
  {
    ReachableInv(s);
    StepIsLocal(s, t, i, m);
    MoverKept(s, t, i, m);
    assert Shaped(s, i) && Shaped(t, i) && Shaped(s, p);
    TakenInJudge(s, t, i, m, p, head);
    if UsedBefore(s, p) {
      var u :| 0 <= u < |s.uses| && s.uses[u].plan == p;
      assert t.uses == s.uses;
      assert UsedBefore(t, p);
    }
  }

  /** Where a step of a job can lead, by the group of phases it starts from. */
  lemma PhasesReached(s: State, t: State, i: nat, m: Move)
    requires Next(s, Step(i, m)) == Some(t) && i < |s.runs| && i < |t.runs|
    ensures var p, q := s.runs[i].phase, t.runs[i].phase;
            || q == Ended
            || (p == Queued && (q == PlanInit || q.Scan?))
            || (p == PlanInit && q == PlanExec)
            || (p.Scan? && m == Fail && q == Exec(None, ""))
            || ((p.Scan? || p.Looked? || p.Judge?) && LookupStep(s, i, m) == Some(t))
            || ((p.Exec? || p.Removing? || p.Clearing?) && (q.Removing? || q.Clearing? || q.Closing?))
  {
  }

  lemma TakenInJudge(s: State, t: State, i: nat, m: Move, p: nat, head: string)
    requires Next(s, Step(i, m)) == Some(t) && i < |s.runs| && i < |t.runs| && t.runs[i].phase == Exec(Some(p), head)
    ensures s.runs[i].phase.Judge? && t.uses == s.uses && t.leaky == s.leaky
    ensures Choice(s.runs[i].phase.best, s.runs[i].phase.head, Present(s)) == Some(p) && s.runs[i].phase.head == head
  {
    PhasesReached(s, t, i, m);
  }

  // ---- A consumption with anything around it ----

  /** No event of this run is among them. */
  ghost predicate NotOf(i: nat, events: seq<Event>) {
    forall k :: 0 <= k < |events| ==> !events[k].Step? || events[k].run != i
  }

  /** While a consumption is under way nobody else names, clears, removes or writes its plan: only rotation touches
      it. */
  lemma {:induction false} OnlyRotationTouches(s: State, t: State, i: nat, events: seq<Event>)
    requires Inv(s) && RunFrom(s, events) == Some(t) && NotOf(i, events)
    requires i < |s.runs| && (s.runs[i].phase.Removing? || s.runs[i].phase.Clearing?)
    ensures Inv(t) && i < |t.runs| && t.runs[i] == s.runs[i]
    ensures var p := s.runs[i].phase.plan;
            && p < |s.runs| && p < |t.runs| && Aged(s.runs[p], t.runs[p])
            && (t.runs[p].dir ==> t.runs[p].artifact == s.runs[p].artifact)
    decreases |events|
  {
    assert Shaped(s, i);
    if events != [] {
      var u := Next(s, events[0]).value;
      OneEventTouches(s, u, i, events[0]);
      EventKeeps(s, u, events[0]);
      OnlyRotationTouches(u, t, i, events[1..]);
    }
  }

  lemma OneEventTouches(s: State, t: State, i: nat, e: Event)
    requires Inv(s) && Next(s, e) == Some(t) && (e.Step? ==> e.run != i)
    requires i < |s.runs| && (s.runs[i].phase.Removing? || s.runs[i].phase.Clearing?)
    ensures i < |t.runs| && t.runs[i] == s.runs[i]
    ensures var p := s.runs[i].phase.plan;
            && p < |s.runs| && p < |t.runs| && Aged(s.runs[p], t.runs[p])
            && (t.runs[p].dir ==> t.runs[p].artifact == s.runs[p].artifact)
  {
    var p := s.runs[i].phase.plan;
    assert Shaped(s, i) && Shaped(s, p);
    if e.Step? {
      StepIsLocal(s, t, e.run, e.move);
      WindowsDiffer(s, t, e.run, e.move, i);
      assert Shaped(s, e.run);
      assert e.run != p && !Touches(s, e.run, p);
    }
  }

  /** Over the two steps of a consumption, with any events of others between them, the plan stays findable exactly when
      it was, neither step worked, and rotation has not taken its directory. */
  lemma ConsumptionHidesExactly(s: State, t: State, u: State, v: State, i: nat, m0: Move, between: seq<Event>, m1: Move)
    requires Reachable(s) && i < |s.runs| && s.runs[i].phase.Removing? && NotOf(i, between) && m0.Try? && m1.Try?
    requires Next(s, Step(i, m0)) == Some(t) && RunFrom(t, between) == Some(u) && Next(u, Step(i, m1)) == Some(v)
    ensures var p := s.runs[i].phase.plan;
            p < |s.runs| && p < |v.runs| &&
            (Findable(v.runs[p]) <==> Findable(s.runs[p]) && !m0.ok && !m1.ok && v.runs[p].dir)
  {
    ReachableInv(s);
    assert Shaped(s, i);
    StepKeeps(s, t, i, m0);
    assert ApplyStep(s, i, m0) == Some(t);
    OnlyRotationTouches(t, u, i, between);
    assert ApplyStep(u, i, m1) == Some(v);
  }

  // ---- Where the HEAD of a use comes from ----

  /** The run is between the list and its check, and this is the HEAD it reads. */
  ghost predicate ReadsHead(s: State, i: nat, head: string) {
    i < |s.runs| && s.runs[i].phase.Looked? && head == Head(s, s.runs[i].repo) && head != ""
  }

  /** In some state of the run of events, before its end, this run read this HEAD. */
  ghost predicate HeadWasRead(events: seq<Event>, i: nat, head: string) {
    exists k :: 0 <= k < |events| && RunFrom(INITIAL, events[..k]).Some? &&
      ReadsHead(RunFrom(INITIAL, events[..k]).value, i, head)
  }

  predicate GoesBy(p: Phase, head: string) {
    (p.Judge? && p.head == head) || (p.Exec? && p.prior.Some? && p.head == head)
  }

  lemma {:induction false} RunSnoc(s: State, events: seq<Event>, e: Event)
    ensures RunFrom(s, events + [e]) == match RunFrom(s, events) case None => None case Some(t) => Next(t, e)
    decreases |events|
  {
    if events == [] {
      assert [] + [e] == [e] && [e][1..] == [];
    } else {
      assert (events + [e])[0] == events[0] && (events + [e])[1..] == events[1..] + [e];
      if Next(s, events[0]).Some? { RunSnoc(Next(s, events[0]).value, events[1..], e); }
    }
  }

  lemma HeadOrigin(s: State, t: State, e: Event, i: nat, head: string)
    requires Next(s, e) == Some(t) && i < |t.runs| && GoesBy(t.runs[i].phase, head)
    ensures i < |s.runs| && (GoesBy(s.runs[i].phase, head) || (ReadsHead(s, i, head) && e == Step(i, Go)))
  {
    if e.Step? { StepIsLocal(s, t, e.run, e.move); }
    if e.Step? && e.run == i { OwnHeadOrigin(s, t, e.move, i, head); }
  }

  lemma OwnHeadOrigin(s: State, t: State, m: Move, i: nat, head: string)
    requires Next(s, Step(i, m)) == Some(t) && i < |t.runs| && i < |s.runs| && GoesBy(t.runs[i].phase, head)
    ensures GoesBy(s.runs[i].phase, head) || (ReadsHead(s, i, head) && m == Go)
  {
    PhasesReached(s, t, i, m);
  }

  lemma {:induction false} GoesByRead(events: seq<Event>, s: State, i: nat, head: string)
    requires RunFrom(INITIAL, events) == Some(s) && i < |s.runs| && GoesBy(s.runs[i].phase, head)
    ensures HeadWasRead(events, i, head)
    decreases |events|
  {
    if events != [] {
      var front, e := events[..|events| - 1], events[|events| - 1];
      assert events == front + [e];
      RunSnoc(INITIAL, front, e);
      var before := RunFrom(INITIAL, front).value;
      HeadOrigin(before, s, e, i, head);
      if GoesBy(before.runs[i].phase, head) {
        GoesByRead(front, before, i, head);
        ReadStays(front, e, i, head);
      }
    }
  }

  lemma ReadStays(events: seq<Event>, e: Event, i: nat, head: string)
    requires HeadWasRead(events, i, head)
    ensures HeadWasRead(events + [e], i, head)
  {
    var k :| 0 <= k < |events| && RunFrom(INITIAL, events[..k]).Some? &&
      ReadsHead(RunFrom(INITIAL, events[..k]).value, i, head);
    assert (events + [e])[..k] == events[..k];
  }

  /** In every run of events the HEAD of every use is one that its apply read from git in an earlier state, between its
      list of the plans and its check of the file. */
  lemma {:induction false} UsedHeadWasRead(events: seq<Event>, s: State, u: nat)
    requires RunFrom(INITIAL, events) == Some(s) && u < |s.uses|
    ensures HeadWasRead(events, s.uses[u].apply, s.uses[u].head)
    decreases |events|
  {
    if events != [] {
      var front, e := events[..|events| - 1], events[|events| - 1];
      assert events == front + [e];
      RunSnoc(INITIAL, front, e);
      var before := RunFrom(INITIAL, front).value;
      if e.Step? { StepIsLocal(before, s, e.run, e.move); }
      if u < |before.uses| {
        assert s.uses[u] == before.uses[u];
        UsedHeadWasRead(front, before, u);
      } else {
        RunKeeps(INITIAL, front);
        UseOfRepo(before, s, e.run, e.move);
        GoesByRead(front, before, e.run, s.uses[u].head);
      }
      ReadStays(front, e, s.uses[u].apply, s.uses[u].head);
    }
  }
}
