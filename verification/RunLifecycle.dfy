/** The life of a stored run: the job queue together with crashes, the boot sweep and the age-based
    rotation (iac-runner/internal/runs/retention.go). The index of a submission stands for its run id. */
module RunLifecycle {
  import opened Wrappers
  import opened JobQueue

  /** While the boot sweep walks the run directories the queue does not exist yet; `clean` says that
      no update of this sweep failed. */
  datatype Boot = Serving | Sweeping(next: nat, clean: bool)

  /** `Rotate` between its check of one run and the deletion. */
  datatype Rotation = Idle | Chosen(run: nat)

  datatype World = World(queue: State, boot: Boot, rotation: Rotation)

  datatype Event =
    | JobStep(job: nat, action: Action)
    | Crash
    | Sweep(stored: bool)                 // the next run; `stored` is the outcome of the update, if one is due
    | Check(run: nat, overAge: bool)
    | Delete(removed: bool)

  /** A crash ends every goroutine and empties the in-process maps; only the run directories stay.
      A submission that has not begun stays a future one. */
  function CrashJob(j: Job): Job {
    if j.pc == Submitting(Submitted) then j
    else j.(pc := Crashed, acquirer := NotStarted, acquired := false, orphan := NoOrphan)
  }

  function CrashQueue(s: State): State {
    s.(sem := 0, locks := map[], nextLock := 0, locked := {}, pending := map[], wg := 0, fault := false,
       jobs := seq(|s.jobs|, i requires 0 <= i < |s.jobs| => CrashJob(s.jobs[i])))
  }

  function SweepStep(w: World, stored: bool): World
    requires w.boot.Sweeping?
  {
    var n := w.boot.next;
    if n >= |w.queue.jobs| then w.(boot := Serving)
    else if !Live(w.queue.jobs[n].meta) then w.(boot := Sweeping(n + 1, w.boot.clean))
    else if stored then
      w.(queue := w.queue.(jobs := w.queue.jobs[n := w.queue.jobs[n].(meta := Some(Interrupted))]),
         boot := Sweeping(n + 1, w.boot.clean))
    else w.(boot := Sweeping(n + 1, false))
  }

  /** `Rotate` looks at one run directory. Without metadata it goes by the directory's own age, and a
      directory that is just being created is never over age. */
  predicate Expired(j: Job, overAge: bool) {
    && j.dir && overAge
    && (j.meta.Some? ==> !Live(j.meta))
    && (j.meta.None? ==> j.pc != Submitting(WritingMeta))
  }

  function Next(w: World, e: Event): Option<World> {
    match e
    case JobStep(i, a) =>
      if !w.boot.Serving? then None
      else (match JobQueue.Next(w.queue, i, a) case None => None case Some(t) => Some(w.(queue := t)))
    case Crash => Some(World(CrashQueue(w.queue), Sweeping(0, true), Idle))
    case Sweep(stored) => if w.boot.Sweeping? then Some(SweepStep(w, stored)) else None
    case Check(i, overAge) =>
      if w.boot.Serving? && w.rotation.Idle? && i < |w.queue.jobs|
      then Some(if Expired(w.queue.jobs[i], overAge) then w.(rotation := Chosen(i)) else w)
      else None
    case Delete(removed) =>
      if w.rotation.Idle? || w.rotation.run >= |w.queue.jobs| then None
      else if !removed then Some(w.(rotation := Idle))
      else
        var i := w.rotation.run;
        Some(w.(rotation := Idle,
                queue := w.queue.(jobs := w.queue.jobs[i := w.queue.jobs[i].(dir := false, meta := None)])))
  }

  function Init(cap: nat, repos: seq<Repo>): World {
    World(JobQueue.Init(cap, repos), Serving, Idle)
  }

  function Run(w: World, events: seq<Event>): Option<World>
    decreases |events|
  {
    if events == [] then Some(w)
    else match Next(w, events[0]) case None => None case Some(u) => Run(u, events[1..])
  }

  ghost predicate Reachable(cap: nat, repos: seq<Repo>, w: World) {
    cap > 0 && exists events :: Run(Init(cap, repos), events) == Some(w)
  }

  // ---- The invariant ----

  /** No step of this job writes a status any more. */
  predicate Settled(j: Job) {
    !Live(j.meta) && (MetaRuleOf(j.pc) == NoMeta || MetaRuleOf(j.pc) == AnyMeta)
  }

  ghost predicate Inv(w: World) {
    && JobQueue.Inv(w.queue)
    && (w.rotation.Chosen? ==> w.rotation.run < |w.queue.jobs| && Settled(w.queue.jobs[w.rotation.run]))
    && (w.boot.Sweeping? ==>
          && w.rotation.Idle?
          && w.boot.next <= |w.queue.jobs|
          && (forall i :: 0 <= i < |w.queue.jobs| ==> Asleep(w.queue.jobs[i]))
          && (w.boot.clean ==> forall i :: 0 <= i < w.boot.next ==> !Live(w.queue.jobs[i].meta)))
  }

  /** Not begun, or dead. */
  predicate Asleep(j: Job) {
    && (j.pc == Submitting(Submitted) || j.pc == Crashed)
    && j.acquirer == NotStarted && !j.acquired && j.orphan == NoOrphan
  }

  lemma CrashKeepsInv(s: State)
    requires JobQueue.Inv(s)
    ensures JobQueue.Inv(CrashQueue(s))
    ensures forall i :: 0 <= i < |s.jobs| ==> Asleep(CrashQueue(s).jobs[i])
  {
    var t := CrashQueue(s);
    forall i | 0 <= i < |s.jobs| ensures Shaped(t.jobs[i]) && Asleep(t.jobs[i]) {
      assert Shaped(s.jobs[i]);
      CrashedIsShaped(s.jobs[i]);
    }
    AsleepHoldsNothing(t);
  }

  lemma CrashedIsShaped(j: Job)
    requires Shaped(j)
    ensures Shaped(CrashJob(j)) && Asleep(CrashJob(j))
  {
  }

  lemma AsleepHoldsNothing(s: State)
    requires forall i :: 0 <= i < |s.jobs| ==> Asleep(s.jobs[i])
    ensures Slots(s.jobs) == 0 && Workers(s.jobs) == 0
    ensures forall r: Repo :: PendingOf(s.jobs, r) == 0
  {
    CountZero(s.jobs, j => HoldsSlot(j));
    CountZero(s.jobs, j => HoldsWg(j));
    forall r: Repo ensures PendingOf(s.jobs, r) == 0 {
      CountZero(s.jobs, j => HoldsPending(j) && j.repo == r);
    }
  }

  /** Changing only the stored files of one job keeps everything the queue counts. */
  lemma FilesOnly(s: State, i: nat, k: Job)
    requires JobQueue.Inv(s) && i < |s.jobs|
    requires k == s.jobs[i].(dir := k.dir, meta := k.meta) && MetaShape(k)
    ensures JobQueue.Inv(s.(jobs := s.jobs[i := k]))
  {
    FilesKeepCounts(s.jobs, i, k);
    FilesKeepTables(s, i, k);
    FilesKeepOwners(s, i, k);
  }

  lemma FilesKeepTables(s: State, i: nat, k: Job)
    requires JobQueue.Inv(s) && i < |s.jobs|
    requires k == s.jobs[i].(dir := k.dir, meta := k.meta) && MetaShape(k)
    requires forall r: Repo :: PendingOf(s.jobs[i := k], r) == PendingOf(s.jobs, r)
    ensures var t := s.(jobs := s.jobs[i := k]); PendingExact(t) && Shapes(t) && LockTable(t)
  {
    var t := s.(jobs := s.jobs[i := k]);
    assert Shaped(s.jobs[i]);
    assert KnowsLock(k) == KnowsLock(s.jobs[i]);
    forall r: Repo ensures (if r in t.pending then t.pending[r] else 0) == PendingOf(t.jobs, r) <= t.cap
                        && (r in t.pending ==> t.pending[r] > 0) {
      assert PendingOf(t.jobs, r) == PendingOf(s.jobs, r);
    }
  }

  lemma FilesKeepCounts(jobs: seq<Job>, i: nat, k: Job)
    requires i < |jobs| && k == jobs[i].(dir := k.dir, meta := k.meta)
    ensures Slots(jobs[i := k]) == Slots(jobs) && Workers(jobs[i := k]) == Workers(jobs)
    ensures forall r: Repo :: PendingOf(jobs[i := k], r) == PendingOf(jobs, r)
  {
    CountPut(jobs, j => HoldsSlot(j), i, k);
    CountPut(jobs, j => HoldsWg(j), i, k);
    forall r: Repo ensures PendingOf(jobs[i := k], r) == PendingOf(jobs, r) {
      CountPut(jobs, j => HoldsPending(j) && j.repo == r, i, k);
    }
  }

  lemma FilesKeepOwners(s: State, i: nat, k: Job)
    requires Owners(s) && i < |s.jobs| && k == s.jobs[i].(dir := k.dir, meta := k.meta)
    ensures Owners(s.(jobs := s.jobs[i := k]))
  {
    var t := s.(jobs := s.jobs[i := k]);
    forall l | l in t.locked ensures Owned(t, l) {
      assert Owned(s, l);
      var o :| 0 <= o < |s.jobs| && Owns(s.jobs[o]) && s.jobs[o].lock == l;
      assert Owns(t.jobs[o]) && t.jobs[o].lock == l;
    }
    forall x, y | 0 <= x < |t.jobs| && 0 <= y < |t.jobs| && Contend(t.jobs[x], t.jobs[y]) ensures x == y {
      assert Contend(s.jobs[x], s.jobs[y]);
    }
  }

  /** The documented moves of a stored status inside one container. */
  predicate JobMove(old_: Option<Status>, new_: Option<Status>) {
    || new_ == old_
    || (old_ == None && new_ == Some(Queued))
    || (old_ == Some(Queued) && (new_ == Some(Running) || new_ == Some(Failed)))
    || (old_ == Some(Running) && (new_ == Some(Succeeded) || new_ == Some(Failed)))
  }

  lemma JobKeepsSettled(j: Job, a: Action, v: View)
    requires Shaped(j) && JobNext(j, a, v).Some?
    ensures Settled(j) ==> Settled(JobNext(j, a, v).value.job)
    ensures JobMove(j.meta, JobNext(j, a, v).value.job.meta)
  {
    if a != AcquirerGo && a != OrphanGo {
      match j.pc {
        case Submitting(p) =>
        case Waiting(p) =>
        case Holding(p) =>
        case Window(p) =>
        case Ending(p) =>
      }
    }
  }

  lemma JobStepInv(w: World, i: nat, a: Action, u: World)
    requires Inv(w) && Next(w, JobStep(i, a)) == Some(u)
    ensures Inv(u) && |u.queue.jobs| == |w.queue.jobs|
  {
    JobQueue.StepInv(w.queue, i, a, u.queue);
    assert Shaped(w.queue.jobs[i]);
    JobKeepsSettled(w.queue.jobs[i], a, ViewOf(w.queue, w.queue.jobs[i]));
  }

  lemma SweepInv(w: World, stored: bool, u: World)
    requires Inv(w) && Next(w, Sweep(stored)) == Some(u)
    ensures Inv(u) && |u.queue.jobs| == |w.queue.jobs|
  {
    var n := w.boot.next;
    if n < |w.queue.jobs| && Live(w.queue.jobs[n].meta) && stored {
      assert Shaped(w.queue.jobs[n]) && Asleep(w.queue.jobs[n]);
      FilesOnly(w.queue, n, u.queue.jobs[n]);
    }
  }

  lemma StepInv(w: World, e: Event, u: World)
    requires Inv(w) && Next(w, e) == Some(u)
    ensures Inv(u) && |u.queue.jobs| == |w.queue.jobs|
  {
    match e {
      case JobStep(i, a) => JobStepInv(w, i, a, u);
      case Crash => CrashKeepsInv(w.queue);
      case Sweep(stored) => SweepInv(w, stored, u);
      case Check(i, overAge) =>
        assert Shaped(w.queue.jobs[i]);
      case Delete(removed) =>
        if removed {
          FilesOnly(w.queue, w.rotation.run, u.queue.jobs[w.rotation.run]);
        }
    }
  }

  lemma {:induction false} RunInv(w: World, events: seq<Event>)
    requires Inv(w) && Run(w, events).Some?
    ensures Inv(Run(w, events).value) && |Run(w, events).value.queue.jobs| == |w.queue.jobs|
    decreases |events|
  {
    if events != [] {
      StepInv(w, events[0], Next(w, events[0]).value);
      RunInv(Next(w, events[0]).value, events[1..]);
    }
  }

  lemma ReachableInv(cap: nat, repos: seq<Repo>, w: World)
    requires Reachable(cap, repos, w)
    ensures Inv(w)
  {
    var events :| Run(Init(cap, repos), events) == Some(w);
    InitInv(cap, repos);
    RunInv(Init(cap, repos), events);
  }

  // ---- The main results ----

  /** How one event may change the stored status of one run: the queue's own moves, `interrupted` by
      the boot sweep only, and removal by rotation, which never touches a queued or running run. */
  lemma StatusMoves(cap: nat, repos: seq<Repo>, w: World, e: Event, u: World, i: nat)
    requires Reachable(cap, repos, w) && Next(w, e) == Some(u) && i < |w.queue.jobs|
    ensures i < |u.queue.jobs|
    ensures var before, after := w.queue.jobs[i].meta, u.queue.jobs[i].meta;
            || after == before
            || (e.JobStep? && w.boot.Serving? && JobMove(before, after))
            || (e.Sweep? && w.boot.Sweeping? && Live(before) && after == Some(Interrupted))
            || (e.Delete? && Terminal(before) && after == None)
  {
    ReachableInv(cap, repos, w);
    StepInv(w, e, u);
    if e.JobStep? { JobStatusMoves(w, e.job, e.action, u, i); }
  }

  lemma JobStatusMoves(w: World, j: nat, a: Action, u: World, i: nat)
    requires Inv(w) && Next(w, JobStep(j, a)) == Some(u) && i < |w.queue.jobs|
    ensures w.boot.Serving? && i < |u.queue.jobs| && JobMove(w.queue.jobs[i].meta, u.queue.jobs[i].meta)
  {
    if i == j {
      assert Shaped(w.queue.jobs[i]);
      JobKeepsSettled(w.queue.jobs[i], a, ViewOf(w.queue, w.queue.jobs[i]));
    }
  }

  /** `Rotate` checks and deletes without a lock, and still, at the moment of the deletion, the stored
      status is neither queued nor running, whatever happened since the check. */
  lemma RotationIsSafe(cap: nat, repos: seq<Repo>, w: World)
    requires Reachable(cap, repos, w) && w.rotation.Chosen?
    ensures w.rotation.run < |w.queue.jobs|
    ensures !Live(w.queue.jobs[w.rotation.run].meta)
    ensures w.queue.jobs[w.rotation.run].pc != Submitting(WritingMeta)
  {
    ReachableInv(cap, repos, w);
  }

  predicate Over(m: Status) { m == Succeeded || m == Failed || m == Interrupted }

  /** What rotation chooses: a directory over age whose run has ended, or that has no metadata and is not just being
      made; and a chosen directory goes away with its metadata when it is removed. */
  lemma RotationTakes(w: World, i: nat, overAge: bool)
    requires w.boot.Serving? && w.rotation.Idle? && i < |w.queue.jobs|
    ensures var j := w.queue.jobs[i];
            Next(w, Check(i, overAge)) ==
              if j.dir && overAge && (if j.meta == None then j.pc != Submitting(WritingMeta) else Over(j.meta.value))
              then Some(w.(rotation := Chosen(i))) else Some(w)
    ensures var u := Next(w.(rotation := Chosen(i)), Delete(true));
            u.Some? && |u.value.queue.jobs| == |w.queue.jobs|
            && u.value.queue.jobs[i] == w.queue.jobs[i].(dir := false, meta := None)
            && forall k :: 0 <= k < |w.queue.jobs| && k != i ==> u.value.queue.jobs[k] == w.queue.jobs[k]
  {
  }

  /** Once terminal, a status never changes again over any run of any length, crashes included: it is
      either still the same or its directory has been rotated away. */
  lemma {:induction false} TerminalIsFinal(cap: nat, repos: seq<Repo>, w: World, events: seq<Event>, i: nat)
    requires Reachable(cap, repos, w) && i < |w.queue.jobs| && Run(w, events).Some?
    requires Terminal(w.queue.jobs[i].meta)
    ensures i < |Run(w, events).value.queue.jobs|
    ensures Run(w, events).value.queue.jobs[i].meta in {w.queue.jobs[i].meta, None}
  {
    ReachableInv(cap, repos, w);
    assert Shaped(w.queue.jobs[i]);
    SettledForever(w, events, i, w.queue.jobs[i].meta);
  }

  lemma {:induction false} SettledForever(w: World, events: seq<Event>, i: nat, m: Option<Status>)
    requires Inv(w) && i < |w.queue.jobs| && Run(w, events).Some?
    requires Settled(w.queue.jobs[i]) && w.queue.jobs[i].meta in {m, None}
    ensures i < |Run(w, events).value.queue.jobs|
    ensures Run(w, events).value.queue.jobs[i].meta in {m, None}
    decreases |events|
  {
    if events != [] {
      var u := Next(w, events[0]).value;
      StepInv(w, events[0], u);
      SettledStep(w, events[0], u, i);
      SettledForever(u, events[1..], i, m);
    }
  }

  lemma SettledStep(w: World, e: Event, u: World, i: nat)
    requires Inv(w) && Next(w, e) == Some(u) && i < |w.queue.jobs| && Settled(w.queue.jobs[i])
    ensures i < |u.queue.jobs| && Settled(u.queue.jobs[i])
    ensures u.queue.jobs[i].meta in {w.queue.jobs[i].meta, None}
  {
    if e.JobStep? {
      SettledJobStep(w, e.job, e.action, u, i);
    }
  }

  lemma SettledJobStep(w: World, j: nat, a: Action, u: World, i: nat)
    requires Inv(w) && Next(w, JobStep(j, a)) == Some(u) && i < |w.queue.jobs| && Settled(w.queue.jobs[i])
    ensures i < |u.queue.jobs| && Settled(u.queue.jobs[i])
    ensures u.queue.jobs[i].meta == w.queue.jobs[i].meta
  {
    if j == i {
      assert Shaped(w.queue.jobs[i]);
      JobKeepsSettled(w.queue.jobs[i], a, ViewOf(w.queue, w.queue.jobs[i]));
    }
  }

  /** After a boot sweep that reported no error no run is left queued or running. */
  lemma SweepLeavesNoneLive(cap: nat, repos: seq<Repo>, w: World, stored: bool, u: World, i: nat)
    requires Reachable(cap, repos, w) && w.boot.Sweeping? && w.boot.clean
    requires Next(w, Sweep(stored)) == Some(u) && u.boot.Serving?
    requires i < |u.queue.jobs|
    ensures !Live(u.queue.jobs[i].meta)
  {
    ReachableInv(cap, repos, w);
  }
}
