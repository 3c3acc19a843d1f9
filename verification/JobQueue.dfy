/** The job queue of iac-runner (iac-runner/internal/jobq/queue.go) as a step machine.

    A state holds any number of submissions. Each submission runs `Submit`, then its worker
    goroutine, then the acquirer and orphan goroutines that `acquire` starts on its behalf.
    One step is one shared action of one goroutine, so every interleaving is a sequence of steps.
    This module defines the machine and the invariant that every step keeps.
 */
module JobQueue {
  import opened Wrappers

  type Repo = string

  datatype Status = Queued | Running | Succeeded | Failed | Interrupted

  predicate Live(m: Option<Status>) {
    m == Some(Queued) || m == Some(Running)
  }

  predicate Terminal(m: Option<Status>) {
    m.Some? && !Live(m)
  }

  /** The steps of `Submit`; `removeDir` says that the run directory is removed after the undo. */
  datatype SubmitPc =
    | Submitted | Admitting | Reserving | RefusedReceive
    | MakingRunId | MakingDir | WritingMeta | Spawning
    | UndoPending(removeDir: bool) | UndoSlot(removeDir: bool) | RemovingDir | Rejected

  /** The worker up to the repo mutex. */
  datatype WaitPc = HandBack | LookupLock | CreateLock | StartAcquirer | AwaitLock | FailBusy

  /** The worker holds the repo mutex but no slot; `panicking`: a panic unwinds the deferred calls. */
  datatype OwnPc = AwaitSlot | FailCapacity | Unlocking(panicking: bool)

  /** The execution window: the worker holds the repo mutex and a slot. */
  datatype WindowPc = MarkRunning | OpenOutput | Executing | Finishing | FailInWindow | ReleaseSlot(panicking: bool)

  /** The outermost deferred calls. */
  datatype EndPc = Recovering | ReleasePending | WgDone | Done

  /** Where the submitter, and after `go q.work` the worker, of one submission stands. */
  datatype Pc =
    | Submitting(submit: SubmitPc)
    | Waiting(wait: WaitPc)
    | Holding(hold: OwnPc)
    | Window(window: WindowPc)
    | Ending(end: EndPc)
    | Crashed

  /** The goroutine of `acquire` that calls `lock.Lock()` and then sends on `acquired`. */
  datatype Acquirer = NotStarted | Locking | Sending | Sent

  /** The goroutine that takes over a lock nobody waits for any more. */
  datatype Orphan = NoOrphan | Receiving | Releasing | Released

  datatype Job = Job(
    repo: Repo,
    pc: Pc,
    lock: nat,            // the mutex `lockFor` returned
    acquirer: Acquirer,
    acquired: bool,       // the one-element channel of `acquire`
    orphan: Orphan,
    dir: bool,            // the run directory exists
    meta: Option<Status>  // the stored status, None without a readable meta.json
  )

  datatype State = State(
    cap: nat,
    sem: nat,
    locks: map<Repo, nat>,
    nextLock: nat,
    locked: set<nat>,
    pending: map<Repo, nat>,
    wg: int,
    jobs: seq<Job>,
    fault: bool           // a free mutex was unlocked or the WaitGroup went negative
  )

  /** Go is the normal branch, Refuse another outcome the code handles, Lose a store update that
      returns an error, Panic a panic before the pending store write, Timeout an expired timer. */
  datatype Action = Go | Refuse | Lose | Panic | Timeout | AcquirerGo | OrphanGo

  // ---- The per-repo admission map ----

  predicate CanReserve(pending: map<Repo, nat>, max: nat, repo: Repo) {
    (if repo in pending then pending[repo] else 0) < max
  }

  function Reserve(pending: map<Repo, nat>, repo: Repo): map<Repo, nat> {
    pending[repo := (if repo in pending then pending[repo] else 0) + 1]
  }

  function Release(pending: map<Repo, nat>, repo: Repo): map<Repo, nat> {
    if (if repo in pending then pending[repo] else 0) <= 1 then pending - {repo}
    else pending[repo := pending[repo] - 1]
  }

  // ---- One step ----

  datatype SemOp = SemKeep | Send | Receive
  datatype PendingOp = PendingKeep | TakePending | GivePending
  datatype MutexOp = MutexKeep | Lock | Unlock

  /** What the next action of a job does: its own new record and one operation on each shared object. */
  datatype Effect = Effect(job: Job, sem: SemOp, pending: PendingOp, wg: int, mutex: MutexOp, newLock: bool)

  /** What a job reads of the shared state in one step. */
  datatype View = View(slotFree: bool, canReserve: bool, entry: Option<nat>, nextLock: nat, mutexFree: bool)

  function Only(j: Job): Option<Effect> {
    Some(Effect(j, SemKeep, PendingKeep, 0, MutexKeep, false))
  }

  function Goto(j: Job, pc: Pc): Option<Effect> {
    Only(j.(pc := pc))
  }

  function WithSem(j: Job, pc: Pc, op: SemOp): Option<Effect> {
    Some(Effect(j.(pc := pc), op, PendingKeep, 0, MutexKeep, false))
  }

  function WithPending(j: Job, pc: Pc, op: PendingOp): Option<Effect> {
    Some(Effect(j.(pc := pc), SemKeep, op, 0, MutexKeep, false))
  }

  function WithMutex(j: Job, op: MutexOp): Option<Effect> {
    Some(Effect(j, SemKeep, PendingKeep, 0, op, false))
  }

  /** A store update that writes status `st`; it needs the stored metadata. */
  function Write(j: Job, st: Status, pc: Pc): Option<Effect> {
    if j.meta.None? then None else Only(j.(pc := pc, meta := Some(st)))
  }

  function SubmitNext(j: Job, p: SubmitPc, a: Action, v: View): Option<Effect> {
    match (p, a)
    case (Submitted, Go) => Goto(j, Submitting(Admitting))
    case (Submitted, Refuse) => Goto(j, Submitting(Rejected))
    case (Admitting, Go) =>
      if v.slotFree then WithSem(j, Submitting(Reserving), Send) else Goto(j, Submitting(Rejected))
    case (Reserving, Go) =>
      if v.canReserve then WithPending(j, Submitting(MakingRunId), TakePending)
      else Goto(j, Submitting(RefusedReceive))
    case (RefusedReceive, Go) => WithSem(j, Submitting(Rejected), Receive)
    case (MakingRunId, Go) => Goto(j, Submitting(MakingDir))
    case (MakingRunId, Refuse) => Goto(j, Submitting(UndoPending(false)))
    case (MakingDir, Go) => Only(j.(pc := Submitting(WritingMeta), dir := true))
    case (MakingDir, Refuse) => Goto(j, Submitting(UndoPending(true)))
    case (WritingMeta, Go) => Only(j.(pc := Submitting(Spawning), meta := Some(Queued)))
    case (WritingMeta, Refuse) => Goto(j, Submitting(UndoPending(true)))
    case (UndoPending(rm), Go) => WithPending(j, Submitting(UndoSlot(rm)), GivePending)
    case (UndoSlot(rm), Go) => WithSem(j, Submitting(if rm then RemovingDir else Rejected), Receive)
    case (RemovingDir, Go) => Only(j.(pc := Submitting(Rejected), dir := false))
    case (RemovingDir, Refuse) => Goto(j, Submitting(Rejected))
    case (Spawning, Go) => Some(Effect(j.(pc := Waiting(HandBack)), SemKeep, PendingKeep, 1, MutexKeep, false))
    case _ => None
  }

  function WaitNext(j: Job, p: WaitPc, a: Action, v: View): Option<Effect> {
    match (p, a)
    case (HandBack, Go) => WithSem(j, Waiting(LookupLock), Receive)
    case (LookupLock, Go) =>
      if v.entry.Some? then Only(j.(pc := Waiting(StartAcquirer), lock := v.entry.value))
      else Goto(j, Waiting(CreateLock))
    case (CreateLock, Go) =>
      // Another caller may have created the entry since the lookup.
      if v.entry.Some? then Only(j.(pc := Waiting(StartAcquirer), lock := v.entry.value))
      else Some(Effect(j.(pc := Waiting(StartAcquirer), lock := v.nextLock), SemKeep, PendingKeep, 0, MutexKeep, true))
    case (StartAcquirer, Go) => Only(j.(pc := Waiting(AwaitLock), acquirer := Locking))
    case (AwaitLock, Go) => if j.acquired then Only(j.(pc := Holding(AwaitSlot), acquired := false)) else None
    case (AwaitLock, Timeout) => Only(j.(pc := Waiting(FailBusy), orphan := Receiving))
    case (FailBusy, Go) => Write(j, Failed, Ending(ReleasePending))
    case (FailBusy, Lose) => Goto(j, Ending(ReleasePending))
    case (FailBusy, Panic) => Goto(j, Ending(Recovering))
    case _ => None
  }

  function HoldNext(j: Job, p: OwnPc, a: Action, v: View): Option<Effect> {
    match (p, a)
    case (AwaitSlot, Go) => if v.slotFree then WithSem(j, Window(MarkRunning), Send) else None
    case (AwaitSlot, Timeout) => Goto(j, Holding(FailCapacity))
    case (FailCapacity, Go) => Write(j, Failed, Holding(Unlocking(false)))
    case (FailCapacity, Lose) => Goto(j, Holding(Unlocking(false)))
    case (FailCapacity, Panic) => Goto(j, Holding(Unlocking(true)))
    case (Unlocking(panicking), Go) =>
      WithMutex(j.(pc := Ending(if panicking then Recovering else ReleasePending)), Unlock)
    case _ => None
  }

  /** A panic anywhere in the window unwinds to the slot release. */
  function WindowNext(j: Job, p: WindowPc, a: Action): Option<Effect> {
    match (p, a)
    case (ReleaseSlot(panicking), Go) => WithSem(j, Holding(Unlocking(panicking)), Receive)
    case (ReleaseSlot(_), _) => None
    case (_, Panic) => Goto(j, Window(ReleaseSlot(true)))
    case (MarkRunning, Go) => Write(j, Running, Window(OpenOutput))
    case (MarkRunning, Lose) => Goto(j, Window(FailInWindow))
    case (OpenOutput, Go) => Goto(j, Window(Executing))
    case (OpenOutput, Refuse) => Goto(j, Window(FailInWindow))
    case (Executing, Go) => Goto(j, Window(Finishing))
    case (Finishing, Go) => Write(j, Succeeded, Window(ReleaseSlot(false)))
    case (Finishing, Refuse) => Write(j, Failed, Window(ReleaseSlot(false)))
    case (Finishing, Lose) => Goto(j, Window(ReleaseSlot(false)))
    case (FailInWindow, Go) => Write(j, Failed, Window(ReleaseSlot(false)))
    case (FailInWindow, Lose) => Goto(j, Window(ReleaseSlot(false)))
    case _ => None
  }

  function EndNext(j: Job, p: EndPc, a: Action): Option<Effect> {
    match (p, a)
    case (Recovering, Go) => Write(j, Failed, Ending(ReleasePending))
    case (Recovering, Lose) => Goto(j, Ending(ReleasePending))
    case (ReleasePending, Go) => WithPending(j, Ending(WgDone), GivePending)
    case (WgDone, Go) => Some(Effect(j.(pc := Ending(Done)), SemKeep, PendingKeep, -1, MutexKeep, false))
    case _ => None
  }

  function HelperNext(j: Job, a: Action, v: View): Option<Effect> {
    if a == AcquirerGo then
      match j.acquirer {
        case Locking => if v.mutexFree then WithMutex(j.(acquirer := Sending), Lock) else None
        case Sending => if j.acquired then None else Only(j.(acquirer := Sent, acquired := true))
        case _ => None
      }
    else if a == OrphanGo then
      match j.orphan {
        case Receiving => if j.acquired then Only(j.(orphan := Releasing, acquired := false)) else None
        case Releasing => WithMutex(j.(orphan := Released), Unlock)
        case _ => None
      }
    else None
  }

  function JobNext(j: Job, a: Action, v: View): Option<Effect> {
    if a == AcquirerGo || a == OrphanGo then HelperNext(j, a, v)
    else match j.pc
      case Submitting(p) => SubmitNext(j, p, a, v)
      case Waiting(p) => WaitNext(j, p, a, v)
      case Holding(p) => HoldNext(j, p, a, v)
      case Window(p) => WindowNext(j, p, a)
      case Ending(p) => EndNext(j, p, a)
      case Crashed => None
  }

  function ViewOf(s: State, j: Job): View {
    View(s.sem < s.cap, CanReserve(s.pending, s.cap, j.repo),
         if j.repo in s.locks then Some(s.locks[j.repo]) else None, s.nextLock, j.lock !in s.locked)
  }

  /** A receive from an empty channel blocks: then the action is not enabled. */
  function Apply(s: State, i: nat, e: Effect): Option<State>
    requires i < |s.jobs|
  {
    if e.sem == Receive && s.sem == 0 then None
    else
      Some(State(
        s.cap,
        match e.sem { case SemKeep => s.sem case Send => s.sem + 1 case Receive => s.sem - 1 },
        if e.newLock then s.locks[e.job.repo := s.nextLock] else s.locks,
        if e.newLock then s.nextLock + 1 else s.nextLock,
        match e.mutex {
          case MutexKeep => s.locked
          case Lock => s.locked + {e.job.lock}
          case Unlock => s.locked - {e.job.lock}
        },
        match e.pending {
          case PendingKeep => s.pending
          case TakePending => Reserve(s.pending, e.job.repo)
          case GivePending => Release(s.pending, e.job.repo)
        },
        s.wg + e.wg,
        s.jobs[i := e.job],
        s.fault || (e.mutex == Unlock && e.job.lock !in s.locked) || s.wg + e.wg < 0))
  }

  /** The successor of `s` when submission `i` takes action `a`; None when that action is not enabled. */
  function Next(s: State, i: nat, a: Action): Option<State> {
    if i >= |s.jobs| then None
    else match JobNext(s.jobs[i], a, ViewOf(s, s.jobs[i]))
      case None => None
      case Some(e) => Apply(s, i, e)
  }

  function NewJob(repo: Repo): Job {
    Job(repo, Submitting(Submitted), 0, NotStarted, false, NoOrphan, false, None)
  }

  /** A fresh queue with `cap` slots in front of one submission per element of `repos`. */
  function Init(cap: nat, repos: seq<Repo>): State {
    State(cap, 0, map[], 0, {}, map[], 0, seq(|repos|, i requires 0 <= i < |repos| => NewJob(repos[i])), false)
  }

  // ---- What a job holds ----

  /** How far the job is with its repo mutex. */
  datatype Phase = Before | Asking | TimedOut | Owning | Ended

  /** What the stored status can be. */
  datatype MetaRule = NoDir | DirOnly | NoMeta | IsQueued | IsRunning | IsLive | AnyMeta

  /** Between admission and hand-back, or inside the execution window. */
  predicate HoldsSlot(j: Job) {
    match j.pc
    case Submitting(p) => !(p.Submitted? || p.Admitting? || p.RemovingDir? || p.Rejected?)
    case Waiting(p) => p.HandBack?
    case Window(_) => true
    case _ => false
  }

  /** Admitted and not finished: the job counts in `pending`. */
  predicate HoldsPending(j: Job) {
    match j.pc
    case Submitting(p) => p.MakingRunId? || p.MakingDir? || p.WritingMeta? || p.Spawning? || p.UndoPending?
    case Waiting(_) => true
    case Holding(_) => true
    case Window(_) => true
    case Ending(p) => p.Recovering? || p.ReleasePending?
    case Crashed => false
  }

  /** A worker goroutine that has not called `wg.Done`. */
  predicate HoldsWg(j: Job) {
    match j.pc
    case Submitting(_) => false
    case Ending(p) => !p.Done?
    case Crashed => false
    case _ => true
  }

  /** The execution window: from taking the second slot to giving it back. */
  predicate InWindow(j: Job) { j.pc.Window? }

  function PhaseOf(pc: Pc): Phase {
    match pc
    case Submitting(_) => Before
    case Waiting(p) => if p.AwaitLock? then Asking else if p.FailBusy? then TimedOut else Before
    case Holding(_) => Owning
    case Window(_) => Owning
    case Ending(_) => Ended
    case Crashed => Before
  }

  function MetaRuleOf(pc: Pc): MetaRule {
    match pc
    case Submitting(p) =>
      if p.WritingMeta? then DirOnly
      else if p.Spawning? then IsQueued
      else if p.UndoPending? || p.UndoSlot? || p.RemovingDir? || p.Rejected? then NoMeta
      else NoDir
    case Waiting(_) => IsQueued
    case Holding(Unlocking(panicking)) => if panicking then IsLive else AnyMeta
    case Holding(_) => IsQueued
    case Window(p) =>
      if p.MarkRunning? then IsQueued
      else if p.FailInWindow? || p == ReleaseSlot(true) then IsLive
      else if p.ReleaseSlot? then AnyMeta
      else IsRunning
    case Ending(p) => if p.Recovering? then IsLive else AnyMeta
    case Crashed => AnyMeta
  }

  /** The mutex is locked on behalf of this job, by whichever of its goroutines. */
  predicate Owns(j: Job) {
    j.pc.Holding? || j.pc.Window? || j.acquirer == Sending || j.acquired || j.orphan == Releasing
  }

  predicate KnowsLock(j: Job) {
    j.pc == Waiting(StartAcquirer) || j.acquirer != NotStarted
  }

  function Count(jobs: seq<Job>, p: Job -> bool): nat {
    if jobs == [] then 0 else (if p(jobs[0]) then 1 else 0) + Count(jobs[1..], p)
  }

  function Slots(jobs: seq<Job>): nat { Count(jobs, j => HoldsSlot(j)) }

  function Workers(jobs: seq<Job>): nat { Count(jobs, j => HoldsWg(j)) }

  function PendingOf(jobs: seq<Job>, repo: Repo): nat {
    Count(jobs, j => HoldsPending(j) && j.repo == repo)
  }

  lemma {:induction false} CountPut(jobs: seq<Job>, p: Job -> bool, i: nat, j: Job)
    requires i < |jobs|
    ensures Count(jobs[i := j], p) + (if p(jobs[i]) then 1 else 0) == Count(jobs, p) + (if p(j) then 1 else 0)
  {
    if i == 0 {
      assert jobs[0 := j][1..] == jobs[1..];
    } else {
      CountPut(jobs[1..], p, i - 1, j);
      assert jobs[i := j][1..] == jobs[1..][i - 1 := j];
    }
  }

  lemma {:induction false} CountPositive(jobs: seq<Job>, p: Job -> bool, i: nat)
    requires i < |jobs| && p(jobs[i])
    ensures Count(jobs, p) > 0
  {
    if i != 0 { CountPositive(jobs[1..], p, i - 1); }
  }

  lemma {:induction false} CountZero(jobs: seq<Job>, p: Job -> bool)
    requires forall i :: 0 <= i < |jobs| ==> !p(jobs[i])
    ensures Count(jobs, p) == 0
  {
    if jobs != [] { CountZero(jobs[1..], p); }
  }

  lemma {:induction false} CountWitness(jobs: seq<Job>, p: Job -> bool) returns (i: nat)
    requires Count(jobs, p) > 0
    ensures i < |jobs| && p(jobs[i])
  {
    if p(jobs[0]) { i := 0; } else { var k := CountWitness(jobs[1..], p); i := k + 1; }
  }

  // ---- The invariant ----

  /** The orphan has taken over: it, the acquirer and the channel fit together. */
  predicate OrphanShape(j: Job) {
    match j.orphan
    case NoOrphan => false
    case Receiving => j.acquirer != NotStarted && (j.acquirer == Sent ==> j.acquired)
    case _ => j.acquirer == Sent && !j.acquired
  }

  /** How the worker, its acquirer, the channel and the orphan of one job fit together. */
  predicate Shape(j: Job) {
    && (j.acquired ==> j.acquirer == Sent)
    && match PhaseOf(j.pc)
       case Before => j.acquirer == NotStarted && j.orphan == NoOrphan
       case Asking => j.orphan == NoOrphan && j.acquirer != NotStarted && (j.acquirer == Sent ==> j.acquired)
       case TimedOut => OrphanShape(j)
       case Owning => j.orphan == NoOrphan && j.acquirer == Sent && !j.acquired
       case Ended => OrphanShape(j) || (j.orphan == NoOrphan && j.acquirer == Sent && !j.acquired)
  }

  /** What the stored status can be at each point of the job. */
  predicate MetaShape(j: Job) {
    match MetaRuleOf(j.pc)
    case NoDir => !j.dir && j.meta.None?
    case DirOnly => j.dir && j.meta.None?
    case NoMeta => j.meta.None?
    case IsQueued => j.dir && j.meta == Some(Queued)
    case IsRunning => j.dir && j.meta == Some(Running)
    case IsLive => j.dir && Live(j.meta)
    case AnyMeta => j.meta.Some? ==> j.dir
  }

  predicate Tokens(s: State) {
    s.sem == Slots(s.jobs) <= s.cap
  }

  ghost predicate PendingExact(s: State) {
    forall r: Repo ::
      && (if r in s.pending then s.pending[r] else 0) == PendingOf(s.jobs, r) <= s.cap
      && (r in s.pending ==> s.pending[r] > 0)
  }

  ghost predicate LockTable(s: State) {
    && (forall r :: r in s.locks ==> s.locks[r] < s.nextLock)
    && (forall r, q :: r in s.locks && q in s.locks && s.locks[r] == s.locks[q] ==> r == q)
    && (forall i :: 0 <= i < |s.jobs| && KnowsLock(s.jobs[i]) ==>
          s.jobs[i].repo in s.locks && s.jobs[i].lock == s.locks[s.jobs[i].repo])
  }

  predicate Contend(j: Job, k: Job) {
    Owns(j) && Owns(k) && j.lock == k.lock
  }

  ghost predicate Owned(s: State, l: nat) {
    exists i :: 0 <= i < |s.jobs| && Owns(s.jobs[i]) && s.jobs[i].lock == l
  }

  ghost predicate Owners(s: State) {
    && (forall i, k :: 0 <= i < |s.jobs| && 0 <= k < |s.jobs| && Contend(s.jobs[i], s.jobs[k]) ==> i == k)
    && (forall i :: 0 <= i < |s.jobs| && Owns(s.jobs[i]) ==> s.jobs[i].lock in s.locked)
    && (forall l :: l in s.locked ==> Owned(s, l))
  }

  ghost predicate Shapes(s: State) {
    forall i :: 0 <= i < |s.jobs| ==> Shaped(s.jobs[i])
  }

  ghost predicate Inv(s: State) {
    && s.cap > 0
    && Tokens(s)
    && PendingExact(s)
    && s.wg == Workers(s.jobs)
    && Shapes(s)
    && LockTable(s)
    && Owners(s)
    && !s.fault
  }

  lemma InitInv(cap: nat, repos: seq<Repo>)
    requires cap > 0
    ensures Inv(Init(cap, repos))
  {
    var s := Init(cap, repos);
    CountZero(s.jobs, j => HoldsSlot(j));
    CountZero(s.jobs, j => HoldsWg(j));
    forall r: Repo ensures PendingOf(s.jobs, r) == 0 {
      CountZero(s.jobs, j => HoldsPending(j) && j.repo == r);
    }
  }

  // ---- Every step keeps it ----

  predicate Shaped(j: Job) {
    Shape(j) && MetaShape(j)
  }

  function SemDelta(op: SemOp): int {
    match op case SemKeep => 0 case Send => 1 case Receive => -1
  }

  function PendingDelta(op: PendingOp): int {
    match op case PendingKeep => 0 case TakePending => 1 case GivePending => -1
  }

  function MutexDelta(op: MutexOp): int {
    match op case MutexKeep => 0 case Lock => 1 case Unlock => -1
  }

  function Bit(b: bool): int { if b then 1 else 0 }

  /** One action of one job: its holdings change by exactly what it does to the shared objects. */
  predicate Balanced(j: Job, v: View, e: Effect) {
    var k := e.job;
    && k.repo == j.repo
    && Bit(HoldsSlot(k)) - Bit(HoldsSlot(j)) == SemDelta(e.sem)
    && Bit(HoldsPending(k)) - Bit(HoldsPending(j)) == PendingDelta(e.pending)
    && Bit(HoldsWg(k)) - Bit(HoldsWg(j)) == e.wg
    && Bit(Owns(k)) - Bit(Owns(j)) == MutexDelta(e.mutex)
    && (Owns(j) || Owns(k) ==> k.lock == j.lock)
    && (KnowsLock(j) ==> KnowsLock(k) && k.lock == j.lock && !e.newLock)
    && (KnowsLock(k) && !KnowsLock(j) ==> k.lock == if v.entry.Some? then v.entry.value else v.nextLock)
    && (KnowsLock(k) && !KnowsLock(j) && v.entry.None? ==> e.newLock)
    && (e.newLock ==> v.entry.None? && KnowsLock(k))
    && (e.sem == Send ==> v.slotFree)
    && (e.pending == TakePending ==> v.canReserve)
    && (e.mutex == Lock ==> v.mutexFree)
  }

  lemma SubmitShaped(j: Job, p: SubmitPc, a: Action, v: View, e: Effect)
    requires Shaped(j) && j.pc == Submitting(p) && SubmitNext(j, p, a, v) == Some(e)
    ensures Shaped(e.job)
  {
  }

  lemma SubmitBalanced(j: Job, p: SubmitPc, a: Action, v: View, e: Effect)
    requires Shaped(j) && j.pc == Submitting(p) && SubmitNext(j, p, a, v) == Some(e)
    ensures Balanced(j, v, e)
  {
  }

  lemma WaitBalanced(j: Job, p: WaitPc, a: Action, v: View, e: Effect)
    requires Shaped(j) && j.pc == Waiting(p) && WaitNext(j, p, a, v) == Some(e)
    ensures Shaped(e.job) && Balanced(j, v, e)
  {
  }

  lemma HoldBalanced(j: Job, p: OwnPc, a: Action, v: View, e: Effect)
    requires Shaped(j) && j.pc == Holding(p) && HoldNext(j, p, a, v) == Some(e)
    ensures Shaped(e.job) && Balanced(j, v, e)
  {
  }

  lemma WindowBalanced(j: Job, p: WindowPc, a: Action, v: View, e: Effect)
    requires Shaped(j) && j.pc == Window(p) && WindowNext(j, p, a) == Some(e)
    ensures Shaped(e.job) && Balanced(j, v, e)
  {
  }

  lemma EndBalanced(j: Job, p: EndPc, a: Action, v: View, e: Effect)
    requires Shaped(j) && j.pc == Ending(p) && EndNext(j, p, a) == Some(e)
    ensures Shaped(e.job) && Balanced(j, v, e)
  {
  }

  lemma HelperBalanced(j: Job, a: Action, v: View, e: Effect)
    requires Shaped(j) && HelperNext(j, a, v) == Some(e)
    ensures Shaped(e.job) && Balanced(j, v, e)
  {
  }

  lemma JobBalanced(j: Job, a: Action, v: View, e: Effect)
    requires Shaped(j) && JobNext(j, a, v) == Some(e)
    ensures Shaped(e.job) && Balanced(j, v, e)
  {
    if a == AcquirerGo || a == OrphanGo {
      HelperBalanced(j, a, v, e);
    } else {
      match j.pc {
        case Submitting(p) =>
          SubmitShaped(j, p, a, v, e);
          SubmitBalanced(j, p, a, v, e);
        case Waiting(p) => WaitBalanced(j, p, a, v, e);
        case Holding(p) => HoldBalanced(j, p, a, v, e);
        case Window(p) => WindowBalanced(j, p, a, v, e);
        case Ending(p) => EndBalanced(j, p, a, v, e);
      }
    }
  }

  ghost predicate Steps(s: State, i: nat, e: Effect, t: State) {
    i < |s.jobs| && Inv(s) && Balanced(s.jobs[i], ViewOf(s, s.jobs[i]), e) && Shaped(e.job) && Apply(s, i, e) == Some(t)
  }

  lemma KeepsTokens(s: State, i: nat, e: Effect, t: State)
    requires Steps(s, i, e, t)
    ensures Tokens(t) && t.wg == Workers(t.jobs)
  {
    CountPut(s.jobs, j => HoldsSlot(j), i, e.job);
    CountPut(s.jobs, j => HoldsWg(j), i, e.job);
  }

  lemma KeepsPending(s: State, i: nat, e: Effect, t: State)
    requires Steps(s, i, e, t)
    ensures PendingExact(t)
  {
    forall r: Repo
      ensures (if r in t.pending then t.pending[r] else 0) == PendingOf(t.jobs, r) <= t.cap
      ensures r in t.pending ==> t.pending[r] > 0
    {
      CountPut(s.jobs, j => HoldsPending(j) && j.repo == r, i, e.job);
      assert (if r in s.pending then s.pending[r] else 0) == PendingOf(s.jobs, r) <= s.cap;
    }
  }

  lemma KeepsLockTable(s: State, i: nat, e: Effect, t: State)
    requires Steps(s, i, e, t)
    ensures LockTable(t)
  {
  }

  lemma KeepsNoFault(s: State, i: nat, e: Effect, t: State)
    requires Steps(s, i, e, t)
    ensures !t.fault
  {
    CountPut(s.jobs, j => HoldsWg(j), i, e.job);
  }

  lemma KeepsOwned(s: State, i: nat, e: Effect, t: State)
    requires Steps(s, i, e, t)
    ensures forall l :: l in t.locked ==> Owned(t, l)
  {
    forall l | l in t.locked ensures Owned(t, l) {
      if l in s.locked {
        assert Owned(s, l);
        var k :| 0 <= k < |s.jobs| && Owns(s.jobs[k]) && s.jobs[k].lock == l;
        assert Owns(t.jobs[k]) && t.jobs[k].lock == l;
      } else {
        assert Owns(t.jobs[i]) && t.jobs[i].lock == l;
      }
    }
  }

  lemma KeepsOwners(s: State, i: nat, e: Effect, t: State)
    requires Steps(s, i, e, t)
    ensures Owners(t)
  {
    KeepsOwned(s, i, e, t);
    if Owns(s.jobs[i]) { assert Contend(s.jobs[i], s.jobs[i]); }
    forall k, l | 0 <= k < |t.jobs| && 0 <= l < |t.jobs| && Contend(t.jobs[k], t.jobs[l]) ensures k == l {
      if k != i && l != i {
        assert Contend(s.jobs[k], s.jobs[l]);
      } else if k != l && Owns(s.jobs[i]) {
        assert Contend(s.jobs[k], s.jobs[l]);
      }
    }
    forall k | 0 <= k < |t.jobs| && Owns(t.jobs[k]) ensures t.jobs[k].lock in t.locked {
      assert k != i && Owns(s.jobs[i]) ==> !Contend(s.jobs[i], s.jobs[k]);
    }
  }

  lemma StepInv(s: State, i: nat, a: Action, t: State)
    requires Inv(s) && Next(s, i, a) == Some(t)
    ensures Inv(t)
    ensures i < |s.jobs| == |t.jobs| && t.cap == s.cap
    ensures t.jobs == s.jobs[i := t.jobs[i]] && t.jobs[i].repo == s.jobs[i].repo
  {
    var j, v := s.jobs[i], ViewOf(s, s.jobs[i]);
    var e := JobNext(j, a, v).value;
    assert Shaped(j);
    JobBalanced(j, a, v, e);
    KeepsTokens(s, i, e, t);
    KeepsPending(s, i, e, t);
    KeepsLockTable(s, i, e, t);
    KeepsOwners(s, i, e, t);
    KeepsNoFault(s, i, e, t);
  }

  // ---- Runs ----

  datatype Move = Move(job: nat, action: Action)

  /** The state after a sequence of moves; None when one of them is not enabled. */
  function Run(s: State, moves: seq<Move>): Option<State>
    decreases |moves|
  {
    if moves == [] then Some(s)
    else match Next(s, moves[0].job, moves[0].action)
      case None => None
      case Some(t) => Run(t, moves[1..])
  }

  lemma {:induction false} RunInv(s: State, moves: seq<Move>)
    requires Inv(s) && Run(s, moves).Some?
    ensures Inv(Run(s, moves).value)
    ensures |Run(s, moves).value.jobs| == |s.jobs| && Run(s, moves).value.cap == s.cap
    decreases |moves|
  {
    if moves != [] {
      var t := Next(s, moves[0].job, moves[0].action).value;
      StepInv(s, moves[0].job, moves[0].action, t);
      RunInv(t, moves[1..]);
    }
  }

  ghost predicate Reachable(cap: nat, repos: seq<Repo>, s: State) {
    cap > 0 && exists moves :: Run(Init(cap, repos), moves) == Some(s)
  }

  lemma ReachableInv(cap: nat, repos: seq<Repo>, s: State)
    requires Reachable(cap, repos, s)
    ensures Inv(s) && s.cap == cap && |s.jobs| == |repos|
  {
    var moves :| Run(Init(cap, repos), moves) == Some(s);
    InitInv(cap, repos);
    RunInv(Init(cap, repos), moves);
  }

  /** Conservation of slots, in every interleaving with time-outs and panics: the channel holds one
      token per job between admission and hand-back or in its execution window, and never more than
      `max_parallel`. */
  lemma SlotsConserved(cap: nat, repos: seq<Repo>, s: State)
    requires Reachable(cap, repos, s)
    ensures s.sem == Count(s.jobs, j => HoldsSlot(j)) <= cap
  {
    ReachableInv(cap, repos, s);
  }

  /** No receive ever blocks: what a job is ready to do never waits for a token in an empty channel. */
  lemma NoReceiveBlocks(cap: nat, repos: seq<Repo>, s: State, i: nat, a: Action)
    requires Reachable(cap, repos, s) && i < |s.jobs|
    requires JobNext(s.jobs[i], a, ViewOf(s, s.jobs[i])).Some?
    ensures Next(s, i, a).Some?
  {
    ReachableInv(cap, repos, s);
    var e := JobNext(s.jobs[i], a, ViewOf(s, s.jobs[i])).value;
    assert Shaped(s.jobs[i]);
    if e.sem == Receive {
      ReceiverHolds(s.jobs[i], a, ViewOf(s, s.jobs[i]), e);
      CountPositive(s.jobs, j => HoldsSlot(j), i);
    }
  }

  lemma ReceiverHolds(j: Job, a: Action, v: View, e: Effect)
    requires Shaped(j) && JobNext(j, a, v) == Some(e) && e.sem == Receive
    ensures HoldsSlot(j)
  {
    JobBalanced(j, a, v, e);
  }

  /** A job that waits for its repo mutex or for an execution slot holds no token: all tokens belong
      to the other jobs. */
  lemma WaiterHoldsNoSlot(cap: nat, repos: seq<Repo>, s: State, i: nat)
    requires Reachable(cap, repos, s) && i < |s.jobs|
    requires s.jobs[i].pc == Waiting(AwaitLock) || s.jobs[i].pc == Holding(AwaitSlot)
    ensures s.sem == Count(s.jobs[..i] + s.jobs[i + 1..], j => HoldsSlot(j))
  {
    ReachableInv(cap, repos, s);
    CountDrop(s.jobs, j => HoldsSlot(j), i);
  }

  lemma {:induction false} CountDrop(jobs: seq<Job>, p: Job -> bool, i: nat)
    requires i < |jobs| && !p(jobs[i])
    ensures Count(jobs[..i] + jobs[i + 1..], p) == Count(jobs, p)
  {
    var rest := jobs[..i] + jobs[i + 1..];
    if i == 0 {
      assert rest == jobs[1..];
    } else {
      CountDrop(jobs[1..], p, i - 1);
      assert rest[1..] == jobs[1..][..i - 1] + jobs[1..][i..];
    }
  }

  /** `pending[r]` is the number of admitted unfinished jobs of `r`, stays within the bound, and the
      map has an entry exactly for the repos that have such a job. */
  lemma PendingCounts(cap: nat, repos: seq<Repo>, s: State, r: Repo)
    requires Reachable(cap, repos, s)
    ensures (if r in s.pending then s.pending[r] else 0) == Count(s.jobs, j => HoldsPending(j) && j.repo == r) <= cap
    ensures r in s.pending <==> exists i :: 0 <= i < |s.jobs| && HoldsPending(s.jobs[i]) && s.jobs[i].repo == r
  {
    ReachableInv(cap, repos, s);
    var p := (j: Job) => HoldsPending(j) && j.repo == r;
    assert PendingOf(s.jobs, r) == Count(s.jobs, p);
    if r in s.pending {
      var i := CountWitness(s.jobs, p);
      assert HoldsPending(s.jobs[i]) && s.jobs[i].repo == r;
    }
    forall i | 0 <= i < |s.jobs| && HoldsPending(s.jobs[i]) && s.jobs[i].repo == r ensures r in s.pending {
      CountPositive(s.jobs, p, i);
    }
  }

  /** Per-repo mutual exclusion: two jobs of one repo are never both in their execution windows; a
      job in its window is the only one on whose behalf the mutex of its repo is locked; all jobs of a
      repo that got a mutex got the same one, and other repos have other ones; no free mutex is ever
      unlocked and the wait group never goes negative. */
  lemma MutualExclusion(cap: nat, repos: seq<Repo>, s: State, i: nat, k: nat)
    requires Reachable(cap, repos, s) && i < |s.jobs| && k < |s.jobs|
    ensures InWindow(s.jobs[i]) && InWindow(s.jobs[k]) && s.jobs[i].repo == s.jobs[k].repo ==> i == k
    ensures InWindow(s.jobs[i]) && Owns(s.jobs[k]) && s.jobs[i].repo == s.jobs[k].repo ==> i == k
    ensures KnowsLock(s.jobs[i]) && KnowsLock(s.jobs[k]) ==>
              (s.jobs[i].lock == s.jobs[k].lock <==> s.jobs[i].repo == s.jobs[k].repo)
    ensures !s.fault
  {
    ReachableInv(cap, repos, s);
    assert Shape(s.jobs[i]) && Shape(s.jobs[k]);
    assert InWindow(s.jobs[i]) && Owns(s.jobs[k]) && s.jobs[i].lock == s.jobs[k].lock ==> Contend(s.jobs[i], s.jobs[k]);
    assert Owns(s.jobs[i]) ==> KnowsLock(s.jobs[i]);
    assert Owns(s.jobs[k]) ==> KnowsLock(s.jobs[k]);
  }

  // ---- The in-place form of the two maps ----

  /** The maps of `Queue` that its methods update under `pendingMu` and `locksMu`. */
  class Admission {
    var pending: map<Repo, nat>
    var locks: map<Repo, nat>
    var nextLock: nat
    const maxPending: nat

    constructor (maxPending: nat)
      ensures this.maxPending == maxPending && pending == map[] && locks == map[] && nextLock == 0
    {
      this.maxPending := maxPending;
      pending, locks, nextLock := map[], map[], 0;
    }

    method ReservePending(repo: Repo) returns (won: bool)
      modifies this`pending
      ensures won == CanReserve(old(pending), maxPending, repo)
      ensures pending == if won then Reserve(old(pending), repo) else old(pending)
    {
      var n := if repo in pending then pending[repo] else 0;
      if n >= maxPending {
        return false;
      }
      pending := pending[repo := n + 1];
      return true;
    }

    method ReleasePending(repo: Repo)
      modifies this`pending
      ensures pending == Release(old(pending), repo)
    {
      var n := if repo in pending then pending[repo] else 0;
      if n <= 1 {
        pending := pending - {repo};
        return;
      }
      pending := pending[repo := n - 1];
    }

    method LockFor(repo: Repo) returns (lock: nat)
      modifies this`locks, this`nextLock
      ensures old(repo in locks) ==> locks == old(locks) && nextLock == old(nextLock)
      ensures old(repo !in locks) ==> locks == old(locks)[repo := old(nextLock)] && nextLock == old(nextLock) + 1
      ensures repo in locks && lock == locks[repo]
    {
      if repo in locks {
        return locks[repo];
      }
      lock := nextLock;
      locks := locks[repo := lock];
      nextLock := nextLock + 1;
    }
  }

  /** A reservation followed by its release restores the map, for every map without zero entries. */
  lemma ReserveRelease(pending: map<Repo, nat>, repo: Repo)
    requires forall r :: r in pending ==> pending[r] > 0
    ensures Release(Reserve(pending, repo), repo) == pending
  {
  }
}
