/** Concurrent updates and loads of one run's metadata (iac-runner/internal/runs/store.go): a lock file, a read and a
    write under the lock, a rename that replaces the file at once, and loads that take no lock. */
module MetaUpdate {
  import opened Wrappers

  type Meta = string

  /** What an update does to the metadata; None is an error of the mutator. */
  type Mutator = Meta -> Option<Meta>

  datatype Step = Fresh | Loaded(meta: Meta) | Mutated(meta: Meta) | Written(meta: Meta) | Refused

  datatype Phase = Ready | Waiting | Holding(step: Step) | Done(result: Option<Meta>) | Dead

  /** `present` is whether the run directory exists. History: the order of the locks taken and of the renames, and what
      every load has returned. */
  datatype State = State(
    present: bool, file: Meta, holder: Option<nat>, phases: seq<Phase>,
    locks: seq<nat>, log: seq<nat>, seen: seq<Meta>)

  datatype Event =
    | Open(i: nat)
    | Lock(i: nat, ok: bool)
    | Load(i: nat, ok: bool)
    | Mutate(i: nat)
    | Write(i: nat, ok: bool)
    | Unlock(i: nat)
    | Crash(i: nat)
    | Read
    | Remove

  function At(s: State, i: nat, p: Phase): State
    requires i < |s.phases|
  {
    s.(phases := s.phases[i := p])
  }

  ghost function Next(ms: seq<Mutator>, s: State, e: Event): Option<State>
    requires |ms| == |s.phases|
  {
    match e
    case Open(i) =>
      if i >= |s.phases| || s.phases[i] != Ready then None
      else Some(At(s, i, if s.present then Waiting else Done(None)))
    case Lock(i, ok) =>
      if i >= |s.phases| || s.phases[i] != Waiting then None
      else if !ok then Some(At(s, i, Done(None)))
      else if s.holder.Some? then None
      else Some(At(s, i, Holding(Fresh)).(holder := Some(i), locks := s.locks + [i]))
    case Load(i, ok) =>
      if i >= |s.phases| || s.phases[i] != Holding(Fresh) then None
      else Some(At(s, i, Holding(if ok && s.present then Loaded(s.file) else Refused)))
    case Mutate(i) =>
      if i >= |s.phases| || !s.phases[i].Holding? || !s.phases[i].step.Loaded? then None
      else
        var m := ms[i](s.phases[i].step.meta);
        Some(At(s, i, Holding(if m.Some? then Mutated(m.value) else Refused)))
    case Write(i, ok) =>
      if i >= |s.phases| || !s.phases[i].Holding? || !s.phases[i].step.Mutated? then None
      else if !ok || !s.present then Some(At(s, i, Holding(Refused)))
      else
        var m := s.phases[i].step.meta;
        Some(At(s, i, Holding(Written(m))).(file := m, log := s.log + [i]))
    case Unlock(i) =>
      if i >= |s.phases| || !s.phases[i].Holding? then None
      else
        var step := s.phases[i].step;
        if step.Written? then Some(At(s, i, Done(Some(step.meta))).(holder := None))
        else if step.Refused? then Some(At(s, i, Done(None)).(holder := None))
        else None
    case Crash(i) =>
      if i >= |s.phases| || s.phases[i].Done? then None
      else Some(At(s, i, Dead).(holder := if s.holder == Some(i) then None else s.holder))
    case Read => Some(if s.present then s.(seen := s.seen + [s.file]) else s)
    case Remove => Some(s.(present := false))
  }

  function Start(first: Meta, n: nat): State { State(true, first, None, seq(n, _ => Ready), [], [], []) }

  ghost function Run(ms: seq<Mutator>, s: State, events: seq<Event>): Option<State>
    requires |ms| == |s.phases|
    decreases |events|
  {
    if events == [] then Some(s)
    else match Next(ms, s, events[0])
      case None => None
      case Some(t) => if |t.phases| != |ms| then None else Run(ms, t, events[1..])
  }

  ghost predicate Reachable(ms: seq<Mutator>, first: Meta, s: State) {
    exists events :: Run(ms, Start(first, |ms|), events) == Some(s)
  }

  // ---- The serial execution ----

  /** The updates of the log, one after the other. */
  ghost function Serial(ms: seq<Mutator>, first: Meta, log: seq<nat>): Meta
    decreases |log|
  {
    if log == [] then first
    else
      var before := Serial(ms, first, log[..|log| - 1]);
      var i := log[|log| - 1];
      if i < |ms| && ms[i](before).Some? then ms[i](before).value else before
  }

  /** The metadata after some number of the updates of the log. */
  ghost predicate IsSerial(ms: seq<Mutator>, first: Meta, log: seq<nat>, m: Meta) {
    exists k :: 0 <= k <= |log| && m == Serial(ms, first, log[..k])
  }

  /** The place of an update in the log: it met the serial state before it and left the one after it. */
  ghost predicate Committed(ms: seq<Mutator>, first: Meta, s: State, i: nat, m: Meta) {
    exists k :: 0 <= k < |s.log| && s.log[k] == i && CommittedAt(ms, first, s.log, k, m)
  }

  ghost predicate CommittedAt(ms: seq<Mutator>, first: Meta, log: seq<nat>, k: nat, m: Meta)
    requires k < |log|
  {
    log[k] < |ms| && ms[log[k]](Serial(ms, first, log[..k])) == Some(m) && m == Serial(ms, first, log[..k + 1])
  }

  /** `a` is `b` with some elements left out. */
  ghost predicate Within(a: seq<nat>, b: seq<nat>)
    decreases |b|
  {
    a == [] || (b != [] &&
                (Within(a, b[..|b| - 1]) || (a[|a| - 1] == b[|b| - 1] && Within(a[..|a| - 1], b[..|b| - 1]))))
  }

  ghost predicate Inv(ms: seq<Mutator>, first: Meta, s: State) {
    && |s.phases| == |ms|
    && s.file == Serial(ms, first, s.log)
    && (forall i :: 0 <= i < |s.phases| ==> (s.phases[i].Holding? <==> s.holder == Some(i)))
    && (s.holder.Some? ==> s.holder.value < |s.phases| && s.locks != [] && s.locks[|s.locks| - 1] == s.holder.value)
    && (forall i :: 0 <= i < |s.phases| ==> PhaseInv(ms, first, s, i))
    && (forall v :: 0 <= v < |s.seen| ==> IsSerial(ms, first, s.log, s.seen[v]))
    && Within(s.log, s.locks)
    && (forall i, j :: 0 <= i < j < |s.log| ==> s.log[i] != s.log[j])
    && (s.holder.Some? && s.holder.value !in s.log ==> Within(s.log, s.locks[..|s.locks| - 1]))
  }

  ghost predicate PhaseInv(ms: seq<Mutator>, first: Meta, s: State, i: nat)
    requires i < |s.phases|
  {
    match s.phases[i]
    case Ready => i !in s.log
    case Waiting => i !in s.log
    case Dead => true
    case Done(r) => if r.Some? then Committed(ms, first, s, i, r.value) else i !in s.log
    case Holding(step) =>
      match step
      case Loaded(m) => i !in s.log && m == s.file
      case Mutated(m) => i !in s.log && i < |ms| && ms[i](s.file) == Some(m)
      case Written(m) => Committed(ms, first, s, i, m)
      case _ => i !in s.log
  }

  lemma OthersKept(ms: seq<Mutator>, first: Meta, s: State, t: State, i: nat)
    requires i < |s.phases| && i < |t.phases| && s.phases[i] == t.phases[i] && PhaseInv(ms, first, s, i)
    requires t.log == s.log && (t.file == s.file || !s.phases[i].Holding?)
    ensures PhaseInv(ms, first, t, i)
  {
  }

  /** A rename by the lock holder keeps what was committed before it. */
  lemma CommitKept(ms: seq<Mutator>, first: Meta, s: State, t: State, i: nat, m: Meta)
    requires Committed(ms, first, s, i, m) && |t.log| == |s.log| + 1 && t.log[..|s.log|] == s.log
    ensures Committed(ms, first, t, i, m)
  {
    var k :| 0 <= k < |s.log| && s.log[k] == i && CommittedAt(ms, first, s.log, k, m);
    assert t.log[k] == t.log[..|s.log|][k];
    assert t.log[..k] == s.log[..k] && t.log[..k + 1] == s.log[..k + 1];
    assert CommittedAt(ms, first, t.log, k, m);
  }

  lemma WriteKeeps(ms: seq<Mutator>, first: Meta, s: State, t: State, i: nat)
    requires Inv(ms, first, s) && Next(ms, s, Write(i, true)) == Some(t) && s.present
    ensures Inv(ms, first, t)
  {
    assert PhaseInv(ms, first, s, i);
    assert s.holder == Some(i);
    var m := s.phases[i].step.meta;
    assert t.log == s.log + [i] && t.log[..|s.log|] == s.log;
    assert CommittedAt(ms, first, t.log, |s.log|, m) by { assert t.log[..|s.log| + 1] == t.log; }
    forall j | 0 <= j < |t.phases| ensures PhaseInv(ms, first, t, j) {
      if j != i {
        assert PhaseInv(ms, first, s, j);
        assert !s.phases[j].Holding?;
        if s.phases[j].Done? && s.phases[j].result.Some? { CommitKept(ms, first, s, t, j, s.phases[j].result.value); }
      }
    }
    forall v | 0 <= v < |t.seen| ensures IsSerial(ms, first, t.log, t.seen[v]) {
      var k :| 0 <= k <= |s.log| && s.seen[v] == Serial(ms, first, s.log[..k]);
      assert t.log[..k] == s.log[..k];
    }
    assert t.locks[|t.locks| - 1] == i && Within(s.log, t.locks[..|t.locks| - 1]);
  }

  lemma LockKeeps(ms: seq<Mutator>, first: Meta, s: State, t: State, i: nat)
    requires Inv(ms, first, s) && Next(ms, s, Lock(i, true)) == Some(t)
    ensures Inv(ms, first, t)
  {
    assert t.locks[..|t.locks| - 1] == s.locks;
    forall j | 0 <= j < |t.phases| ensures PhaseInv(ms, first, t, j) {
      assert PhaseInv(ms, first, s, j);
      if j != i { OthersKept(ms, first, s, t, j); }
    }
  }

  lemma ReadKeeps(ms: seq<Mutator>, first: Meta, s: State, t: State)
    requires Inv(ms, first, s) && Next(ms, s, Read) == Some(t)
    ensures Inv(ms, first, t)
  {
    assert s.log[..|s.log|] == s.log;
    forall j | 0 <= j < |t.phases| ensures PhaseInv(ms, first, t, j) { OthersKept(ms, first, s, t, j); }
    assert IsSerial(ms, first, s.log, s.file);
    forall v | 0 <= v < |t.seen| ensures IsSerial(ms, first, t.log, t.seen[v]) {
      if v < |s.seen| { assert t.seen[v] == s.seen[v]; }
    }
  }

  /** A step that moves one update without a rename, and may let go of the lock. */
  lemma MoveKeeps(ms: seq<Mutator>, first: Meta, s: State, t: State, i: nat)
    requires Inv(ms, first, s) && i < |s.phases| == |t.phases| &&
             t == s.(phases := s.phases[i := t.phases[i]], holder := t.holder)
    requires t.holder == s.holder || (t.holder == None && s.holder == Some(i))
    requires (t.phases[i].Holding? <==> t.holder == Some(i)) && PhaseInv(ms, first, t, i)
    ensures Inv(ms, first, t)
  {
    forall j | 0 <= j < |t.phases| ensures PhaseInv(ms, first, t, j) {
      if j != i { assert PhaseInv(ms, first, s, j); OthersKept(ms, first, s, t, j); }
    }
  }

  lemma RemoveKeeps(ms: seq<Mutator>, first: Meta, s: State, t: State)
    requires Inv(ms, first, s) && t == s.(present := false)
    ensures Inv(ms, first, t)
  {
    forall j | 0 <= j < |t.phases| ensures PhaseInv(ms, first, t, j) { OthersKept(ms, first, s, t, j); }
  }

  lemma MoveFits(ms: seq<Mutator>, first: Meta, s: State, t: State, e: Event)
    requires Inv(ms, first, s) && Next(ms, s, e) == Some(t) && !e.Read? && !e.Remove?
    requires !(e.Write? && e.ok && s.present) && !(e.Lock? && e.ok)
    ensures e.i < |s.phases| && |t.phases| == |s.phases|
    ensures t == s.(phases := s.phases[e.i := t.phases[e.i]], holder := t.holder)
    ensures t.holder == s.holder || (t.holder == None && s.holder == Some(e.i))
    ensures (t.phases[e.i].Holding? <==> t.holder == Some(e.i)) && PhaseInv(ms, first, t, e.i)
  {
    assert PhaseInv(ms, first, s, e.i);
    assert s.phases[e.i].Holding? <==> s.holder == Some(e.i);
  }

  lemma NextKeeps(ms: seq<Mutator>, first: Meta, s: State, t: State, e: Event)
    requires Inv(ms, first, s) && Next(ms, s, e) == Some(t)
    ensures Inv(ms, first, t)
  {
    if e.Write? && e.ok && s.present {
      WriteKeeps(ms, first, s, t, e.i);
    } else if e.Lock? && e.ok {
      LockKeeps(ms, first, s, t, e.i);
    } else if e.Read? {
      ReadKeeps(ms, first, s, t);
    } else if e.Remove? {
      RemoveKeeps(ms, first, s, t);
    } else {
      MoveFits(ms, first, s, t, e);
      MoveKeeps(ms, first, s, t, e.i);
    }
  }

  lemma {:induction false} RunKeeps(ms: seq<Mutator>, first: Meta, s: State, events: seq<Event>)
    requires Inv(ms, first, s) && Run(ms, s, events).Some?
    ensures Inv(ms, first, Run(ms, s, events).value)
    decreases |events|
  {
    if events != [] {
      NextKeeps(ms, first, s, Next(ms, s, events[0]).value, events[0]);
      RunKeeps(ms, first, Next(ms, s, events[0]).value, events[1..]);
    }
  }

  lemma ReachableInv(ms: seq<Mutator>, first: Meta, s: State)
    requires Reachable(ms, first, s)
    ensures Inv(ms, first, s)
  {
    var events :| Run(ms, Start(first, |ms|), events) == Some(s);
    RunKeeps(ms, first, Start(first, |ms|), events);
  }

  // ---- The results ----

  /** In every interleaving, with failing loads, mutators and writes and with crashes, the file holds what the committed
      updates give one after the other; they commit in the order in which they took the lock, each at most once. */
  lemma UpdatesAreSerial(ms: seq<Mutator>, first: Meta, s: State)
    requires Reachable(ms, first, s)
    ensures s.file == Serial(ms, first, s.log) && Within(s.log, s.locks)
    ensures forall i, j :: 0 <= i < j < |s.log| ==> s.log[i] != s.log[j]
  {
    ReachableInv(ms, first, s);
  }

  /** An update that returns a value is in the log, met the serial state of the updates before it and returns the one
      after it; an update that returns an error is not. */
  lemma NoUpdateIsLost(ms: seq<Mutator>, first: Meta, s: State, i: nat)
    requires Reachable(ms, first, s) && i < |s.phases| && s.phases[i].Done?
    ensures match s.phases[i].result case Some(m) => Committed(ms, first, s, i, m) case None => i !in s.log
  {
    ReachableInv(ms, first, s);
    assert PhaseInv(ms, first, s, i);
  }

  /** Every load, which takes no lock, returns a serial state. */
  lemma LoadsSeeSerialStates(ms: seq<Mutator>, first: Meta, s: State, v: nat)
    requires Reachable(ms, first, s) && v < |s.seen|
    ensures IsSerial(ms, first, s.log, s.seen[v])
  {
    ReachableInv(ms, first, s);
  }

  ghost function Took(s: State, i: nat): State { s.(holder := Some(i), locks := s.locks + [i]) }

  ghost function Wrote(s: State, i: nat, m: Meta): State { s.(file := m, log := s.log + [i]) }

  lemma RunStep(ms: seq<Mutator>, s: State, e: Event, t: State, rest: seq<Event>)
    requires |ms| == |s.phases| == |t.phases| && Next(ms, s, e) == Some(t)
    ensures Run(ms, s, [e] + rest) == Run(ms, t, rest)
  {
    assert ([e] + rest)[1..] == rest;
  }

  lemma AtTwice(s: State, i: nat, p: Phase, q: Phase)
    requires i < |s.phases|
    ensures At(At(s, i, p), i, q) == At(s, i, q)
  {
    assert s.phases[i := p][i := q] == s.phases[i := q];
  }

  lemma LockStep(ms: seq<Mutator>, s: State, i: nat)
    requires |ms| == |s.phases| && i < |s.phases| && s.phases[i] == Waiting && s.holder.None?
    ensures Next(ms, s, Lock(i, true)) == Some(At(Took(s, i), i, Holding(Fresh)))
  {
  }

  /** Up to the read under the lock. */
  lemma ComesToRead(ms: seq<Mutator>, s: State, i: nat, rest: seq<Event>)
    requires |ms| == |s.phases| && i < |s.phases| && s.phases[i] == Ready && s.present && s.holder.None?
    ensures Run(ms, s, [Open(i)] + ([Lock(i, true)] + ([Load(i, true)] + rest)))
         == Run(ms, At(Took(s, i), i, Holding(Loaded(s.file))), rest)
  {
    var a, b, c := At(s, i, Waiting), At(Took(s, i), i, Holding(Fresh)), At(Took(s, i), i, Holding(Loaded(s.file)));
    RunStep(ms, s, Open(i), a, [Lock(i, true)] + ([Load(i, true)] + rest));
    LockStep(ms, a, i);
    AtTwice(Took(s, i), i, Waiting, Holding(Fresh));
    assert Took(a, i) == At(Took(s, i), i, Waiting);
    RunStep(ms, a, Lock(i, true), b, [Load(i, true)] + rest);
    AtTwice(Took(s, i), i, Holding(Fresh), Holding(Loaded(s.file)));
    RunStep(ms, b, Load(i, true), c, rest);
  }

  lemma MutateStep(ms: seq<Mutator>, s: State, i: nat, rest: seq<Event>)
    requires |ms| == |s.phases| && i < |s.phases| && s.phases[i] == Holding(Loaded(s.file))
    ensures var m := ms[i](s.file);
            Run(ms, s, [Mutate(i)] + rest) ==
              Run(ms, At(s, i, Holding(if m.Some? then Mutated(m.value) else Refused)), rest)
  {
    var m := ms[i](s.file);
    RunStep(ms, s, Mutate(i), At(s, i, Holding(if m.Some? then Mutated(m.value) else Refused)), rest);
  }

  lemma WriteStep(ms: seq<Mutator>, s: State, i: nat, m: Meta, rest: seq<Event>)
    requires |ms| == |s.phases| && i < |s.phases| && s.phases[i] == Holding(Mutated(m)) && s.present
    ensures Run(ms, s, [Write(i, true)] + rest) == Run(ms, Wrote(At(s, i, Holding(Written(m))), i, m), rest)
  {
    RunStep(ms, s, Write(i, true), Wrote(At(s, i, Holding(Written(m))), i, m), rest);
  }

  lemma UnlockStep(ms: seq<Mutator>, s: State, i: nat, r: Option<Meta>)
    requires |ms| == |s.phases| && i < |s.phases|
    requires s.phases[i] == Holding(if r.Some? then Written(r.value) else Refused)
    ensures Run(ms, s, [Unlock(i)] + []) == Some(At(s, i, Done(r)).(holder := None))
  {
    RunStep(ms, s, Unlock(i), At(s, i, Done(r)).(holder := None), []);
  }

  /** With nobody else at the lock an update goes through: it reads the file, and leaves and returns what it makes of
      it. */
  lemma LoneUpdateGoesThrough(ms: seq<Mutator>, s: State, i: nat, m: Meta)
    requires |ms| == |s.phases| && i < |s.phases| && s.phases[i] == Ready && s.present && s.holder.None?
    requires ms[i](s.file) == Some(m)
    ensures var t := Run(ms, s, [Open(i), Lock(i, true), Load(i, true), Mutate(i), Write(i, true), Unlock(i)]);
            t == Some(At(s, i, Done(Some(m))).(file := m, locks := s.locks + [i], log := s.log + [i]))
  {
    var rest := [Mutate(i)] + ([Write(i, true)] + ([Unlock(i)] + []));
    ComesToRead(ms, s, i, rest);
    var a, b := At(Took(s, i), i, Holding(Loaded(s.file))), At(Took(s, i), i, Holding(Mutated(m)));
    MutateStep(ms, a, i, [Write(i, true)] + ([Unlock(i)] + []));
    AtTwice(Took(s, i), i, Holding(Loaded(s.file)), Holding(Mutated(m)));
    WriteStep(ms, b, i, m, [Unlock(i)] + []);
    AtTwice(Took(s, i), i, Holding(Mutated(m)), Holding(Written(m)));
    var c := Wrote(At(Took(s, i), i, Holding(Written(m))), i, m);
    UnlockStep(ms, c, i, Some(m));
    AtTwice(Wrote(Took(s, i), i, m), i, Holding(Written(m)), Done(Some(m)));
    assert [Open(i), Lock(i, true), Load(i, true), Mutate(i), Write(i, true), Unlock(i)]
        == [Open(i)] + ([Lock(i, true)] + ([Load(i, true)] + rest));
  }

  /** An error of its mutator leaves the file alone and gives the lock back. */
  lemma LoneErrorChangesNothing(ms: seq<Mutator>, s: State, i: nat)
    requires |ms| == |s.phases| && i < |s.phases| && s.phases[i] == Ready && s.present && s.holder.None?
    requires ms[i](s.file) == None
    ensures Run(ms, s, [Open(i), Lock(i, true), Load(i, true), Mutate(i), Unlock(i)])
         == Some(At(s, i, Done(None)).(locks := s.locks + [i]))
  {
    var rest := [Mutate(i)] + ([Unlock(i)] + []);
    ComesToRead(ms, s, i, rest);
    MutateStep(ms, At(Took(s, i), i, Holding(Loaded(s.file))), i, [Unlock(i)] + []);
    AtTwice(Took(s, i), i, Holding(Loaded(s.file)), Holding(Refused));
    UnlockStep(ms, At(Took(s, i), i, Holding(Refused)), i, None);
    AtTwice(Took(s, i), i, Holding(Refused), Done(None));
    assert [Open(i), Lock(i, true), Load(i, true), Mutate(i), Unlock(i)]
        == [Open(i)] + ([Lock(i, true)] + ([Load(i, true)] + rest));
  }
}
