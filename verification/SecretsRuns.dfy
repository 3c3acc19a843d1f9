/** Whole runs of the sync cycle: what every write to secrets.yaml contains, and when one happens. */
module SecretsRuns {
  import opened Wrappers
  import opened SecretsMerge
  import opened SecretsCycle

  ghost predicate AllFit(cfg: Config, ins: seq<Input>) { forall i :: 0 <= i < |ins| ==> Fits(cfg, ins[i]) }

  ghost function Last<T>(s: seq<T>): T
    requires s != []
  {
    s[|s| - 1]
  }

  ghost function Front<T>(s: seq<T>): seq<T>
    requires s != []
  {
    s[..|s| - 1]
  }

  ghost function Run(cfg: Config, s0: State, ins: seq<Input>): State
    requires AllFit(cfg, ins)
    decreases |ins|
  {
    if ins == [] then s0 else Cycle(cfg, Run(cfg, s0, Front(ins)), Last(ins))
  }

  /** The latest snapshot that a provider delivered, whatever the cycles made of it. */
  ghost function LatestGood(cfg: Config, ins: seq<Input>, i: nat): Option<Snapshot>
    requires AllFit(cfg, ins) && i < |cfg.providers|
    decreases |ins|
  {
    if ins == [] then None
    else if Last(ins).fetches[i].Got? then Some(Last(ins).fetches[i].snap) else LatestGood(cfg, Front(ins), i)
  }

  ghost predicate AllGood(cfg: Config, ins: seq<Input>)
    requires AllFit(cfg, ins)
  {
    forall i :: 0 <= i < |cfg.providers| ==> LatestGood(cfg, ins, i).Some?
  }

  /** The latest snapshots of all providers, in priority order. */
  ghost function Latest(cfg: Config, ins: seq<Input>): (cs: seq<Contribution>)
    requires AllFit(cfg, ins) && AllGood(cfg, ins)
  {
    seq(|cfg.providers|,
        i requires 0 <= i < |cfg.providers| => Contribution(cfg.providers[i], LatestGood(cfg, ins, i).value))
  }

  // ---- The loop over the providers ----

  lemma {:induction false} TakeOthers(cfg: Config, w: Work, fetches: seq<Fetch>, i: nat, name: string)
    requires |fetches| == |cfg.providers| && i <= |fetches|
    requires forall j :: i <= j < |cfg.providers| ==> cfg.providers[j] != name
    ensures var v := TakeFrom(cfg, w, fetches, i);
            (name in v.lastGood <==> name in w.lastGood) &&
            (name in w.lastGood ==> v.lastGood[name] == w.lastGood[name])
    decreases |fetches| - i
  {
    if i < |fetches| { TakeOthers(cfg, Take(w, cfg.providers[i], fetches[i]), fetches, i + 1, name); }
  }

  /** What is held of provider `j` after the loop. */
  lemma {:induction false} TakeGood(cfg: Config, w: Work, fetches: seq<Fetch>, i: nat, j: nat)
    requires |fetches| == |cfg.providers| && i <= j < |fetches| && Distinct(cfg.providers)
    ensures var v, name := TakeFrom(cfg, w, fetches, i), cfg.providers[j];
            && (name in v.lastGood <==> fetches[j].Got? || name in w.lastGood)
            && (name in v.lastGood ==>
                  v.lastGood[name] == if fetches[j].Got? then fetches[j].snap else w.lastGood[name])
    decreases |fetches| - i
  {
    if i == j {
      TakeOthers(cfg, Take(w, cfg.providers[i], fetches[i]), fetches, i + 1, cfg.providers[i]);
    } else {
      TakeGood(cfg, Take(w, cfg.providers[i], fetches[i]), fetches, i + 1, j);
    }
  }

  /** The failures after the loop: those before it, then the failed fetches. */
  lemma {:induction false} TakeFailed(cfg: Config, w: Work, fetches: seq<Fetch>, i: nat, f: (string, Fetch))
    requires |fetches| == |cfg.providers| && i <= |fetches|
    ensures f in TakeFrom(cfg, w, fetches, i).failed <==>
              f in w.failed || exists j :: i <= j < |fetches| && Fails(cfg, fetches, j, f)
    decreases |fetches| - i
  {
    if i < |fetches| {
      var next := Take(w, cfg.providers[i], fetches[i]);
      TakeFailed(cfg, next, fetches, i + 1, f);
      assert f in next.failed <==> f in w.failed || Fails(cfg, fetches, i, f);
    }
  }

  ghost predicate Fails(cfg: Config, fetches: seq<Fetch>, j: int, f: (string, Fetch))
    requires |fetches| == |cfg.providers|
  {
    0 <= j < |fetches| && fetches[j].Failed? && f == (cfg.providers[j], fetches[j])
  }

  ghost predicate Healthy(cfg: Config, v: Work, fetches: seq<Fetch>, i: nat)
    requires |fetches| == |cfg.providers|
  {
    forall j :: i <= j < |fetches| ==> cfg.providers[j] in v.lastGood && (fetches[j].Failed? ==> !fetches[j].collision)
  }

  /** When nothing collides and everything is held, every provider is used, in order, with what is held of it. */
  lemma {:induction false} TakeUses(cfg: Config, w: Work, fetches: seq<Fetch>, i: nat)
    requires |fetches| == |cfg.providers| && i <= |fetches| && Distinct(cfg.providers)
    requires Healthy(cfg, TakeFrom(cfg, w, fetches, i), fetches, i)
    ensures var v := TakeFrom(cfg, w, fetches, i);
            && |v.used| == |w.used| + (|fetches| - i) && v.used[..|w.used|] == w.used
            && forall j :: i <= j < |fetches| ==>
                 v.used[|w.used| + j - i] == Contribution(cfg.providers[j], v.lastGood[cfg.providers[j]])
    decreases |fetches| - i
  {
    if i < |fetches| {
      var name, next := cfg.providers[i], Take(w, cfg.providers[i], fetches[i]);
      var v := TakeFrom(cfg, w, fetches, i);
      TakeGood(cfg, w, fetches, i, i);
      assert next.used == w.used + [Contribution(name, v.lastGood[name])];
      TakeUses(cfg, next, fetches, i + 1);
      assert v.used[|w.used|] == v.used[..|next.used|][|w.used|];
      assert v.used[..|w.used|] == v.used[..|next.used|][..|w.used|];
    }
  }

  // ---- Held snapshots over runs ----

  lemma CycleHolds(cfg: Config, s: State, input: Input)
    requires Fits(cfg, input) && cfg.problem.None?
    ensures Cycle(cfg, s, input).lastGood == TakeFrom(cfg, Start(s), input.fetches, 0).lastGood
  {
    var w := TakeFrom(cfg, Start(s), input.fetches, 0);
    ConcludeHolds(cfg, s.(lastGood := w.lastGood), w, Decide(cfg, w, s.lastItems, input), input);
  }

  lemma ConcludeHolds(cfg: Config, s: State, w: Work, decision: Result<map<string, string>>, input: Input)
    ensures Conclude(cfg, s, w, decision, input).lastGood == s.lastGood
  {
  }

  /** In every run what the engine holds of a provider is its latest good snapshot. */
  lemma {:induction false} HeldIsLatest(cfg: Config, s0: State, ins: seq<Input>, i: nat)
    requires AllFit(cfg, ins) && i < |cfg.providers| && Distinct(cfg.providers) && cfg.problem.None? &&
             s0.lastGood == map[]
    ensures var s, name := Run(cfg, s0, ins), cfg.providers[i];
            && (name in s.lastGood <==> LatestGood(cfg, ins, i).Some?)
            && (name in s.lastGood ==> s.lastGood[name] == LatestGood(cfg, ins, i).value)
    decreases |ins|
  {
    if ins != [] {
      var s := Run(cfg, s0, Front(ins));
      HeldIsLatest(cfg, s0, Front(ins), i);
      CycleHolds(cfg, s, Last(ins));
      TakeGood(cfg, Start(s), Last(ins).fetches, 0, i);
    }
  }

  // ---- Writes ----

  /** What a cycle puts into secrets.yaml, if it gets that far. */
  ghost function Attempt(cfg: Config, s: State, input: Input): Option<map<string, string>>
    requires Fits(cfg, input)
  {
    var d := Decide(cfg, TakeFrom(cfg, Start(s), input.fetches, 0), s.lastItems, input);
    if cfg.problem.Some? || d.Err? || (input.write.Fails? && !input.write.replaced) then None else Some(d.value)
  }

  /** The file changes in no other way. */
  lemma DiskOnlyByAttempt(cfg: Config, s: State, input: Input)
    requires Fits(cfg, input)
    ensures Cycle(cfg, s, input).disk == match Attempt(cfg, s, input) case None => s.disk case Some(m) => Holds(m)
  {
  }

  /** The size of the last write that succeeded. */
  ghost function LastCount(cfg: Config, s0: State, ins: seq<Input>): Option<int>
    requires AllFit(cfg, ins)
    decreases |ins|
  {
    if ins == [] then s0.lastItems
    else
      var a := Attempt(cfg, Run(cfg, s0, Front(ins)), Last(ins));
      if a.Some? && Last(ins).write.Works? then Some(|a.value|) else LastCount(cfg, s0, Front(ins))
  }

  lemma CycleCounts(cfg: Config, s: State, input: Input)
    requires Fits(cfg, input)
    ensures var a := Attempt(cfg, s, input);
            Cycle(cfg, s, input).lastItems == if a.Some? && input.write.Works? then Some(|a.value|) else s.lastItems
  {
  }

  lemma {:induction false} CountIsLast(cfg: Config, s0: State, ins: seq<Input>)
    requires AllFit(cfg, ins)
    ensures Run(cfg, s0, ins).lastItems == LastCount(cfg, s0, ins)
    decreases |ins|
  {
    if ins != [] {
      CountIsLast(cfg, s0, Front(ins));
      CycleCounts(cfg, Run(cfg, s0, Front(ins)), Last(ins));
    }
  }

  /** No provider reports a collision, and each one has delivered at some time. */
  ghost predicate Ready(cfg: Config, ins: seq<Input>)
    requires AllFit(cfg, ins) && ins != []
  {
    && AllGood(cfg, ins)
    && forall i :: 0 <= i < |cfg.providers| ==> Last(ins).fetches[i].Failed? ==> !Last(ins).fetches[i].collision
  }

  /** The work of the last cycle of a run, in terms of what the providers delivered. */
  lemma WorkIsLatest(cfg: Config, s0: State, ins: seq<Input>)
    requires AllFit(cfg, ins) && ins != [] && Distinct(cfg.providers) && cfg.problem.None? && s0.lastGood == map[]
    ensures var w := TakeFrom(cfg, Start(Run(cfg, s0, Front(ins))), Last(ins).fetches, 0);
            && (!Collided(w) && !Empty(w) <==> Ready(cfg, ins))
            && (Ready(cfg, ins) ==> w.used == Latest(cfg, ins))
  {
    var s, fetches := Run(cfg, s0, Front(ins)), Last(ins).fetches;
    var w := TakeFrom(cfg, Start(s), fetches, 0);
    forall f ensures f in w.failed <==> exists j :: 0 <= j < |fetches| && Fails(cfg, fetches, j, f) {
      TakeFailed(cfg, Start(s), fetches, 0, f);
    }
    forall i | 0 <= i < |cfg.providers|
      ensures HeldAt(cfg, ins, w, i) && (fetches[i].Got? ==> cfg.providers[i] in w.lastGood)
    {
      HeldIsLatest(cfg, s0, Front(ins), i);
      TakeGood(cfg, Start(s), fetches, 0, i);
    }
    FailuresShow(cfg, w, fetches);
    assert Healthy(cfg, w, fetches, 0) <==> Ready(cfg, ins) by { HealthyIsReady(cfg, ins, w); }
    if Ready(cfg, ins) {
      TakeUses(cfg, Start(s), fetches, 0);
      UsedIsLatest(cfg, ins, w);
    }
  }

  ghost predicate HeldAt(cfg: Config, ins: seq<Input>, w: Work, i: nat)
    requires AllFit(cfg, ins) && i < |cfg.providers|
  {
    var name := cfg.providers[i];
    && (name in w.lastGood <==> LatestGood(cfg, ins, i).Some?)
    && (name in w.lastGood ==> w.lastGood[name] == LatestGood(cfg, ins, i).value)
  }

  lemma HealthyIsReady(cfg: Config, ins: seq<Input>, w: Work)
    requires AllFit(cfg, ins) && ins != [] && forall i :: 0 <= i < |cfg.providers| ==> HeldAt(cfg, ins, w, i)
    ensures Fits(cfg, Last(ins)) && (Healthy(cfg, w, Last(ins).fetches, 0) <==> Ready(cfg, ins))
  {
    assert forall i :: 0 <= i < |cfg.providers| ==>
             (cfg.providers[i] in w.lastGood <==> LatestGood(cfg, ins, i).Some?) by {
      forall i | 0 <= i < |cfg.providers| ensures cfg.providers[i] in w.lastGood <==> LatestGood(cfg, ins, i).Some? {
        assert HeldAt(cfg, ins, w, i);
      }
    }
  }

  lemma UsedIsLatest(cfg: Config, ins: seq<Input>, w: Work)
    requires AllFit(cfg, ins) && AllGood(cfg, ins) && |w.used| == |cfg.providers|
    requires forall i :: 0 <= i < |cfg.providers| ==> HeldAt(cfg, ins, w, i) && cfg.providers[i] in w.lastGood
    requires forall i :: 0 <= i < |cfg.providers| ==>
               w.used[i] == Contribution(cfg.providers[i], w.lastGood[cfg.providers[i]])
    ensures w.used == Latest(cfg, ins)
  {
    forall i | 0 <= i < |cfg.providers| ensures w.used[i] == Latest(cfg, ins)[i] { assert HeldAt(cfg, ins, w, i); }
  }

  lemma FailuresShow(cfg: Config, w: Work, fetches: seq<Fetch>)
    requires |fetches| == |cfg.providers|
    requires forall f :: f in w.failed <==> exists j :: 0 <= j < |fetches| && Fails(cfg, fetches, j, f)
    requires forall j :: 0 <= j < |fetches| && fetches[j].Got? ==> cfg.providers[j] in w.lastGood
    ensures !Collided(w) && !Empty(w) <==> Healthy(cfg, w, fetches, 0)
  {
    forall j | 0 <= j < |fetches| && fetches[j].Failed? ensures (cfg.providers[j], fetches[j]) in w.failed {
      assert Fails(cfg, fetches, j, (cfg.providers[j], fetches[j]));
    }
    if Collided(w) || Empty(w) {
      var i :| 0 <= i < |w.failed| &&
        ((w.failed[i].1.Failed? && w.failed[i].1.collision) || w.failed[i].0 !in w.lastGood);
      assert w.failed[i] in w.failed;
      var j :| 0 <= j < |fetches| && Fails(cfg, fetches, j, w.failed[i]);
    } else {
      forall j | 0 <= j < |fetches| && fetches[j].Failed?
        ensures cfg.providers[j] in w.lastGood && !fetches[j].collision
      {
        var i :| 0 <= i < |w.failed| && w.failed[i] == (cfg.providers[j], fetches[j]);
      }
    }
  }

  /** The keys and values that the providers' latest snapshots give. */
  ghost function Real(cfg: Config, ins: seq<Input>): Result<Merged>
    requires AllFit(cfg, ins) && AllGood(cfg, ins)
  {
    Merge(EMPTY, Latest(cfg, ins), cfg.priority)
  }

  /** The conditions for a write, in terms of what the providers delivered and what was written before. */
  ghost predicate MayWrite(cfg: Config, s0: State, ins: seq<Input>)
    requires AllFit(cfg, ins) && ins != []
  {
    var input, last := Last(ins), LastCount(cfg, s0, Front(ins));
    cfg.problem.None? && Ready(cfg, ins) && Real(cfg, ins).Ok? && Composed(cfg, ins).Ok?
    && CheckShrink(|Real(cfg, ins).value.secrets + Composed(cfg, ins).value|, last, cfg.percent, input.force).None?
    && input.files.Ok? && (input.write.Works? || input.write.replaced)
  }

  ghost function Composed(cfg: Config, ins: seq<Input>): Result<map<string, string>>
    requires AllFit(cfg, ins) && ins != [] && AllGood(cfg, ins) && Real(cfg, ins).Ok?
  {
    Synthetic(cfg, Real(cfg, ins).value.secrets, Last(ins).rendered)
  }

  /** In every run a cycle writes exactly when the configuration is sound, every provider has delivered once and none
      reports a collision, the latest snapshots merge, the composed keys render and are new, the guard lets the number
      of keys pass and the file step works; and what it writes is the merge of the latest snapshots and those keys. */
  lemma WritesExactlyWhen(cfg: Config, s0: State, ins: seq<Input>)
    requires AllFit(cfg, ins) && ins != [] && Distinct(cfg.providers) && s0.lastGood == map[]
    ensures var a := Attempt(cfg, Run(cfg, s0, Front(ins)), Last(ins));
            && (a.Some? <==> MayWrite(cfg, s0, ins))
            && (a.Some? ==> a == Some(Real(cfg, ins).value.secrets + Composed(cfg, ins).value))
  {
    if cfg.problem.None? {
      WorkIsLatest(cfg, s0, ins);
      CountIsLast(cfg, s0, Front(ins));
    }
  }

  /** Every key of every provider's latest good snapshot, with the value of the earliest provider that has it, and
      nothing else but composed keys. */
  ghost predicate FromLatest(cfg: Config, ins: seq<Input>, secrets: map<string, string>)
    requires AllFit(cfg, ins) && AllGood(cfg, ins)
  {
    && (forall i, k :: 0 <= i < |cfg.providers| && k in LatestGood(cfg, ins, i).value.secrets ==>
          k in secrets && k !in cfg.synthetic)
    && forall k :: k in secrets && k !in cfg.synthetic ==>
         var f := First(Latest(cfg, ins), 0, k); f.Some? && secrets[k] == LatestGood(cfg, ins, f.value).value.secrets[k]
  }

  /** The size bound of an unforced write. */
  ghost predicate Guarded(cfg: Config, items: int, last: Option<int>, force: bool) {
    items > 0 && (!force && last.Some? && last.value > 0 ==> 100 * items >= last.value * (100 - cfg.percent))
  }

  lemma GuardMeans(cfg: Config, items: int, last: Option<int>, force: bool)
    ensures CheckShrink(items, last, cfg.percent, force).None? <==> Guarded(cfg, items, last, force)
  {
  }

  lemma SafeIfMay(cfg: Config, s0: State, ins: seq<Input>, secrets: map<string, string>)
    requires AllFit(cfg, ins) && ins != [] && MayWrite(cfg, s0, ins)
    requires secrets == Real(cfg, ins).value.secrets + Composed(cfg, ins).value
    ensures FromLatest(cfg, ins, secrets)
    ensures !cfg.priority ==> forall i, j :: !Clash(Latest(cfg, ins), i, j)
    ensures Guarded(cfg, |secrets|, LastCount(cfg, s0, Front(ins)), Last(ins).force)
  {
    GuardMeans(cfg, |secrets|, LastCount(cfg, s0, Front(ins)), Last(ins).force);
    NoClash(Latest(cfg, ins), cfg.priority);
    SyntheticIsNew(cfg, Real(cfg, ins).value.secrets, Last(ins).rendered);
    KeysFromLatest(cfg, ins, secrets);
  }

  /** Every write of every run comes from the latest good snapshots of all providers, without common names unless
      earlier providers win, passes the size bound, and happens with no collision reported. */
  lemma EveryWriteIsSafe(cfg: Config, s0: State, ins: seq<Input>, secrets: map<string, string>)
    requires AllFit(cfg, ins) && ins != [] && Distinct(cfg.providers) && s0.lastGood == map[]
    requires Attempt(cfg, Run(cfg, s0, Front(ins)), Last(ins)) == Some(secrets)
    ensures Ready(cfg, ins) && FromLatest(cfg, ins, secrets)
    ensures !cfg.priority ==> forall i, j :: !Clash(Latest(cfg, ins), i, j)
    ensures Guarded(cfg, |secrets|, LastCount(cfg, s0, Front(ins)), Last(ins).force)
  {
    WritesExactlyWhen(cfg, s0, ins);
    SafeIfMay(cfg, s0, ins, secrets);
  }

  lemma NoClash(cs: seq<Contribution>, priority: bool)
    requires Merge(EMPTY, cs, priority).Ok?
    ensures !priority ==> forall i, j :: !Clash(cs, i, j)
  {
    MergeFails(cs, priority);
    forall i, j ensures !priority ==> !Clash(cs, i, j) {
      if !priority && Clash(cs, i, j) { assert Stuck(cs, priority, j); }
    }
  }

  lemma KeysFromLatest(cfg: Config, ins: seq<Input>, secrets: map<string, string>)
    requires AllFit(cfg, ins) && ins != [] && AllGood(cfg, ins) && Real(cfg, ins).Ok?
    requires Composed(cfg, ins).Ok? && secrets == Real(cfg, ins).value.secrets + Composed(cfg, ins).value
    requires forall k :: k in Composed(cfg, ins).value <==> k in cfg.synthetic
    requires forall k :: k in cfg.synthetic ==> k !in Real(cfg, ins).value.secrets
    ensures FromLatest(cfg, ins, secrets)
  {
    var cs := Latest(cfg, ins);
    forall i, k | 0 <= i < |cfg.providers| && k in LatestGood(cfg, ins, i).value.secrets
      ensures k in secrets && k !in cfg.synthetic
    {
      EarliestWins(cs, cfg.priority, k);
      assert cs[i].snap == LatestGood(cfg, ins, i).value;
    }
    forall k | k in secrets && k !in cfg.synthetic
      ensures var f := First(cs, 0, k); f.Some? && secrets[k] == LatestGood(cfg, ins, f.value).value.secrets[k]
    {
      EarliestWins(cs, cfg.priority, k);
      assert cs[First(cs, 0, k).value].snap == LatestGood(cfg, ins, First(cs, 0, k).value).value;
    }
  }

  lemma SyntheticIsNew(cfg: Config, merged: map<string, string>, rendered: Result<map<string, string>>)
    ensures var r := Synthetic(cfg, merged, rendered);
            r.Ok? ==> (forall k :: (k in r.value <==> k in cfg.synthetic) && (k in cfg.synthetic ==> k !in merged))
  {
  }

  /** A wait never exceeds the interval; it starts at 30 seconds and does not shrink while failures go on. */
  lemma BackoffGrows(cfg: Config, fails: nat)
    ensures Delay(cfg, fails) <= cfg.interval
    ensures fails > 0 ==> Delay(cfg, fails) <= Delay(cfg, fails + 1)
    ensures Delay(cfg, 1) == if cfg.interval < 30 then cfg.interval else 30
  {
  }

  // ---- What a cycle reports ----

  /** The names of the composed keys are new and different. */
  ghost predicate NewNames(cfg: Config, secrets: map<string, string>) {
    && (forall i :: 0 <= i < |cfg.synthetic| ==> cfg.synthetic[i] !in secrets)
    && forall i, j :: 0 <= i < j < |cfg.synthetic| ==> cfg.synthetic[i] != cfg.synthetic[j]
  }

  /** Keys are composed exactly when there are none to compose, or their names are new and rendering works; each has its
      rendered value. */
  lemma ComposedExactly(cfg: Config, secrets: map<string, string>, rendered: Result<map<string, string>>)
    ensures var r := Synthetic(cfg, secrets, rendered);
            && (r.Ok? <==> cfg.synthetic == [] || (NewNames(cfg, secrets) && rendered.Ok?))
            && (r.Ok? ==> forall n :: n in r.value <==> n in cfg.synthetic)
            && (r.Ok? ==> forall n :: n in r.value ==>
                  rendered.Ok? && r.value[n] == if n in rendered.value then rendered.value[n] else "")
            && (r.Err? ==> r.code == if NewNames(cfg, secrets) then rendered.code else "synthetic_collision")
  {
  }

  /** No provider fails in the last cycle. */
  ghost predicate AllGot(cfg: Config, ins: seq<Input>)
    requires AllFit(cfg, ins) && ins != []
  {
    assert Fits(cfg, Last(ins));
    forall i :: 0 <= i < |cfg.providers| ==> Last(ins).fetches[i].Got?
  }

  /** The cycle wrote, and the write came back without an error. */
  ghost predicate Wrote(cfg: Config, s0: State, ins: seq<Input>)
    requires AllFit(cfg, ins) && ins != []
  {
    Last(ins).write.Works? && Attempt(cfg, Run(cfg, s0, Front(ins)), Last(ins)).Some?
  }

  ghost function Wait(interval: nat, fails: nat): nat {
    if fails == 0 || 30 * Pow2(fails - 1) > interval then interval else 30 * Pow2(fails - 1)
  }

  /** What every cycle reports: fine exactly when it wrote, every provider delivered and no file was skipped; an error
      exactly when the configuration is unsound or nothing was ever written; the failures in a row, and the time of the
      next cycle, which waits 30 seconds after one failure and twice as long after each further one, up to the
      interval. */
  lemma CycleReports(cfg: Config, s0: State, ins: seq<Input>)
    requires AllFit(cfg, ins) && ins != []
    ensures var s, t, input := Run(cfg, s0, Front(ins)), Run(cfg, s0, ins), Last(ins);
            && Reports(cfg, s, t, input.now, Wrote(cfg, s0, ins), AllGot(cfg, ins) && input.files == Ok(false))
            && (Wrote(cfg, s0, ins) ==>
                  t.disk == Holds(Attempt(cfg, s, input).value) && t.items == |Attempt(cfg, s, input).value|)
  {
    var s, input := Run(cfg, s0, Front(ins)), Last(ins);
    var w := TakeFrom(cfg, Start(s), input.fetches, 0);
    var u, decision := s.(lastGood := w.lastGood), Decide(cfg, w, s.lastItems, input);
    var t, smooth := Run(cfg, s0, ins), AllGot(cfg, ins) && input.files == Ok(false);
    assert t == Cycle(cfg, s, input);
    if cfg.problem.Some? {
      StopReports(cfg, s, input.now, Error, cfg.problem);
      SameReports(cfg, s, s, t, input.now, false, false, smooth);
    } else if decision.Err? {
      StopReports(cfg, u, input.now, Unwell(u), Some(decision.code));
      SameReports(cfg, s, u, t, input.now, false, false, smooth);
    } else {
      NoneFailed(cfg, s, ins, w);
      FilesDecided(cfg, w, s.lastItems, input);
      DoneReports(cfg, u, w, decision.value, input);
      SameReports(cfg, s, u, t, input.now, input.write.Works?, smooth, smooth);
    }
  }

  /** The status, whether a write ever worked, the failures in a row, the next cycle and the error code. */
  ghost predicate Reports(cfg: Config, s: State, t: State, now: int, wrote: bool, smooth: bool) {
    && (t.status == Fine <==> wrote && smooth)
    && (t.status == Error <==> cfg.problem.Some? || (!wrote && !s.succeeded))
    && (t.status == Fine || t.status == Degraded || t.status == Error)
    && (t.succeeded <==> s.succeeded || wrote)
    && t.fails == (if t.status == Fine then 0 else s.fails + 1)
    && t.nextAt == now + Wait(cfg.interval, t.fails)
    && (t.code.None? <==> t.status == Fine)
  }

  lemma DoneReports(cfg: Config, s: State, w: Work, secrets: map<string, string>, input: Input)
    requires cfg.problem.None? && input.files.Ok?
    ensures var t, wrote := Done(cfg, s, w, secrets, input), input.write.Works?;
            && Reports(cfg, s, t, input.now, wrote, w.failed == [] && input.files == Ok(false))
            && (wrote ==> t.disk == Holds(secrets) && t.items == |secrets|)
  {
    assert input.files.value || !input.files.value;
  }

  lemma StopReports(cfg: Config, s: State, now: int, status: Status, code: Option<string>)
    requires code.Some? && status == if cfg.problem.Some? then Error else Unwell(s)
    ensures Reports(cfg, s, Finish(cfg, s, now, status, code), now, false, false)
  {
  }

  lemma SameReports(cfg: Config, s: State, u: State, t: State, now: int, wrote: bool, smooth: bool, x: bool)
    requires Reports(cfg, u, t, now, wrote, smooth) && u == s.(lastGood := u.lastGood) && (wrote ==> x == smooth)
    ensures Reports(cfg, s, t, now, wrote, x)
  {
  }

  lemma FilesDecided(cfg: Config, w: Work, last: Option<int>, input: Input)
    ensures Decide(cfg, w, last, input).Ok? ==> input.files.Ok?
  {
  }

  lemma NoneFailed(cfg: Config, s: State, ins: seq<Input>, w: Work)
    requires AllFit(cfg, ins) && ins != [] && w == TakeFrom(cfg, Start(s), Last(ins).fetches, 0)
    ensures w.failed == [] <==> AllGot(cfg, ins)
  {
    var fetches := Last(ins).fetches;
    forall f ensures f in w.failed <==> exists j :: 0 <= j < |fetches| && Fails(cfg, fetches, j, f) {
      TakeFailed(cfg, Start(s), fetches, 0, f);
    }
    if w.failed != [] {
      assert w.failed[0] in w.failed;
    } else {
      forall j | 0 <= j < |fetches| ensures fetches[j].Got? {
        var f := (cfg.providers[j], fetches[j]);
        assert fetches[j].Failed? ==> Fails(cfg, fetches, j, f) && f in w.failed;
      }
    }
  }
}
