/** The sync cycle and what holds over whole runs of it (secrets-sync/app/engine/supervisor.py). */
module SecretsCycle {
  import opened Wrappers
  import opened SecretsMerge

  /** A configuration problem stops every cycle; `synthetic` are the names of the composed keys. */
  datatype Config = Config(
    providers: seq<string>, priority: bool, synthetic: seq<string>, percent: int, interval: nat,
    problem: Option<string>)

  datatype Fetch = Got(snap: Snapshot) | Failed(code: string, collision: bool)

  /** A write works, or fails before or after the file was replaced, with an error the cycle expects or another one. */
  datatype Write = Works | Fails(replaced: bool, code: Option<string>)

  /** What the outside contributes to one cycle; the rendered values of composed keys and the outcome of the file
      step (whether unmanaged files were skipped) are given. */
  datatype Input = Input(
    now: int, force: bool, fetches: seq<Fetch>, rendered: Result<map<string, string>>, files: Result<bool>,
    write: Write)

  datatype Status = Starting | Fine | Degraded | Error

  datatype Disk = Unknown | Holds(secrets: map<string, string>)

  datatype State = State(
    lastGood: map<string, Snapshot>, lastItems: Option<int>, fails: nat, nextAt: int,
    status: Status, code: Option<string>, succeeded: bool, items: int, disk: Disk)

  ghost predicate Distinct(s: seq<string>) { forall i, j :: 0 <= i < j < |s| ==> s[i] != s[j] }

  ghost predicate Fits(cfg: Config, input: Input) { |input.fetches| == |cfg.providers| }

  // ---- One cycle ----

  /** The snapshots to use, in order, and the failures, as the loop over the providers collects them. */
  datatype Work = Work(lastGood: map<string, Snapshot>, used: seq<Contribution>, failed: seq<(string, Fetch)>)

  function Take(w: Work, name: string, fetch: Fetch): Work {
    match fetch
    case Got(snap) => w.(lastGood := w.lastGood[name := snap], used := w.used + [Contribution(name, snap)])
    case Failed(_, collision) =>
      w.(failed := w.failed + [(name, fetch)],
         used := if name in w.lastGood && !collision then w.used + [Contribution(name, w.lastGood[name])] else w.used)
  }

  function TakeFrom(cfg: Config, w: Work, fetches: seq<Fetch>, i: nat): Work
    requires |fetches| == |cfg.providers| && i <= |fetches|
    decreases |fetches| - i
  {
    if i == |fetches| then w else TakeFrom(cfg, Take(w, cfg.providers[i], fetches[i]), fetches, i + 1)
  }

  predicate Collided(w: Work) { exists i :: 0 <= i < |w.failed| && w.failed[i].1.Failed? && w.failed[i].1.collision }

  predicate Empty(w: Work) { exists i :: 0 <= i < |w.failed| && w.failed[i].0 !in w.lastGood }

  function FirstCode(w: Work): string
    requires w.failed != []
  {
    var f := w.failed[0].1; if f.Failed? && f.code != "" then f.code else "provider_error"
  }

  predicate Repeats(names: seq<string>) { exists i, j :: 0 <= i < j < |names| && names[i] == names[j] }

  /** The composed keys; a name that is taken is a collision. */
  function Synthetic(cfg: Config, secrets: map<string, string>, rendered: Result<map<string, string>>)
    : Result<map<string, string>>
  {
    if cfg.synthetic == [] then Ok(map[])
    else if (exists i :: 0 <= i < |cfg.synthetic| && cfg.synthetic[i] in secrets) || Repeats(cfg.synthetic)
    then Err("synthetic_collision")
    else if rendered.Err? then Err(rendered.code)
    else Ok(map n | n in cfg.synthetic :: if n in rendered.value then rendered.value[n] else "")
  }

  /** What to write, or the error that ends the cycle. */
  function Decide(cfg: Config, w: Work, last: Option<int>, input: Input): Result<map<string, string>> {
    if Collided(w) then Err("key_collision")
    else if Empty(w) then Err(FirstCode(w))
    else match Merge(EMPTY, w.used, cfg.priority)
      case Err(code) => Err(code)
      case Ok(merged) =>
        match Synthetic(cfg, merged.secrets, input.rendered)
        case Err(code) => Err(code)
        case Ok(synthetic) =>
          var secrets := merged.secrets + synthetic;
          var refused := CheckShrink(|secrets|, last, cfg.percent, input.force);
          if refused.Some? then Err(refused.value) else if input.files.Err? then Err(input.files.code) else Ok(secrets)
  }

  function Pow2(n: nat): nat { if n == 0 then 1 else 2 * Pow2(n - 1) }

  function Delay(cfg: Config, fails: nat): nat {
    if fails == 0 || 30 * Pow2(fails - 1) > cfg.interval then cfg.interval else 30 * Pow2(fails - 1)
  }

  function Finish(cfg: Config, s: State, now: int, status: Status, code: Option<string>): State {
    var fails := if status == Fine then 0 else s.fails + 1;
    s.(status := status, code := code, fails := fails, nextAt := now + Delay(cfg, fails))
  }

  function Unwell(s: State): Status { if s.succeeded then Degraded else Error }

  function Start(s: State): Work { Work(s.lastGood, [], []) }

  function Done(cfg: Config, s: State, w: Work, secrets: map<string, string>, input: Input): State {
    match input.write
    case Fails(replaced, code) =>
      var t := if replaced then s.(disk := Holds(secrets)) else s;
      Finish(cfg, t, input.now, Unwell(t), if code.Some? then code else Some("internal_error"))
    case Works =>
      var t := s.(disk := Holds(secrets), lastItems := Some(|secrets|), succeeded := true, items := |secrets|);
      if w.failed != []
      then Finish(cfg, t, input.now, Degraded, Some(if w.failed[0].1.Failed? then w.failed[0].1.code else ""))
      else if input.files == Ok(true) then Finish(cfg, t, input.now, Degraded, Some("file_unmanaged"))
      else Finish(cfg, t, input.now, Fine, None)
  }

  function Cycle(cfg: Config, s: State, input: Input): State
    requires |input.fetches| == |cfg.providers|
  {
    if cfg.problem.Some? then Finish(cfg, s, input.now, Error, cfg.problem)
    else
      var w := TakeFrom(cfg, Start(s), input.fetches, 0);
      Conclude(cfg, s.(lastGood := w.lastGood), w, Decide(cfg, w, s.lastItems, input), input)
  }

  function Conclude(cfg: Config, s: State, w: Work, decision: Result<map<string, string>>, input: Input): State {
    match decision
    case Err(code) => Finish(cfg, s, input.now, Unwell(s), Some(code))
    case Ok(secrets) => Done(cfg, s, w, secrets, input)
  }

  // ---- The cycle as the program runs it ----

  class Supervisor {
    const cfg: Config
    var s: State

    constructor (cfg: Config, previousItems: Option<int>, disk: Disk)
      ensures this.cfg == cfg && s == Fresh(previousItems, disk)
    {
      this.cfg, s := cfg, Fresh(previousItems, disk);
    }

    method RunOnce(input: Input)
      requires Fits(cfg, input)
      modifies this`s
      ensures s == Cycle(cfg, old(s), input)
    {
      if cfg.problem.Some? {
        Finished(input.now, Error, cfg.problem);
        return;
      }
      var used: seq<Contribution>, failed: seq<(string, Fetch)> := [], [];
      for i := 0 to |cfg.providers|
        invariant s == old(s).(lastGood := s.lastGood)
        invariant TakeFrom(cfg, Work(s.lastGood, used, failed), input.fetches, i) ==
                    TakeFrom(cfg, Start(old(s)), input.fetches, 0)
      {
        var name, fetch := cfg.providers[i], input.fetches[i];
        if fetch.Got? {
          s := s.(lastGood := s.lastGood[name := fetch.snap]);
          used := used + [Contribution(name, fetch.snap)];
        } else {
          failed := failed + [(name, fetch)];
          if name in s.lastGood && !fetch.collision {
            used := used + [Contribution(name, s.lastGood[name])];
          }
        }
      }
      ghost var w := Work(s.lastGood, used, failed);
      var decision := Decided(used, failed, input);
      assert decision == Decide(cfg, w, s.lastItems, input);
      if decision.Err? {
        Finished(input.now, if s.succeeded then Degraded else Error, Some(decision.code));
        return;
      }
      WriteOut(decision.value, failed, input);
    }

    method Decided(used: seq<Contribution>, failed: seq<(string, Fetch)>, input: Input)
      returns (r: Result<map<string, string>>)
      ensures r == Decide(cfg, Work(s.lastGood, used, failed), s.lastItems, input)
    {
      if exists i :: 0 <= i < |failed| && failed[i].1.Failed? && failed[i].1.collision { return Err("key_collision"); }
      if exists i :: 0 <= i < |failed| && failed[i].0 !in s.lastGood {
        return Err(FirstCode(Work(s.lastGood, used, failed)));
      }
      var merged := MergeAll(used, cfg.priority);
      if merged.Err? { return Err(merged.code); }
      var synthetic := Synthetic(cfg, merged.value.secrets, input.rendered);
      if synthetic.Err? { return Err(synthetic.code); }
      var secrets := merged.value.secrets + synthetic.value;
      var refused := CheckShrink(|secrets|, s.lastItems, cfg.percent, input.force);
      if refused.Some? { return Err(refused.value); }
      if input.files.Err? { return Err(input.files.code); }
      r := Ok(secrets);
    }

    /** `write_secrets`, `_after_write` and the end of the cycle. */
    method WriteOut(secrets: map<string, string>, failed: seq<(string, Fetch)>, input: Input)
      modifies this`s
      ensures s == Done(cfg, old(s), Work(old(s).lastGood, [], failed), secrets, input)
    {
      if input.write.Fails? {
        if input.write.replaced { s := s.(disk := Holds(secrets)); }
        Finished(input.now, if s.succeeded then Degraded else Error,
                 if input.write.code.Some? then input.write.code else Some("internal_error"));
        return;
      }
      s := s.(disk := Holds(secrets));
      s := s.(lastItems := Some(|secrets|));
      s := s.(succeeded := true, items := |secrets|);
      if failed != [] {
        Finished(input.now, Degraded, Some(if failed[0].1.Failed? then failed[0].1.code else ""));
      } else if input.files == Ok(true) {
        Finished(input.now, Degraded, Some("file_unmanaged"));
      } else {
        Finished(input.now, Fine, None);
      }
    }

    method Finished(now: int, status: Status, code: Option<string>)
      modifies this`s
      ensures s == Finish(cfg, old(s), now, status, code)
    {
      var fails := if status == Fine then 0 else s.fails + 1;
      var delay := cfg.interval;
      if fails > 0 && 30 * Pow2(fails - 1) < delay { delay := 30 * Pow2(fails - 1); }
      s := s.(status := status, code := code, fails := fails, nextAt := now + delay);
    }
  }

  function Fresh(previousItems: Option<int>, disk: Disk): State {
    State(map[], previousItems, 0, 0, Starting, None, previousItems.Some?,
          if previousItems.Some? then previousItems.value else 0, disk)
  }
}
