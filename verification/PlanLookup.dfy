/** The lookup of a saved plan as the program runs it: the list of the runs, its filter, order and limit, and the choice
    (iac-runner/internal/runs/store.go, iac-runner/internal/jobq/exec.go). */
module PlanLookup {
  import opened Wrappers
  import opened PlanArtifacts

  /** What a run directory gives when List comes to it: not a run, no readable metadata, another error, or metadata. */
  datatype Entry = NotARun | NotFound | ReadError
    | Stored(repo: string, path: string, kind: Kind, status: Status, loaded: Loaded)

  /** A missing part of the filter lets everything through; the repository is missing when it is empty. */
  datatype Filter = Filter(repo: string, status: Option<Status>, kind: Option<Kind>, path: Option<string>, limit: int)

  // ---- What is asked for ----

  /** The entry disagrees with no part of the filter that is given. */
  ghost predicate Wanted(e: Entry, f: Filter) {
    && e.Stored? && f.repo in {"", e.repo} && f.path in {None, Some(e.path)}
    && f.kind in {None, Some(e.kind)} && f.status in {None, Some(e.status)}
  }

  /** Newer, or as new and met earlier. */
  ghost predicate ComesFirst(entries: seq<Entry>, i: nat, j: nat)
    requires i < |entries| && j < |entries| && entries[i].Stored? && entries[j].Stored?
  {
    var a, b := entries[i].loaded.started, entries[j].loaded.started;
    a > b || (a == b && i < j)
  }

  ghost predicate InOrder(entries: seq<Entry>, at: seq<nat>) {
    && (forall k :: 0 <= k < |at| ==> at[k] < |entries| && entries[at[k]].Stored?)
    && forall j, k :: 0 <= j < k < |at| ==> ComesFirst(entries, at[j], at[k])
  }

  /** The result is these entries; `at` says where they were met. */
  ghost predicate IsListing(entries: seq<Entry>, f: Filter, r: seq<Loaded>, at: seq<nat>) {
    var max := if f.limit <= 0 then 20 else if f.limit > 100 then 100 else f.limit;
    && |r| == |at| <= max && InOrder(entries, at)
    && (forall k :: 0 <= k < |at| ==> Wanted(entries[at[k]], f) && r[k] == entries[at[k]].loaded)
    && (forall i :: 0 <= i < |entries| && Wanted(entries[i], f) && i !in at ==>
          |r| == max && forall k :: 0 <= k < |at| ==> ComesFirst(entries, at[k], i))
  }

  /** A stored succeeded plan of the repository and directory. An empty repository name would ask for any. */
  ghost predicate IsPlan(e: Entry, repo: string, path: string) {
    e.Stored? && (repo == "" || e.repo == repo) && e.path == path && e.kind == Plan && e.status == Succeeded
  }

  /** Of the first `n` entries the newest such plan, and of these the first. */
  ghost predicate FirstNewest(entries: seq<Entry>, n: nat, repo: string, path: string, i: nat) {
    && n <= |entries| && i < n && IsPlan(entries[i], repo, path)
    && forall j :: 0 <= j < n && j != i && IsPlan(entries[j], repo, path) ==> ComesFirst(entries, i, j)
  }

  ghost predicate IsUsable(l: Loaded, head: string, present: set<nat>, p: nat) {
    l.run == p && l.file && l.head == head && p in present
  }

  // ---- How it is found ----

  predicate Passes(e: Entry, f: Filter) {
    e.Stored? && (f.repo == "" || e.repo == f.repo) && (f.status.None? || e.status == f.status.value)
    && (f.kind.None? || e.kind == f.kind.value) && (f.path.None? || e.path == f.path.value)
  }

  /** What List loads, directory by directory. */
  function Filtered(entries: seq<Entry>, n: nat, f: Filter): seq<Loaded>
    requires n <= |entries|
  {
    if n == 0 then []
    else Filtered(entries, n - 1, f) + if Passes(entries[n - 1], f) then [entries[n - 1].loaded] else []
  }

  /** A stable sort by start, newest first. */
  function Sorted(ls: seq<Loaded>): seq<Loaded>
    decreases |ls|
  {
    if ls == [] then [] else Insert(Sorted(ls[..|ls| - 1]), ls[|ls| - 1])
  }

  function Insert(ls: seq<Loaded>, l: Loaded): seq<Loaded>
    decreases |ls|
  {
    if ls == [] || ls[0].started < l.started then [l] + ls else [ls[0]] + Insert(ls[1..], l)
  }

  function Limit(asked: int): nat { if asked <= 0 then 20 else if asked > 100 then 100 else asked }

  function Cut(ls: seq<Loaded>, n: nat): seq<Loaded> { if |ls| > n then ls[..n] else ls }

  /** The runs that pass, newest first, up to the limit; None when a directory gives an error. */
  function Listed(entries: seq<Entry>, f: Filter): Option<seq<Loaded>> {
    if ReadError in entries then None else Some(Cut(Sorted(Filtered(entries, |entries|, f)), Limit(f.limit)))
  }

  /** The listed runs agree with every given part of the filter, each once, newest first and in directory order among
      equals; a run that agrees is left out only behind the limit, and then the listed ones come before it. */
  method List(entries: seq<Entry>, f: Filter) returns (r: Option<seq<Loaded>>)
    ensures r == Listed(entries, f)
    ensures r.None? <==> ReadError in entries
    ensures r.Some? ==> exists at :: IsListing(entries, f, r.value, at)
  {
    if ReadError !in entries { ListedIsListing(entries, f); }
    var out: seq<Loaded> := [];
    for i := 0 to |entries|
      invariant out == Filtered(entries, i, f) && ReadError !in entries[..i]
    {
      if entries[i] == ReadError { return None; }
      if !entries[i].Stored? { continue; }
      if f.repo != "" && entries[i].repo != f.repo { continue; }
      if f.status.Some? && entries[i].status != f.status.value { continue; }
      if f.kind.Some? && entries[i].kind != f.kind.value { continue; }
      if f.path.Some? && entries[i].path != f.path.value { continue; }
      out := out + [entries[i].loaded];
    }
    assert entries[..|entries|] == entries;
    out := Sorted(out);
    var limit := f.limit;
    if limit <= 0 { limit := 20; }
    if limit > 100 { limit := 100; }
    if |out| > limit { out := out[..limit]; }
    r := Some(out);
  }

  function PlansOf(repo: string, path: string): Filter { Filter(repo, Some(Succeeded), Some(Plan), Some(path), 1) }

  /** The candidate that the step by step search ends with, for the entries as it met them. */
  function BestOf(entries: seq<Entry>, n: nat, f: Filter): Option<Loaded>
    requires n <= |entries|
  {
    if n == 0 then None
    else
      var best := BestOf(entries, n - 1, f);
      if Passes(entries[n - 1], f) then Better(best, entries[n - 1].loaded) else best
  }

  /** The plan to use, for the entries as List met them, the HEAD read after it and the files there at the end, however
      these differ from one state: because one candidate is asked for, an older plan is never tried, and a newest plan
      that is used up, stale or gone means none. */
  method PriorPlanFile(entries: seq<Entry>, repo: string, path: string, head: string, present: set<nat>)
    returns (r: Option<nat>)
    ensures r == if ReadError in entries || head == "" then None
                 else Choice(BestOf(entries, |entries|, PlansOf(repo, path)), head, present)
    ensures forall p: nat :: r == Some(p) <==>
              && ReadError !in entries && head != ""
              && exists i: nat :: FirstNewest(entries, |entries|, repo, path, i) &&
                                  IsUsable(entries[i].loaded, head, present, p)
  {
    BestIsFirstNewest(entries, |entries|, repo, path);
    OneFirstNewest(entries, |entries|, repo, path);
    var metas := List(entries, PlansOf(repo, path));
    if metas.None? { return None; }
    if head == "" { return None; }
    LimitOneIsBest(entries, |entries|, PlansOf(repo, path));
    for i := 0 to |metas.value|
      invariant i > 0 ==> Choice(Some(metas.value[0]), head, present).None?
    {
      var m := metas.value[i];
      if !m.file { continue; }
      if m.head != head { continue; }
      if m.run !in present { continue; }
      return Some(m.run);
    }
    r := None;
  }

  lemma {:induction false} InsertHead(ls: seq<Loaded>, l: Loaded)
    ensures |Insert(ls, l)| == |ls| + 1
    ensures Insert(ls, l)[0] == Better(if ls == [] then None else Some(ls[0]), l).value
  {
    if ls != [] && ls[0].started >= l.started { InsertHead(ls[1..], l); }
  }

  lemma {:induction false} LimitOneIsBest(entries: seq<Entry>, n: nat, f: Filter)
    requires n <= |entries|
    ensures var all := Sorted(Filtered(entries, n, f));
            BestOf(entries, n, f) == if all == [] then None else Some(all[0])
  {
    if n > 0 {
      LimitOneIsBest(entries, n - 1, f);
      var before := Filtered(entries, n - 1, f);
      if Passes(entries[n - 1], f) {
        var l := entries[n - 1].loaded;
        assert (before + [l])[..|before|] == before;
        InsertHead(Sorted(before), l);
      } else {
        assert before + [] == before;
      }
    }
  }

  ghost predicate NewestFirst(ls: seq<Loaded>) { forall i, j :: 0 <= i < j < |ls| ==> ls[i].started >= ls[j].started }

  lemma {:induction false} InsertKeepsAll(ls: seq<Loaded>, l: Loaded)
    ensures multiset(Insert(ls, l)) == multiset(ls) + multiset{l}
  {
    if ls != [] && ls[0].started >= l.started {
      InsertKeepsAll(ls[1..], l);
      assert ls == [ls[0]] + ls[1..];
    }
  }

  lemma {:induction false} InsertKeepsOrder(ls: seq<Loaded>, l: Loaded)
    requires NewestFirst(ls)
    ensures NewestFirst(Insert(ls, l))
    ensures forall m :: m in Insert(ls, l) ==> m == l || m in ls
  {
    if ls != [] && ls[0].started >= l.started {
      InsertKeepsOrder(ls[1..], l);
      var tail := Insert(ls[1..], l);
      forall i | 0 <= i < |tail| ensures tail[i].started <= ls[0].started { assert tail[i] in tail; }
    }
  }

  /** List gives the loaded runs, newest first. */
  lemma {:induction false} SortedIsOrdered(ls: seq<Loaded>)
    ensures multiset(Sorted(ls)) == multiset(ls) && NewestFirst(Sorted(ls))
    decreases |ls|
  {
    if ls != [] {
      var front := ls[..|ls| - 1];
      SortedIsOrdered(front);
      InsertKeepsOrder(Sorted(front), ls[|ls| - 1]);
      InsertKeepsAll(Sorted(front), ls[|ls| - 1]);
      assert ls == front + [ls[|ls| - 1]];
    }
  }

  // ---- The results are what is asked for ----

  lemma {:induction false} BestIsFirstNewest(entries: seq<Entry>, n: nat, repo: string, path: string)
    requires n <= |entries|
    ensures var best := BestOf(entries, n, PlansOf(repo, path));
            && (best.Some? ==>
                  exists i: nat :: FirstNewest(entries, n, repo, path, i) && best == Some(entries[i].loaded))
            && (best.None? ==> forall i :: 0 <= i < n ==> !IsPlan(entries[i], repo, path))
  {
    if n > 0 {
      BestIsFirstNewest(entries, n - 1, repo, path);
      var f, e := PlansOf(repo, path), entries[n - 1];
      assert Passes(e, f) <==> IsPlan(e, repo, path);
      var before := BestOf(entries, n - 1, f);
      if before.Some? {
        var i: nat :| FirstNewest(entries, n - 1, repo, path, i) && before == Some(entries[i].loaded);
        if IsPlan(e, repo, path) && e.loaded.started > before.value.started {
          assert FirstNewest(entries, n, repo, path, n - 1);
        } else {
          assert FirstNewest(entries, n, repo, path, i);
        }
      } else if IsPlan(e, repo, path) {
        assert FirstNewest(entries, n, repo, path, n - 1);
      }
    }
  }

  lemma OneFirstNewest(entries: seq<Entry>, n: nat, repo: string, path: string)
    ensures forall i: nat, j: nat ::
              FirstNewest(entries, n, repo, path, i) && FirstNewest(entries, n, repo, path, j) ==> i == j
  {
  }

  /** Where the entries that pass were met. */
  ghost function Places(entries: seq<Entry>, n: nat, f: Filter): seq<nat>
    requires n <= |entries|
  {
    if n == 0 then [] else Places(entries, n - 1, f) + if Passes(entries[n - 1], f) then [n - 1] else []
  }

  ghost predicate AllStored(entries: seq<Entry>, at: seq<nat>) {
    forall k :: 0 <= k < |at| ==> at[k] < |entries| && entries[at[k]].Stored?
  }

  ghost function LoadedAt(entries: seq<Entry>, at: seq<nat>): seq<Loaded>
    requires AllStored(entries, at)
  {
    seq(|at|, k requires 0 <= k < |at| => entries[at[k]].loaded)
  }

  lemma PassesIsWanted(e: Entry, f: Filter)
    ensures Passes(e, f) <==> Wanted(e, f)
  {
    if e.Stored? {
      assert f.repo in {"", e.repo} <==> f.repo == "" || f.repo == e.repo;
      assert f.path in {None, Some(e.path)} <==> f.path == None || f.path == Some(e.path);
      assert f.kind in {None, Some(e.kind)} <==> f.kind == None || f.kind == Some(e.kind);
      assert f.status in {None, Some(e.status)} <==> f.status == None || f.status == Some(e.status);
    }
  }

  lemma {:induction false} PlacesAre(entries: seq<Entry>, n: nat, f: Filter)
    requires n <= |entries|
    ensures var at := Places(entries, n, f);
            && AllStored(entries, at) && Filtered(entries, n, f) == LoadedAt(entries, at)
            && (forall k :: 0 <= k < |at| ==> at[k] < n && Wanted(entries[at[k]], f))
            && (forall i :: 0 <= i < n && Wanted(entries[i], f) ==> i in at)
            && forall j, k :: 0 <= j < k < |at| ==> at[j] < at[k]
  {
    if n > 0 {
      PlacesAre(entries, n - 1, f);
      PassesIsWanted(entries[n - 1], f);
      assert Places(entries, n, f) == Places(entries, n - 1, f) + if Passes(entries[n - 1], f) then [n - 1] else [];
    }
  }

  /** The sort, on places. */
  ghost function InsertPlace(entries: seq<Entry>, at: seq<nat>, i: nat): (r: seq<nat>)
    requires AllStored(entries, at) && i < |entries| && entries[i].Stored?
    ensures AllStored(entries, r) && forall x :: x in r <==> x == i || x in at
    decreases |at|
  {
    if at == [] || entries[at[0]].loaded.started < entries[i].loaded.started then [i] + at
    else
      assert at == [at[0]] + at[1..];
      [at[0]] + InsertPlace(entries, at[1..], i)
  }

  lemma {:induction false} InsertsAtPlace(entries: seq<Entry>, at: seq<nat>, i: nat)
    requires AllStored(entries, at) && i < |entries| && entries[i].Stored?
    ensures Insert(LoadedAt(entries, at), entries[i].loaded) == LoadedAt(entries, InsertPlace(entries, at, i))
    decreases |at|
  {
    var ls := LoadedAt(entries, at);
    if at != [] && entries[at[0]].loaded.started >= entries[i].loaded.started {
      InsertsAtPlace(entries, at[1..], i);
      assert ls[1..] == LoadedAt(entries, at[1..]);
    }
  }

  lemma {:induction false} InsertStaysInOrder(entries: seq<Entry>, at: seq<nat>, i: nat)
    requires InOrder(entries, at) && i < |entries| && entries[i].Stored? && forall k :: 0 <= k < |at| ==> at[k] < i
    ensures InOrder(entries, InsertPlace(entries, at, i))
    decreases |at|
  {
    var r := InsertPlace(entries, at, i);
    if at != [] && entries[at[0]].loaded.started >= entries[i].loaded.started {
      InsertStaysInOrder(entries, at[1..], i);
      forall k | 1 <= k < |r| ensures ComesFirst(entries, r[0], r[k]) {
        assert r[k] in InsertPlace(entries, at[1..], i);
        if r[k] != i { var m :| 0 <= m < |at[1..]| && at[1..][m] == r[k]; assert at[m + 1] == r[k]; }
      }
    }
  }

  ghost function SortPlaces(entries: seq<Entry>, at: seq<nat>): (r: seq<nat>)
    requires AllStored(entries, at)
    ensures AllStored(entries, r) && forall x :: x in r <==> x in at
    decreases |at|
  {
    if at == [] then []
    else
      assert at == at[..|at| - 1] + [at[|at| - 1]];
      InsertPlace(entries, SortPlaces(entries, at[..|at| - 1]), at[|at| - 1])
  }

  lemma {:induction false} SortsPlaces(entries: seq<Entry>, at: seq<nat>)
    requires AllStored(entries, at) && forall j, k :: 0 <= j < k < |at| ==> at[j] < at[k]
    ensures Sorted(LoadedAt(entries, at)) == LoadedAt(entries, SortPlaces(entries, at))
    ensures InOrder(entries, SortPlaces(entries, at))
    decreases |at|
  {
    if at != [] {
      var front, i := at[..|at| - 1], at[|at| - 1];
      SortsPlaces(entries, front);
      InsertsAtPlace(entries, SortPlaces(entries, front), i);
      var ls := LoadedAt(entries, at);
      assert ls[..|ls| - 1] == LoadedAt(entries, front);
      forall k | 0 <= k < |SortPlaces(entries, front)| ensures SortPlaces(entries, front)[k] < i {
        assert SortPlaces(entries, front)[k] in front;
      }
      InsertStaysInOrder(entries, SortPlaces(entries, front), i);
    }
  }

  lemma ListedIsListing(entries: seq<Entry>, f: Filter)
    requires ReadError !in entries
    ensures exists at :: IsListing(entries, f, Listed(entries, f).value, at)
  {
    var all := SortPlaces(entries, AllPlaces(entries, f));
    AllInOrder(entries, f);
    CutIsListing(entries, f, all, Limit(f.limit));
    assert Listed(entries, f).value == Cut(LoadedAt(entries, all), Limit(f.limit));
  }

  ghost function AllPlaces(entries: seq<Entry>, f: Filter): (at: seq<nat>)
    ensures AllStored(entries, at)
  {
    PlacesAre(entries, |entries|, f);
    Places(entries, |entries|, f)
  }

  lemma AllInOrder(entries: seq<Entry>, f: Filter)
    ensures var all := SortPlaces(entries, AllPlaces(entries, f));
            && InOrder(entries, all) && Sorted(Filtered(entries, |entries|, f)) == LoadedAt(entries, all)
            && (forall k :: 0 <= k < |all| ==> Wanted(entries[all[k]], f))
            && (forall i :: 0 <= i < |entries| && Wanted(entries[i], f) ==> i in all)
  {
    var at := AllPlaces(entries, f);
    PlacesAre(entries, |entries|, f);
    SortsPlaces(entries, at);
    var all := SortPlaces(entries, at);
    forall k | 0 <= k < |all| ensures Wanted(entries[all[k]], f) { assert all[k] in at; }
  }

  lemma CutIsListing(entries: seq<Entry>, f: Filter, all: seq<nat>, max: nat)
    requires InOrder(entries, all) && max == Limit(f.limit)
    requires forall k :: 0 <= k < |all| ==> Wanted(entries[all[k]], f)
    requires forall i :: 0 <= i < |entries| && Wanted(entries[i], f) ==> i in all
    ensures exists at :: IsListing(entries, f, Cut(LoadedAt(entries, all), max), at)
  {
    var at := if |all| > max then all[..max] else all;
    assert forall j :: 0 <= j < |at| ==> at[j] == all[j] && all[j] in at;
    forall i | 0 <= i < |entries| && Wanted(entries[i], f) && i !in at
      ensures |at| == max && forall k :: 0 <= k < |at| ==> ComesFirst(entries, at[k], i)
    {
      var j :| 0 <= j < |all| && all[j] == i;
    }
    assert IsListing(entries, f, Cut(LoadedAt(entries, all), max), at);
  }

  // ---- The step by step search asks the same ----

  /** What List meets in one state. */
  function EntryOf(r: Run, i: nat): Entry {
    if r.dir then Stored(r.repo, r.path, r.kind, r.status, Load(i, r)) else NotFound
  }

  function EntriesOf(s: State): seq<Entry> {
    seq(|s.runs|, i requires 0 <= i < |s.runs| => EntryOf(s.runs[i], i))
  }

  ghost function Iterate<S>(step: S -> Option<S>, s: S, n: nat): Option<S>
    decreases n
  {
    if n == 0 then Some(s) else match step(s) case None => None case Some(t) => Iterate(step, t, n - 1)
  }

  ghost function Turn(i: nat): State -> Option<State> { (s: State) => Next(s, Step(i, Go)) }

  /** So many steps of one run, with nobody else moving. */
  ghost function Walk(s: State, i: nat, n: nat): Option<State> { Iterate(Turn(i), s, n) }

  /** From a search that has come to `next`, with nobody else moving, the search ends with the candidate that the lookup
      of the program finds in that state. */
  lemma {:induction false} SearchFindsBest(s: State, i: nat, next: nat)
    requires i < |s.runs| && s.runs[i].kind == Apply && s.runs[i].repo != "" && next <= |s.runs|
    requires s.runs[i].phase ==
               Scan(next, |s.runs|, BestOf(EntriesOf(s), next, PlansOf(s.runs[i].repo, s.runs[i].path)))
    ensures var best := BestOf(EntriesOf(s), |s.runs|, PlansOf(s.runs[i].repo, s.runs[i].path));
            Walk(s, i, |s.runs| - next + 1) == Some(Moved(s, i, Looked(best)))
    decreases |s.runs| - next
  {
    var f := PlansOf(s.runs[i].repo, s.runs[i].path);
    if next < |s.runs| {
      var p := Scan(next + 1, |s.runs|, BestOf(EntriesOf(s), next + 1, f));
      OneSearchStep(s, i, next);
      WalkStep(s, i, Moved(s, i, p), |s.runs| - next);
      SameEntries(s, i, p);
      SearchFindsBest(Moved(s, i, p), i, next + 1);
      MovedTwice(s, i, p, Looked(BestOf(EntriesOf(s), |s.runs|, f)));
    } else {
      LastSearchStep(s, i, next);
      WalkStep(s, i, Moved(s, i, Looked(s.runs[i].phase.best)), 0);
    }
  }

  lemma WalkStep(s: State, i: nat, t: State, n: nat)
    requires Next(s, Step(i, Go)) == Some(t)
    ensures Walk(s, i, n + 1) == Walk(t, i, n)
  {
  }

  lemma MovedTwice(s: State, i: nat, p: Phase, q: Phase)
    requires i < |s.runs|
    ensures Moved(Moved(s, i, p), i, q) == Moved(s, i, q)
  {
    var t := Moved(s, i, p);
    assert t.runs[i := t.runs[i].(phase := q)] == s.runs[i := s.runs[i].(phase := q)];
  }

  lemma LastSearchStep(s: State, i: nat, n: nat)
    requires i < |s.runs| && s.runs[i].phase.Scan? && s.runs[i].phase.next == |s.runs|
    ensures Next(s, Step(i, Go)) == Some(Moved(s, i, Looked(s.runs[i].phase.best)))
  {
  }

  lemma OneSearchStep(s: State, i: nat, next: nat)
    requires i < |s.runs| && s.runs[i].kind == Apply && s.runs[i].repo != "" && next < |s.runs|
    requires s.runs[i].phase ==
               Scan(next, |s.runs|, BestOf(EntriesOf(s), next, PlansOf(s.runs[i].repo, s.runs[i].path)))
    ensures var best := BestOf(EntriesOf(s), next + 1, PlansOf(s.runs[i].repo, s.runs[i].path));
            Next(s, Step(i, Go)) == Some(Moved(s, i, Scan(next + 1, |s.runs|, best)))
  {
    var x := s.runs[i];
    assert EntriesOf(s)[next] == EntryOf(s.runs[next], next);
    assert Passes(EntriesOf(s)[next], PlansOf(x.repo, x.path)) <==> Matches(s.runs[next], x.repo, x.path);
  }

  /** The stored metadata of a run does not depend on how far its job is. */
  lemma SameEntries(s: State, i: nat, p: Phase)
    requires i < |s.runs|
    ensures EntriesOf(Moved(s, i, p)) == EntriesOf(s)
  {
  }

  /** A plan run that ends well and is stored can be found from then on, with the HEAD it recorded at its start. */
  lemma FinishedPlanIsStored(s: State, i: nat, t: State)
    requires i < |s.runs| && s.runs[i].kind == Plan && s.runs[i].phase == PlanExec
    requires Next(s, Step(i, Finish(true, true, true))) == Some(t)
    ensures t.heads == s.heads && |t.runs| == |s.runs|
    ensures var r := t.runs[i];
            r == s.runs[i].(phase := Ended, status := Succeeded, named := true, artifact := true)
  {
  }

  lemma StartedPlanRecordsHead(s: State, i: nat, t: State)
    requires i < |s.runs| && s.runs[i].kind == Plan && s.runs[i].phase == PlanInit
    requires Next(s, Step(i, Try(true))) == Some(t)
    ensures i < |t.runs| && t.runs[i].phase == PlanExec && t.runs[i].head == Head(s, s.runs[i].repo)
  {
  }

  /** An apply that looks while nobody else moves takes exactly the newest stored succeeded plan of its repository and
      directory, if its name is stored, its HEAD is the one that git gives, and its file is there. */
  lemma LookupTakesExactly(s: State, i: nat, p: nat)
    requires i < |s.runs| && s.runs[i].kind == Apply && s.runs[i].repo != ""
    requires s.runs[i].phase == Scan(0, |s.runs|, None)
    ensures var end := Walk(s, i, |s.runs| + 3); var repo, path := s.runs[i].repo, s.runs[i].path;
            var head := Head(s, repo);
            && (head != "" ==> end.Some? && i < |end.value.runs| && end.value.runs[i].phase.Exec?)
            && (head != "" ==>
                  (end.value.runs[i].phase == Exec(Some(p), head) <==>
                     && FirstNewest(EntriesOf(s), |s.runs|, repo, path, p)
                     && s.runs[p].named && s.runs[p].head == head && s.runs[p].artifact))
  {
    if Head(s, s.runs[i].repo) != "" {
      SearchFindsBest(s, i, 0);
      AfterSearch(s, i);
      BestIsFirstNewest(EntriesOf(s), |s.runs|, s.runs[i].repo, s.runs[i].path);
      OneFirstNewest(EntriesOf(s), |s.runs|, s.runs[i].repo, s.runs[i].path);
    }
  }

  lemma AfterSearch(s: State, i: nat)
    requires i < |s.runs| && s.runs[i].kind == Apply && s.runs[i].repo != ""
    requires s.runs[i].phase == Scan(0, |s.runs|, None)
    requires Head(s, s.runs[i].repo) != ""
    ensures var best := BestOf(EntriesOf(s), |s.runs|, PlansOf(s.runs[i].repo, s.runs[i].path));
            var head := Head(s, s.runs[i].repo);
            Walk(s, i, |s.runs| + 3) == Some(Moved(s, i, Exec(Choice(best, head, Present(s)), head)))
  {
    SearchFindsBest(s, i, 0);
    ThenChoose(s, i, BestOf(EntriesOf(s), |s.runs|, PlansOf(s.runs[i].repo, s.runs[i].path)), Head(s, s.runs[i].repo));
  }

  lemma ThenChoose(s: State, i: nat, best: Option<Loaded>, head: string)
    requires i < |s.runs| && head == Head(s, s.runs[i].repo) && head != ""
    requires Walk(s, i, |s.runs| + 1) == Some(Moved(s, i, Looked(best)))
    ensures Walk(s, i, |s.runs| + 3) == Some(Moved(s, i, Exec(Choice(best, head, Present(s)), head)))
  {
    TwoMore(s, i, |s.runs| + 1, Moved(s, i, Looked(best)));
    TwoSteps(Moved(s, i, Looked(best)), i, best, head);
    SamePresent(s, i, Looked(best));
    MovedTwice(s, i, Looked(best), Exec(Choice(best, head, Present(s)), head));
  }

  lemma TwoMore(s: State, i: nat, m: nat, t: State)
    requires Walk(s, i, m) == Some(t)
    ensures Walk(s, i, m + 2) == Walk(t, i, 2)
  {
    IterateOn(Turn(i), s, m, 2);
  }

  lemma SamePresent(s: State, i: nat, p: Phase)
    requires i < |s.runs|
    ensures Present(Moved(s, i, p)) == Present(s)
  {
  }

  lemma TwoSteps(s: State, i: nat, best: Option<Loaded>, head: string)
    requires i < |s.runs| && s.runs[i].phase == Looked(best) && head == Head(s, s.runs[i].repo) && head != ""
    ensures Walk(s, i, 2) == Some(Moved(s, i, Exec(Choice(best, head, Present(s)), head)))
  {
    var judge := Moved(s, i, Judge(best, head));
    assert Next(s, Step(i, Go)) == Some(judge);
    JudgeStep(judge, i, best, head);
    SamePresent(s, i, Judge(best, head));
    MovedTwice(s, i, Judge(best, head), Exec(Choice(best, head, Present(s)), head));
    var exec := Moved(s, i, Exec(Choice(best, head, Present(s)), head));
    assert Turn(i)(judge) == Some(exec);
    WalkStep(s, i, judge, 1);
    WalkStep(judge, i, exec, 0);
  }

  lemma JudgeStep(s: State, i: nat, best: Option<Loaded>, head: string)
    requires i < |s.runs| && s.runs[i].phase == Judge(best, head)
    ensures Next(s, Step(i, Go)) == Some(Moved(s, i, Exec(Choice(best, head, Present(s)), head)))
  {
  }

  lemma {:induction false} IterateOn<S>(step: S -> Option<S>, s: S, m: nat, n: nat)
    ensures Iterate(step, s, m + n) == match Iterate(step, s, m) case None => None case Some(t) => Iterate(step, t, n)
    decreases m
  {
    if m > 0 && step(s).Some? { IterateOn(step, step(s).value, m - 1, n); }
  }
}
