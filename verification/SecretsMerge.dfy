/** Merging provider snapshots, and the guard against shrinking (secrets-sync/app/engine/merge.py, guard.py). */
module SecretsMerge {
  import opened Wrappers
  import Lines

  datatype Result<+T> = Ok(value: T) | Err(code: string)

  datatype Snapshot = Snapshot(secrets: map<string, string>, files: map<string, string>)

  datatype Contribution = Contribution(provider: string, snap: Snapshot)

  datatype Shadow = Shadow(isFile: bool, name: string, winner: string, loser: string)

  /** The result with, for each name, the provider it came from. */
  datatype Merged = Merged(
    secrets: map<string, string>,
    files: map<string, string>,
    secretSrc: map<string, string>,
    fileSrc: map<string, string>,
    shadowed: set<Shadow>)

  const EMPTY := Merged(map[], map[], map[], map[], {})

  /** `safe_relpath`: relative, without backslash or NUL, no empty, `.` or `..` segment. */
  predicate SafePath(rel: string) {
    rel != "" && rel[0] != '/' && '\\' !in rel && '\0' !in rel
    && var parts := Lines.Split(rel, '/');
       forall i :: 0 <= i < |parts| ==> parts[i] != "" && parts[i] != "." && parts[i] != ".."
  }

  predicate SafePaths(snap: Snapshot) { forall p :: p in snap.files ==> SafePath(p) }

  function Shadows(isFile: bool, names: set<string>, src: map<string, string>, loser: string): set<Shadow> {
    set k | k in names && k in src :: Shadow(isFile, k, src[k], loser)
  }

  /** One side of a snapshot on top of what is there: a name that is taken keeps its value. */
  function Under(taken: map<string, string>, more: map<string, string>): map<string, string> { more + taken }

  function Sources(src: map<string, string>, names: set<string>, provider: string): map<string, string> {
    (map k | k in names :: provider) + src
  }

  function Add(m: Merged, c: Contribution, priority: bool): Result<Merged> {
    var s := c.snap;
    if !SafePaths(s) then Err("unsafe_path")
    else if !priority && (s.secrets.Keys * m.secretSrc.Keys != {} || s.files.Keys * m.fileSrc.Keys != {})
    then Err("key_collision")
    else
      Ok(Merged(Under(m.secrets, s.secrets), Under(m.files, s.files),
                Sources(m.secretSrc, s.secrets.Keys, c.provider), Sources(m.fileSrc, s.files.Keys, c.provider),
                m.shadowed + Shadows(false, s.secrets.Keys, m.secretSrc, c.provider)
                           + Shadows(true, s.files.Keys, m.fileSrc, c.provider)))
  }

  /** All snapshots in priority order; the first failure ends it. */
  function Merge(m: Merged, cs: seq<Contribution>, priority: bool): Result<Merged>
    decreases |cs|
  {
    if cs == [] then Ok(m)
    else match Add(m, cs[0], priority) case Err(code) => Err(code) case Ok(next) => Merge(next, cs[1..], priority)
  }

  // ---- The merge as the program runs it ----

  /** One side of one snapshot, name by name. */
  method MergeSide(isFile: bool, out: map<string, string>, src: map<string, string>, more: map<string, string>,
      provider: string, priority: bool) returns (r: Result<(map<string, string>, map<string, string>, set<Shadow>)>)
    requires out.Keys == src.Keys
    ensures r == if !priority && more.Keys * src.Keys != {} then Err("key_collision")
                 else Ok((Under(out, more), Sources(src, more.Keys, provider),
                          Shadows(isFile, more.Keys, src, provider)))
  {
    var values, sources, shadowed := out, src, {};
    var left := more.Keys;
    assert Without(more, left) == map[] && more.Keys - left == {};
    while left != {}
      invariant SideAt(isFile, out, src, more, provider, left, values, sources, shadowed)
      invariant !priority ==> Shadows(isFile, more.Keys - left, src, provider) == {}
      decreases left
    {
      var k :| k in left;
      SideStep(isFile, out, src, more, provider, left, values, sources, shadowed, k);
      if k in sources {
        if !priority { return Err("key_collision"); }
        shadowed := shadowed + {Shadow(isFile, k, sources[k], provider)};
      } else {
        sources := sources[k := provider];
        values := values[k := more[k]];
      }
      left := left - {k};
    }
    SideDone(isFile, out, src, more, provider, values, sources, shadowed);
    r := Ok((values, sources, shadowed));
  }

  /** The loop state of a side while the names in `left` are still to come. */
  ghost predicate SideAt(isFile: bool, out: map<string, string>, src: map<string, string>, more: map<string, string>,
      provider: string, left: set<string>, values: map<string, string>, sources: map<string, string>,
      shadowed: set<Shadow>)
  {
    && left <= more.Keys && values == Under(out, Without(more, left))
    && sources == Sources(src, more.Keys - left, provider)
    && shadowed == Shadows(isFile, more.Keys - left, src, provider)
  }

  lemma SideStep(isFile: bool, out: map<string, string>, src: map<string, string>, more: map<string, string>,
      provider: string, left: set<string>, values: map<string, string>, sources: map<string, string>,
      shadowed: set<Shadow>, k: string)
    requires SideAt(isFile, out, src, more, provider, left, values, sources, shadowed) && k in left &&
             out.Keys == src.Keys
    ensures k in sources <==> k in src
    ensures k in sources ==> sources[k] == src[k] && k in more.Keys * src.Keys
    ensures k in sources ==> SideAt(isFile, out, src, more, provider, left - {k}, values, sources,
                                    shadowed + {Shadow(isFile, k, sources[k], provider)})
    ensures k !in sources ==>
              SideAt(isFile, out, src, more, provider, left - {k}, values[k := more[k]], sources[k := provider],
                     shadowed)
    ensures k !in sources ==>
              Shadows(isFile, more.Keys - (left - {k}), src, provider) ==
                Shadows(isFile, more.Keys - left, src, provider)
  {
    assert (more.Keys - (left - {k})) == (more.Keys - left) + {k};
    UnderStep(out, more, left, k);
    SourcesStep(src, more.Keys - left, provider, k);
    ShadowsStep(isFile, more.Keys - left, src, provider, k);
  }

  lemma SideDone(isFile: bool, out: map<string, string>, src: map<string, string>, more: map<string, string>,
      provider: string, values: map<string, string>, sources: map<string, string>, shadowed: set<Shadow>)
    requires SideAt(isFile, out, src, more, provider, {}, values, sources, shadowed)
    ensures values == Under(out, more) && sources == Sources(src, more.Keys, provider)
    ensures shadowed == Shadows(isFile, more.Keys, src, provider)
    ensures shadowed == {} ==> more.Keys * src.Keys == {}
  {
    assert more.Keys - {} == more.Keys && Without(more, {}) == more;
    forall k | k in more.Keys * src.Keys ensures shadowed != {} {
      assert Shadow(isFile, k, src[k], provider) in shadowed;
    }
  }

  function Without(m: map<string, string>, names: set<string>): map<string, string> {
    map k | k in m && k !in names :: m[k]
  }

  lemma UnderStep(out: map<string, string>, more: map<string, string>, left: set<string>, k: string)
    requires k in left && k in more
    ensures var next := Under(out, Without(more, left - {k}));
            next == if k in out then Under(out, Without(more, left)) else Under(out, Without(more, left))[k := more[k]]
  {
  }

  lemma SourcesStep(src: map<string, string>, names: set<string>, provider: string, k: string)
    requires k !in names
    ensures var next := Sources(src, names + {k}, provider);
            next == if k in src then Sources(src, names, provider) else Sources(src, names, provider)[k := provider]
    ensures k in Sources(src, names, provider) <==> k in src
    ensures k in src ==> Sources(src, names, provider)[k] == src[k]
  {
  }

  lemma ShadowsStep(isFile: bool, names: set<string>, src: map<string, string>, loser: string, k: string)
    ensures Shadows(isFile, names + {k}, src, loser)
         == Shadows(isFile, names, src, loser) + if k in src then {Shadow(isFile, k, src[k], loser)} else {}
  {
  }

  method MergeAll(cs: seq<Contribution>, priority: bool) returns (r: Result<Merged>)
    ensures r == Merge(EMPTY, cs, priority)
  {
    var out := EMPTY;
    assert cs[0..] == cs;
    for i := 0 to |cs|
      invariant out.secrets.Keys == out.secretSrc.Keys && out.files.Keys == out.fileSrc.Keys
      invariant Merge(EMPTY, cs, priority) == Merge(out, cs[i..], priority)
    {
      var c := cs[i];
      assert cs[i..][0] == c && cs[i..][1..] == cs[i + 1..];
      var paths := c.snap.files.Keys;
      while paths != {}
        invariant paths <= c.snap.files.Keys && forall p :: p in c.snap.files.Keys - paths ==> SafePath(p)
        decreases paths
      {
        var p :| p in paths;
        if !SafePath(p) { return Err("unsafe_path"); }
        paths := paths - {p};
      }
      var secrets := MergeSide(false, out.secrets, out.secretSrc, c.snap.secrets, c.provider, priority);
      if secrets.Err? { return Err(secrets.code); }
      var files := MergeSide(true, out.files, out.fileSrc, c.snap.files, c.provider, priority);
      if files.Err? { return Err(files.code); }
      out := Merged(secrets.value.0, files.value.0, secrets.value.1, files.value.1,
                    out.shadowed + secrets.value.2 + files.value.2);
    }
    r := Ok(out);
  }

  // ---- What a merge means ----

  /** The first provider from `i` on that has the secret, if any. */
  function First(cs: seq<Contribution>, i: nat, k: string): (r: Option<nat>)
    requires i <= |cs|
    ensures r.Some? ==> i <= r.value < |cs| && k in cs[r.value].snap.secrets
                        && forall j :: i <= j < r.value ==> k !in cs[j].snap.secrets
    ensures r.None? ==> forall j :: i <= j < |cs| ==> k !in cs[j].snap.secrets
    decreases |cs| - i
  {
    if i == |cs| then None else if k in cs[i].snap.secrets then Some(i) else First(cs, i + 1, k)
  }

  /** The state of the secret `k` once the providers before `i` are merged. */
  ghost predicate SoFar(cs: seq<Contribution>, i: nat, m: Merged, k: string)
    requires i <= |cs|
  {
    var f := First(cs[..i], 0, k);
    && (k in m.secrets <==> f.Some?) && (k in m.secretSrc <==> f.Some?)
    && (f.Some? ==> m.secrets[k] == cs[f.value].snap.secrets[k] && m.secretSrc[k] == cs[f.value].provider)
  }

  lemma {:induction false} FirstGrows(cs: seq<Contribution>, n: nat, i: nat, k: string)
    requires i <= n < |cs|
    ensures var f := First(cs[..n], i, k);
            First(cs[..n + 1], i, k) == if f.Some? then f else if k in cs[n].snap.secrets then Some(n) else None
    decreases n - i
  {
    if i < n { FirstGrows(cs, n, i + 1, k); }
  }

  lemma {:induction false} MergeKeeps(cs: seq<Contribution>, i: nat, m: Merged, priority: bool, k: string)
    requires i <= |cs| && SoFar(cs, i, m, k) && Merge(m, cs[i..], priority).Ok?
    ensures SoFar(cs, |cs|, Merge(m, cs[i..], priority).value, k)
    decreases |cs| - i
  {
    if i < |cs| {
      assert cs[i..][0] == cs[i] && cs[i..][1..] == cs[i + 1..];
      FirstGrows(cs, i, 0, k);
      MergeKeeps(cs, i + 1, Add(m, cs[i], priority).value, priority, k);
    }
  }

  /** A merged secret has the value of the earliest provider that has it, and no secret is lost or added. */
  lemma EarliestWins(cs: seq<Contribution>, priority: bool, k: string)
    requires Merge(EMPTY, cs, priority).Ok?
    ensures var m, f := Merge(EMPTY, cs, priority).value, First(cs, 0, k);
            && (k in m.secrets <==> f.Some?) && (k in m.secretSrc <==> f.Some?)
            && (f.Some? ==> m.secrets[k] == cs[f.value].snap.secrets[k] && m.secretSrc[k] == cs[f.value].provider)
  {
    assert cs[0..] == cs && cs[..|cs|] == cs && cs[..0] == [];
    MergeKeeps(cs, 0, EMPTY, priority, k);
  }

  /** Two providers that have the same secret, or the same file. */
  ghost predicate Clash(cs: seq<Contribution>, i: int, j: int) {
    0 <= i < j < |cs| &&
    (cs[i].snap.secrets.Keys * cs[j].snap.secrets.Keys != {} || cs[i].snap.files.Keys * cs[j].snap.files.Keys != {})
  }

  /** What stands in the way of the merge at provider `j`. */
  ghost predicate Stuck(cs: seq<Contribution>, priority: bool, j: nat) {
    j < |cs| && (!SafePaths(cs[j].snap) || (!priority && exists i :: Clash(cs, i, j)))
  }

  /** The names taken once the providers before `i` are merged. */
  ghost predicate TakenBy(cs: seq<Contribution>, i: nat, m: Merged)
    requires i <= |cs|
  {
    && (forall k :: k in m.secretSrc <==> exists j :: 0 <= j < i && k in cs[j].snap.secrets)
    && (forall k :: k in m.fileSrc <==> exists j :: 0 <= j < i && k in cs[j].snap.files)
  }

  lemma AddFails(cs: seq<Contribution>, i: nat, m: Merged, priority: bool)
    requires i < |cs| && TakenBy(cs, i, m)
    ensures Add(m, cs[i], priority).Err? <==> Stuck(cs, priority, i)
    ensures Add(m, cs[i], priority).Err? ==>
              Add(m, cs[i], priority).code == if SafePaths(cs[i].snap) then "key_collision" else "unsafe_path"
  {
    var s := cs[i].snap;
    if exists h :: Clash(cs, h, i) {
      var h :| Clash(cs, h, i);
      if cs[h].snap.secrets.Keys * s.secrets.Keys != {} {
        var k :| k in cs[h].snap.secrets.Keys * s.secrets.Keys;
        assert k in s.secrets.Keys * m.secretSrc.Keys;
      } else {
        var k :| k in cs[h].snap.files.Keys * s.files.Keys;
        assert k in s.files.Keys * m.fileSrc.Keys;
      }
    }
    if s.secrets.Keys * m.secretSrc.Keys != {} {
      var k :| k in s.secrets.Keys * m.secretSrc.Keys;
      var h :| 0 <= h < i && k in cs[h].snap.secrets;
      assert k in cs[h].snap.secrets.Keys * s.secrets.Keys && Clash(cs, h, i);
    }
    if s.files.Keys * m.fileSrc.Keys != {} {
      var k :| k in s.files.Keys * m.fileSrc.Keys;
      var h :| 0 <= h < i && k in cs[h].snap.files;
      assert k in cs[h].snap.files.Keys * s.files.Keys && Clash(cs, h, i);
    }
  }

  lemma AddTakes(cs: seq<Contribution>, i: nat, m: Merged, priority: bool)
    requires i < |cs| && TakenBy(cs, i, m) && Add(m, cs[i], priority).Ok?
    ensures TakenBy(cs, i + 1, Add(m, cs[i], priority).value)
  {
    var next := Add(m, cs[i], priority).value;
    assert next.secretSrc.Keys == cs[i].snap.secrets.Keys + m.secretSrc.Keys;
    assert next.fileSrc.Keys == cs[i].snap.files.Keys + m.fileSrc.Keys;
  }

  lemma {:induction false} MergeFailsFrom(cs: seq<Contribution>, i: nat, m: Merged, priority: bool)
    requires i <= |cs| && TakenBy(cs, i, m) && forall j :: 0 <= j < i ==> !Stuck(cs, priority, j)
    ensures Merge(m, cs[i..], priority).Err? <==> exists j :: Stuck(cs, priority, j)
    decreases |cs| - i
  {
    if i < |cs| {
      assert cs[i..][0] == cs[i] && cs[i..][1..] == cs[i + 1..];
      AddFails(cs, i, m, priority);
      if !Stuck(cs, priority, i) {
        AddTakes(cs, i, m, priority);
        MergeFailsFrom(cs, i + 1, Add(m, cs[i], priority).value, priority);
      }
    }
  }

  /** A merge fails exactly when a path is unsafe or, unless earlier providers win, two providers share a name. */
  lemma MergeFails(cs: seq<Contribution>, priority: bool)
    ensures Merge(EMPTY, cs, priority).Err? <==> exists j :: Stuck(cs, priority, j)
  {
    assert cs[0..] == cs;
    MergeFailsFrom(cs, 0, EMPTY, priority);
  }

  // ---- Files and shadows ----

  /** The first provider from `i` on that has the file, if any. */
  function FirstFile(cs: seq<Contribution>, i: nat, k: string): (r: Option<nat>)
    requires i <= |cs|
    ensures r.Some? ==> i <= r.value < |cs| && k in cs[r.value].snap.files
                        && forall j :: i <= j < r.value ==> k !in cs[j].snap.files
    ensures r.None? ==> forall j :: i <= j < |cs| ==> k !in cs[j].snap.files
    decreases |cs| - i
  {
    if i == |cs| then None else if k in cs[i].snap.files then Some(i) else FirstFile(cs, i + 1, k)
  }

  ghost predicate FileSoFar(cs: seq<Contribution>, i: nat, m: Merged, k: string)
    requires i <= |cs|
  {
    var f := FirstFile(cs[..i], 0, k);
    && (k in m.files <==> f.Some?) && (k in m.fileSrc <==> f.Some?)
    && (f.Some? ==> m.files[k] == cs[f.value].snap.files[k] && m.fileSrc[k] == cs[f.value].provider)
  }

  lemma {:induction false} FirstFileGrows(cs: seq<Contribution>, n: nat, i: nat, k: string)
    requires i <= n < |cs|
    ensures var f := FirstFile(cs[..n], i, k);
            FirstFile(cs[..n + 1], i, k) == if f.Some? then f else if k in cs[n].snap.files then Some(n) else None
    decreases n - i
  {
    if i < n { FirstFileGrows(cs, n, i + 1, k); }
  }

  lemma {:induction false} MergeKeepsFiles(cs: seq<Contribution>, i: nat, m: Merged, priority: bool, k: string)
    requires i <= |cs| && FileSoFar(cs, i, m, k) && Merge(m, cs[i..], priority).Ok?
    ensures FileSoFar(cs, |cs|, Merge(m, cs[i..], priority).value, k)
    decreases |cs| - i
  {
    if i < |cs| {
      assert cs[i..][0] == cs[i] && cs[i..][1..] == cs[i + 1..];
      FirstFileGrows(cs, i, 0, k);
      MergeKeepsFiles(cs, i + 1, Add(m, cs[i], priority).value, priority, k);
    }
  }

  /** A merged file has the content of the earliest provider that has it, and no file is lost or added. */
  lemma EarliestFileWins(cs: seq<Contribution>, priority: bool, k: string)
    requires Merge(EMPTY, cs, priority).Ok?
    ensures var m, f := Merge(EMPTY, cs, priority).value, FirstFile(cs, 0, k);
            && (k in m.files <==> f.Some?) && (k in m.fileSrc <==> f.Some?)
            && (f.Some? ==> m.files[k] == cs[f.value].snap.files[k] && m.fileSrc[k] == cs[f.value].provider)
  {
    assert cs[0..] == cs && cs[..|cs|] == cs && cs[..0] == [];
    MergeKeepsFiles(cs, 0, EMPTY, priority, k);
  }

  /** Provider `j` has a name that the earlier provider `i` has first. */
  ghost predicate Shadowed(cs: seq<Contribution>, x: Shadow, i: int, j: int) {
    && 0 <= i < j < |cs| && x.winner == cs[i].provider && x.loser == cs[j].provider
    && if x.isFile then x.name in cs[j].snap.files && FirstFile(cs, 0, x.name) == Some(i)
       else x.name in cs[j].snap.secrets && First(cs, 0, x.name) == Some(i)
  }

  ghost predicate ShadowsSoFar(cs: seq<Contribution>, n: nat, m: Merged)
    requires n <= |cs|
  {
    forall x :: x in m.shadowed <==> exists i, j :: j < n && Shadowed(cs, x, i, j)
  }

  lemma FirstOfAll(cs: seq<Contribution>, n: nat, k: string)
    requires n <= |cs|
    ensures First(cs[..n], 0, k).Some? ==> First(cs, 0, k) == First(cs[..n], 0, k)
    ensures First(cs[..n], 0, k).None? ==> First(cs, 0, k).None? || First(cs, 0, k).value >= n
    ensures FirstFile(cs[..n], 0, k).Some? ==> FirstFile(cs, 0, k) == FirstFile(cs[..n], 0, k)
    ensures FirstFile(cs[..n], 0, k).None? ==> FirstFile(cs, 0, k).None? || FirstFile(cs, 0, k).value >= n
  {
    assert forall j :: 0 <= j < n ==> cs[..n][j] == cs[j];
  }

  lemma AddShadows(cs: seq<Contribution>, n: nat, m: Merged, priority: bool, x: Shadow)
    requires n < |cs| && Add(m, cs[n], priority).Ok? && SoFar(cs, n, m, x.name) && FileSoFar(cs, n, m, x.name)
    ensures x in Add(m, cs[n], priority).value.shadowed <==> x in m.shadowed || exists i :: Shadowed(cs, x, i, n)
  {
    FirstOfAll(cs, n, x.name);
    var f := if x.isFile then FirstFile(cs[..n], 0, x.name) else First(cs[..n], 0, x.name);
    var new_ := if x.isFile then Shadows(true, cs[n].snap.files.Keys, m.fileSrc, cs[n].provider)
                else Shadows(false, cs[n].snap.secrets.Keys, m.secretSrc, cs[n].provider);
    assert x in Add(m, cs[n], priority).value.shadowed <==> x in m.shadowed || x in new_;
    if x in new_ { assert Shadowed(cs, x, f.value, n); }
  }

  ghost predicate BothSoFar(cs: seq<Contribution>, n: nat, m: Merged, k: string)
    requires n <= |cs|
  {
    SoFar(cs, n, m, k) && FileSoFar(cs, n, m, k)
  }

  lemma BothGrow(cs: seq<Contribution>, n: nat, m: Merged, priority: bool, k: string)
    requires n < |cs| && Add(m, cs[n], priority).Ok? && BothSoFar(cs, n, m, k)
    ensures BothSoFar(cs, n + 1, Add(m, cs[n], priority).value, k)
  {
    FirstGrows(cs, n, 0, k);
    FirstFileGrows(cs, n, 0, k);
  }

  lemma {:induction false} MergeKeepsShadows(cs: seq<Contribution>, n: nat, m: Merged, priority: bool)
    requires n <= |cs| && Merge(m, cs[n..], priority).Ok? && ShadowsSoFar(cs, n, m)
    requires forall k :: BothSoFar(cs, n, m, k)
    ensures ShadowsSoFar(cs, |cs|, Merge(m, cs[n..], priority).value)
    decreases |cs| - n
  {
    if n < |cs| {
      assert cs[n..][0] == cs[n] && cs[n..][1..] == cs[n + 1..];
      var next := Add(m, cs[n], priority).value;
      var upTo := n + 1;
      forall k ensures BothSoFar(cs, upTo, next, k) { BothGrow(cs, n, m, priority, k); }
      forall x ensures x in next.shadowed <==> exists i, j :: j < n + 1 && Shadowed(cs, x, i, j) {
        assert BothSoFar(cs, n, m, x.name);
        AddShadows(cs, n, m, priority, x);
      }
      MergeKeepsShadows(cs, n + 1, next, priority);
    }
  }

  /** What is reported as shadowed: each name of each provider that an earlier one has first, with the two providers. */
  lemma ShadowsAre(cs: seq<Contribution>, priority: bool, x: Shadow)
    requires Merge(EMPTY, cs, priority).Ok?
    ensures x in Merge(EMPTY, cs, priority).value.shadowed <==> exists i, j :: Shadowed(cs, x, i, j)
  {
    assert cs[0..] == cs && cs[..0] == [];
    MergeKeepsShadows(cs, 0, EMPTY, priority);
  }

  // ---- Paths ----

  /** A part of the path between two slashes, or at an end of it. */
  ghost predicate IsSegment(rel: string, part: string) {
    '/' !in part && exists a, b :: Around(rel, part, a, b)
  }

  predicate Around(rel: string, part: string, a: string, b: string) {
    rel == a + part + b && (a == "" || a[|a| - 1] == '/') && (b == "" || b[0] == '/')
  }

  lemma {:induction false} SegmentsAre(rel: string, part: string)
    ensures part in Lines.Split(rel, '/') <==> IsSegment(rel, part)
  {
    Lines.SplitHasNone(rel, '/');
    var parts := Lines.Split(rel, '/');
    if part in parts {
      var i :| 0 <= i < |parts| && parts[i] == part;
      SegmentAt(rel, i);
    }
    if IsSegment(rel, part) {
      var a, b :| Around(rel, part, a, b);
      SegmentIn(a, part, b);
    }
  }

  lemma SegmentAt(rel: string, i: nat)
    requires i < |Lines.Split(rel, '/')|
    ensures IsSegment(rel, Lines.Split(rel, '/')[i])
    decreases i
  {
    var parts := Lines.Split(rel, '/');
    Lines.SplitHasNone(rel, '/');
    Lines.JoinSplit(rel, '/');
    var a, b := JoinAt(parts, i);
    assert Around(rel, parts[i], a, b);
  }

  /** The text of the joined parts around one of them. */
  lemma {:induction false} JoinAt(parts: seq<string>, i: nat) returns (a: string, b: string)
    requires i < |parts|
    ensures Lines.Join(parts, '/') == a + parts[i] + b
    ensures (a == "" || a[|a| - 1] == '/') && (b == "" || b[0] == '/')
    decreases i
  {
    if |parts| == 1 {
      a, b := "", "";
      assert "" + parts[0] + "" == parts[0];
    } else if i == 0 {
      a, b := "", "/" + Lines.Join(parts[1..], '/');
      assert "" + parts[0] + b == parts[0] + ['/'] + Lines.Join(parts[1..], '/');
    } else {
      var c, d := JoinAt(parts[1..], i - 1);
      a, b := parts[0] + "/" + c, d;
      assert a + parts[i] + b == parts[0] + ['/'] + (c + parts[1..][i - 1] + d);
    }
  }

  lemma SegmentIn(a: string, part: string, b: string)
    requires '/' !in part && (a == "" || a[|a| - 1] == '/') && (b == "" || b[0] == '/')
    ensures part in Lines.Split(a + part + b, '/')
  {
    SegmentThen(part, b);
    InAt(Lines.Split(part + b, '/'), 0);
    if a == "" {
      assert a + part + b == part + b;
    } else {
      AfterSlash(a[..|a| - 1], part + b, part);
      Grouped(a, part, b);
    }
  }

  lemma InAt(parts: seq<string>, i: nat)
    requires i < |parts|
    ensures parts[i] in parts
  {
  }

  lemma Grouped(a: string, part: string, b: string)
    requires a != "" && a[|a| - 1] == '/'
    ensures a + part + b == a[..|a| - 1] + "/" + (part + b)
  {
  }

  lemma {:induction false} AfterSlash(front: string, t: string, part: string)
    requires part in Lines.Split(t, '/')
    ensures part in Lines.Split(front + "/" + t, '/')[1..] && part in Lines.Split(front + "/" + t, '/')
  {
    var s := front + "/" + t;
    if front == "" {
      assert s[0] == '/' && s[1..] == t;
    } else {
      assert s[0] == front[0] && s[1..] == front[1..] + "/" + t;
      AfterSlash(front[1..], t, part);
    }
  }

  lemma SegmentThen(part: string, b: string)
    requires '/' !in part && (b == "" || b[0] == '/')
    ensures Lines.Split(part + b, '/')[0] == part
  {
    Lines.SplitConcat(part, b, '/');
    assert part + "" == part;
    Lines.SplitWhole(part, '/');
  }

  /** A safe path is relative and not empty, has no backslash and no NUL, and no part of it is empty, `.` or `..`. */
  lemma SafePathIs(rel: string)
    ensures SafePath(rel) <==>
              && rel != "" && rel[0] != '/' && '\\' !in rel && '\0' !in rel
              && !IsSegment(rel, "") && !IsSegment(rel, ".") && !IsSegment(rel, "..")
  {
    SegmentsAre(rel, "");
    SegmentsAre(rel, ".");
    SegmentsAre(rel, "..");
  }

  // ---- The guard ----

  /** `items < last * (1 - percent / 100)` without rounding. */
  function CheckShrink(items: int, last: Option<int>, percent: int, force: bool): Option<string> {
    if items <= 0 then Some("shrink_guard")
    else if force || last.None? || last.value <= 0 then None
    else if 100 * items < last.value * (100 - percent) then Some("shrink_guard")
    else None
  }
}
