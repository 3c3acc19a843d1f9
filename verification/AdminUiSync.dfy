/** Copying the admin UI into its consumers and checking the copies (internal/sync-admin-ui.py). */
module AdminUiSync {
  import opened Strings
  import opened Wrappers
  import opened AdminUiTree
  import Lines

  // ---- Versions, stamps and locks ----

  predicate ValidVersion(v: string) {
    var parts := Lines.Split(v, '.'); |parts| == 3 && forall i :: 0 <= i < 3 ==> IsDigits(parts[i])
  }

  predicate IsSpace(c: char) { c == ' ' || c == '\t' || c == '\n' || c == '\r' || c == '\U{B}' || c == '\U{C}' }

  function Strip(s: string): string
    decreases |s|
  {
    if s == "" then "" else if IsSpace(s[0]) then Strip(s[1..])
    else if IsSpace(s[|s| - 1]) then Strip(s[..|s| - 1]) else s
  }

  /** Text mode reading: every line break becomes a newline. */
  function ReadText(s: string): string
    decreases |s|
  {
    if s == "" then ""
    else if s[0] == '\r' then "\n" + ReadText(if |s| > 1 && s[1] == '\n' then s[2..] else s[1..])
    else [s[0]] + ReadText(s[1..])
  }

  datatype Field = VersionField | HashField

  datatype Line = Line(key: string, field: Field)

  const STAMP_LINES := [Line("version", VersionField), Line("sha256", HashField)]
  const LOCK_LINES := [Line("version", VersionField), Line("lib", HashField), Line("skeleton", HashField)]

  predicate ValidValue(field: Field, v: string) {
    match field
    case VersionField => ValidVersion(v)
    case HashField => Hex64(v)
  }

  /** `stamp_text` and `lock_text`: `key value` lines. */
  function Render(lines: seq<Line>, values: seq<string>): string
    requires |lines| == |values|
  {
    if lines == [] then "" else lines[0].key + " " + values[0] + "\n" + Render(lines[1..], values[1..])
  }

  function StampText(version: string, digest: string): string { Render(STAMP_LINES, [version, digest]) }

  function LockText(version: string, lib: string, skeleton: string): string {
    Render(LOCK_LINES, [version, lib, skeleton])
  }

  function ParseLine(line: Line, text: string): Option<string> {
    var parts := Lines.Split(text, ' ');
    if |parts| != 2 || parts[0] != line.key || !ValidValue(line.field, parts[1]) then None else Some(parts[1])
  }

  function ParseLines(lines: seq<Line>, texts: seq<string>): Option<seq<string>>
    requires |lines| == |texts|
  {
    if lines == [] then Some([])
    else match ParseLine(lines[0], texts[0])
      case None => None
      case Some(v) => match ParseLines(lines[1..], texts[1..]) case None => None case Some(vs) => Some([v] + vs)
  }

  /** The lines of a text without the empty one behind a final newline. */
  function TextLines(text: string): seq<string> {
    var ls := Lines.Split(text, '\n'); if ls[|ls| - 1] == "" then ls[..|ls| - 1] else ls
  }

  function ParseKv(lines: seq<Line>, text: string): Option<seq<string>> {
    if |TextLines(text)| != |lines| then None else ParseLines(lines, TextLines(text))
  }

  method ParseKvLoop(text: string, lines: seq<Line>) returns (r: Option<seq<string>>)
    ensures r == ParseKv(lines, text)
  {
    var ls := Lines.Split(text, '\n');
    if ls[|ls| - 1] == "" { ls := ls[..|ls| - 1]; }
    if |ls| != |lines| { return None; }
    var out: seq<string> := [];
    assert forall vs: seq<string> :: [] + vs == vs;
    for i := 0 to |lines|
      invariant |ls| == |lines| && ls == TextLines(text)
      invariant ParseLines(lines, ls) == Prefixed(out, ParseLines(lines[i..], ls[i..]))
    {
      assert lines[i..][1..] == lines[i + 1..] && lines[i..][0] == lines[i];
      assert ls[i..][1..] == ls[i + 1..] && ls[i..][0] == ls[i];
      var parts := Lines.Split(ls[i], ' ');
      if |parts| != 2 || parts[0] != lines[i].key { return None; }
      if !ValidValue(lines[i].field, parts[1]) { return None; }
      PrefixedSnoc(out, parts[1], ParseLines(lines[i + 1..], ls[i + 1..]));
      out := out + [parts[1]];
    }
    assert lines[|lines|..] == [] && ls[|lines|..] == [] && out + [] == out;
    r := Some(out);
  }

  function Prefixed(out: seq<string>, r: Option<seq<string>>): Option<seq<string>> {
    if r.None? then None else Some(out + r.value)
  }

  lemma PrefixedSnoc(out: seq<string>, v: string, r: Option<seq<string>>)
    ensures Prefixed(out + [v], r) == Prefixed(out, if r.None? then None else Some([v] + r.value))
  {
    if r.Some? { assert out + [v] + r.value == out + ([v] + r.value); }
  }

  /** Keys are plain words and values are valid: nothing in a line can be taken for a separator. */
  ghost predicate Sound(lines: seq<Line>, values: seq<string>) {
    |lines| == |values| && forall i :: 0 <= i < |lines| ==>
      lines[i].key != "" && ' ' !in lines[i].key && '\n' !in lines[i].key && ValidValue(lines[i].field, values[i])
  }

  lemma VersionChars(v: string, c: char)
    requires ValidVersion(v) && !IsDigit(c) && c != '.'
    ensures c !in v
  {
    var parts := Lines.Split(v, '.');
    Lines.JoinSplit(v, '.');
    Lines.JoinStep(parts, '.');
    Lines.JoinStep(parts[1..], '.');
    assert parts[1..][1..] == [parts[2]];
    assert v == parts[0] + ['.'] + (parts[1] + ['.'] + parts[2]);
    forall i | 0 <= i < |v| ensures v[i] != c {
      assert v[i] in parts[0] || v[i] == '.' || v[i] in parts[1] || v[i] in parts[2];
    }
  }

  lemma ValueChars(field: Field, v: string)
    requires ValidValue(field, v)
    ensures ' ' !in v && '\n' !in v && '\r' !in v
  {
    if field == VersionField { VersionChars(v, ' '); VersionChars(v, '\n'); VersionChars(v, '\r'); }
  }

  lemma LineReadsBack(line: Line, v: string)
    requires line.key != "" && ' ' !in line.key && '\n' !in line.key && ValidValue(line.field, v)
    ensures ParseLine(line, line.key + " " + v) == Some(v) && '\n' !in line.key + " " + v
  {
    ValueChars(line.field, v);
    assert [line.key, v][1..] == [v] && Lines.Join([line.key, v], ' ') == line.key + " " + v;
    Lines.SplitJoin([line.key, v], ' ');
  }

  /** The lines of a rendered text. */
  function Texts(lines: seq<Line>, values: seq<string>): seq<string>
    requires |lines| == |values|
  {
    seq(|lines|, i requires 0 <= i < |lines| => lines[i].key + " " + values[i])
  }

  lemma {:induction false} RenderIsJoin(lines: seq<Line>, values: seq<string>)
    requires |lines| == |values|
    ensures Render(lines, values) == Lines.Join(Texts(lines, values) + [""], '\n')
  {
    var ts := Texts(lines, values) + [""];
    if lines != [] {
      RenderIsJoin(lines[1..], values[1..]);
      assert ts[1..] == Texts(lines[1..], values[1..]) + [""];
    }
  }

  lemma {:induction false} ParseTexts(lines: seq<Line>, values: seq<string>)
    requires Sound(lines, values)
    ensures ParseLines(lines, Texts(lines, values)) == Some(values)
  {
    if lines != [] {
      ParseTexts(lines[1..], values[1..]);
      assert Texts(lines, values)[1..] == Texts(lines[1..], values[1..]);
      LineReadsBack(lines[0], values[0]);
      assert [values[0]] + values[1..] == values;
    }
  }

  /** The strict parser inverts the rendering. */
  lemma StampReadsBack(lines: seq<Line>, values: seq<string>)
    requires Sound(lines, values)
    ensures ParseKv(lines, Render(lines, values)) == Some(values)
  {
    var ts := Texts(lines, values) + [""];
    RenderIsJoin(lines, values);
    forall i | 0 <= i < |ts| ensures '\n' !in ts[i] {
      if i < |lines| { LineReadsBack(lines[i], values[i]); }
    }
    Lines.SplitJoin(ts, '\n');
    assert ts[..|ts| - 1] == Texts(lines, values);
    ParseTexts(lines, values);
  }

  lemma {:induction false} ParseLinesMeans(lines: seq<Line>, texts: seq<string>)
    requires |lines| == |texts| && ParseLines(lines, texts).Some?
    ensures var vs := ParseLines(lines, texts).value;
            && |vs| == |lines| && texts == Texts(lines, vs)
            && forall i :: 0 <= i < |lines| ==> ValidValue(lines[i].field, vs[i])
  {
    if lines != [] {
      ParseLinesMeans(lines[1..], texts[1..]);
      var v := ParseLine(lines[0], texts[0]).value;
      var parts := Lines.Split(texts[0], ' ');
      Lines.JoinSplit(texts[0], ' ');
      assert parts == [lines[0].key, v] && parts[1..] == [v];
      assert texts[0] == lines[0].key + " " + v;
      assert texts == [texts[0]] + texts[1..];
    }
  }

  /** What the parser accepts is a rendering of what it returns, with or without the final newline. */
  lemma ParsedIsRendered(lines: seq<Line>, text: string)
    requires ParseKv(lines, text).Some? && lines != []
    ensures var vs := ParseKv(lines, text).value;
            |vs| == |lines| && (Render(lines, vs) == text || Render(lines, vs) == text + "\n")
  {
    var ls := Lines.Split(text, '\n');
    var vs := ParseKv(lines, text).value;
    ParseLinesMeans(lines, TextLines(text));
    Lines.JoinSplit(text, '\n');
    RenderIsJoin(lines, vs);
    if ls[|ls| - 1] == "" {
      assert ls == ls[..|ls| - 1] + [""];
    } else {
      JoinEmpty(ls);
    }
  }

  lemma {:induction false} JoinEmpty(ls: seq<string>)
    requires |ls| > 0
    ensures Lines.Join(ls + [""], '\n') == Lines.Join(ls, '\n') + "\n"
  {
    var more := ls + [""];
    assert more[1..] == ls[1..] + [""];
    if |ls| > 1 {
      JoinEmpty(ls[1..]);
      Lines.JoinStep(more, '\n');
      Lines.JoinStep(ls, '\n');
    }
  }

  function Num(s: string): nat
    decreases |s|
  {
    if s == "" then 0
    else 10 * Num(s[..|s| - 1]) + if IsDigit(s[|s| - 1]) then s[|s| - 1] as int - '0' as int else 0
  }

  /** The parts of a version as numbers. */
  function VKey(v: string): seq<nat> {
    var parts := Lines.Split(v, '.'); seq(|parts|, i requires 0 <= i < |parts| => Num(parts[i]))
  }

  predicate Before(a: seq<nat>, b: seq<nat>) {
    b != [] && (a == [] || a[0] < b[0] || (a[0] == b[0] && Before(a[1..], b[1..])))
  }

  // ---- Trees ----

  function Find(t: Tree, path: seq<string>): Option<string> {
    if t == [] then None else if t[0].path == path then Some(t[0].content) else Find(t[1..], path)
  }

  /** `copytree` with its ignore patterns. */
  function Taken(t: Tree): Tree {
    if t == [] then [] else (if Copied(t[0].path) then [t[0]] else []) + Taken(t[1..])
  }

  function ReadVersion(t: Tree): Option<string> {
    match Find(t, [VERSION])
    case None => None
    case Some(text) => var v := Strip(ReadText(text)); if ValidVersion(v) then Some(v) else None
  }

  // ---- One copy ----

  predicate UpToDate(h: Hash, dst: Option<Tree>, version: string, digest: string) {
    dst.Some? && TreeHash(h, dst.value) == digest
    && var stamp := Find(dst.value, [STAMP]); stamp.Some? && ReadText(stamp.value) == StampText(version, digest)
  }

  /** The copy with whether it was made anew; None when it does not have the hash of its source. */
  function CopyPart(h: Hash, src: Tree, dst: Option<Tree>, version: string, digest: string): Option<(Tree, bool)> {
    if UpToDate(h, dst, version, digest) then Some((dst.value, false))
    else
      var tmp := Taken(src);
      if TreeHash(h, tmp) != digest then None else Some((tmp + [File([STAMP], StampText(version, digest))], true))
  }

  /** No hashed file is left behind by the copy: no file named `__pycache__`, no directory named like a stamp or like
      bytecode. */
  ghost predicate Clean(t: Tree) { forall f :: f in t && Hashed(f.path) ==> Copied(f.path) }

  lemma {:induction false} TakenAre(t: Tree, f: File)
    ensures f in Taken(t) <==> f in t && Copied(f.path)
  {
    if t != [] {
      TakenAre(t[1..], f);
      assert t == [t[0]] + t[1..];
    }
  }

  lemma {:induction false} TakenWellFormed(t: Tree)
    requires WellFormed(t)
    ensures WellFormed(Taken(t))
  {
    if t != [] {
      TakenWellFormed(t[1..]);
      var rest := Taken(t[1..]);
      forall i | 0 <= i < |rest| ensures rest[i].path != t[0].path {
        assert rest[i] in rest;
        TakenAre(t[1..], rest[i]);
      }
    }
  }

  /** A stamp put beside the files changes nothing for the hash, and is found. */
  lemma StampIgnored(h: Hash, tmp: Tree, text: string)
    requires WellFormed(tmp) && forall i :: 0 <= i < |tmp| ==> tmp[i].path != [STAMP]
    ensures TreeHash(h, tmp + [File([STAMP], text)]) == TreeHash(h, tmp)
    ensures Find(tmp + [File([STAMP], text)], [STAMP]) == Some(text)
  {
    var f := File([STAMP], text);
    StampIsSegment();
    AppendWellFormed(tmp, f);
    assert forall g: File :: Hashed(g.path) ==> (g in tmp + [f] <==> g in tmp);
    WalkOrderIsIrrelevant(h, tmp + [f], tmp);
    FindLast(tmp, f);
  }

  lemma StampIsSegment()
    ensures Segment(STAMP) && !Hashed([STAMP])
  {
    assert Skipped([STAMP][0]);
  }

  lemma AppendWellFormed(t: Tree, f: File)
    requires WellFormed(t) && |f.path| == 1 && Segment(f.path[0]) && forall i :: 0 <= i < |t| ==> t[i].path != f.path
    ensures WellFormed(t + [f])
  {
  }

  /** The copy of a clean tree has the hash of the tree. */
  lemma CleanCopyMatches(h: Hash, src: Tree)
    requires WellFormed(src) && Clean(src)
    ensures TreeHash(h, Taken(src)) == TreeHash(h, src)
  {
    TakenWellFormed(src);
    forall f: File | Hashed(f.path) ensures f in Taken(src) <==> f in src { TakenAre(src, f); }
    WalkOrderIsIrrelevant(h, Taken(src), src);
  }

  lemma TakenHasNoStamp(src: Tree)
    ensures forall i :: 0 <= i < |Taken(src)| ==> Taken(src)[i].path != [STAMP]
  {
    var tmp := Taken(src);
    assert Skipped([STAMP][0]) && !Copied([STAMP]);
    forall i | 0 <= i < |tmp| ensures tmp[i].path != [STAMP] { assert tmp[i] in tmp; TakenAre(src, tmp[i]); }
  }

  /** A copy is made or found exactly when it was up to date or its source is clean. */
  lemma CopySucceeds(h: Hash, src: Tree, dst: Option<Tree>, version: string)
    requires WellFormed(src) && HexOut(h) && CollisionFree(h, src, Taken(src))
    ensures CopyPart(h, src, dst, version, TreeHash(h, src)).Some?
       <==> UpToDate(h, dst, version, TreeHash(h, src)) || Clean(src)
  {
    TakenWellFormed(src);
    if Clean(src) {
      CleanCopyMatches(h, src);
    } else {
      var f :| f in src && Hashed(f.path) && !Copied(f.path);
      TakenAre(src, f);
      if TreeHash(h, Taken(src)) == TreeHash(h, src) { SameHashSameFiles(h, src, Taken(src), f); }
    }
  }

  /** The failure at one input: the tree with one file named `__pycache__`, for every hash that tells its digest input
      from the empty one. */
  lemma UncopiedExample(h: Hash, version: string)
    requires h(DigestInput(h, [File(["__pycache__"], "x")])) != h("")
    ensures var src := [File(["__pycache__"], "x")];
            WellFormed(src) && CopyPart(h, src, None, version, TreeHash(h, src)) == None
  {
    var src := [File(["__pycache__"], "x")];
    assert !Copied(src[0].path) by { assert src[0].path[0] == "__pycache__"; }
    assert Taken(src) == Taken(src[1..]) == [];
    assert DigestInput(h, []) == "";
  }

  lemma {:induction false} ReadPlain(s: string)
    requires '\r' !in s
    ensures ReadText(s) == s
    decreases |s|
  {
    if s != "" { ReadPlain(s[1..]); assert s == [s[0]] + s[1..]; }
  }

  lemma {:induction false} RenderPlain(lines: seq<Line>, values: seq<string>)
    requires Sound(lines, values) && forall i :: 0 <= i < |lines| ==> '\r' !in lines[i].key
    ensures '\r' !in Render(lines, values)
  {
    if lines != [] {
      ValueChars(lines[0].field, values[0]);
      RenderPlain(lines[1..], values[1..]);
    }
  }

  lemma StampIsPlain(version: string, digest: string)
    requires ValidVersion(version) && Hex64(digest)
    ensures ReadText(StampText(version, digest)) == StampText(version, digest)
    ensures ParseKv(STAMP_LINES, StampText(version, digest)) == Some([version, digest])
  {
    assert Sound(STAMP_LINES, [version, digest]);
    StampReadsBack(STAMP_LINES, [version, digest]);
    RenderPlain(STAMP_LINES, [version, digest]);
    ReadPlain(StampText(version, digest));
  }

  lemma {:induction false} FindLast(t: Tree, f: File)
    requires forall i :: 0 <= i < |t| ==> t[i].path != f.path
    ensures Find(t + [f], f.path) == Some(f.content)
  {
    if t == [] { assert (t + [f])[0] == f; }
    else { assert (t + [f])[0] == t[0] && (t + [f])[1..] == t[1..] + [f]; FindLast(t[1..], f); }
  }

  lemma StampedIsUpToDate(h: Hash, src: Tree, version: string, digest: string)
    requires WellFormed(src) && Hex64(digest) && ValidVersion(version) && TreeHash(h, Taken(src)) == digest
    ensures UpToDate(h, Some(Taken(src) + [File([STAMP], StampText(version, digest))]), version, digest)
  {
    TakenWellFormed(src);
    TakenHasNoStamp(src);
    StampIgnored(h, Taken(src), StampText(version, digest));
    StampIsPlain(version, digest);
  }

  /** Whether made or found, a copy is up to date; it is made anew exactly when it was not. */
  lemma CopyIsUpToDate(h: Hash, src: Tree, dst: Option<Tree>, version: string)
    requires WellFormed(src) && HexOut(h) && ValidVersion(version)
    requires CopyPart(h, src, dst, version, TreeHash(h, src)).Some?
    ensures var (t, changed) := CopyPart(h, src, dst, version, TreeHash(h, src)).value;
            UpToDate(h, Some(t), version, TreeHash(h, src)) && changed == !UpToDate(h, dst, version, TreeHash(h, src))
  {
    if !UpToDate(h, dst, version, TreeHash(h, src)) {
      StampedIsUpToDate(h, src, version, TreeHash(h, src));
    }
  }

  // ---- The repository ----

  /** An add-on directory beside the source; `valid` is whether its name, its config.yaml and its destinations pass. */
  datatype Consumer = Consumer(valid: bool, lib: Option<Tree>, skeleton: Option<Tree>)

  /** The consumers are in the order of their names. */
  datatype Repo = Repo(lib: Tree, skeleton: Tree, lock: Option<string>, consumers: seq<Consumer>)

  datatype Source = Source(version: string, lib: string, skeleton: string)

  function SourceState(h: Hash, r: Repo): Option<Source> {
    match ReadVersion(r.lib)
    case None => None
    case Some(v) => Some(Source(v, TreeHash(h, r.lib), TreeHash(h, r.skeleton)))
  }

  predicate HasStamp(t: Option<Tree>) { t.Some? && Find(t.value, [STAMP]).Some? }

  /** `discover_consumers`: one of the two stamps is there. */
  predicate Discovered(c: Consumer) { HasStamp(c.lib) || HasStamp(c.skeleton) }

  function SyncOne(h: Hash, r: Repo, src: Source, c: Consumer): Option<Consumer> {
    match CopyPart(h, r.lib, c.lib, src.version, src.lib)
    case None => None
    case Some((lib, _)) =>
      match CopyPart(h, r.skeleton, c.skeleton, src.version, src.skeleton)
      case None => None
      case Some((skeleton, _)) => Some(c.(lib := Some(lib), skeleton := Some(skeleton)))
  }

  function SyncFrom(h: Hash, r: Repo, src: Source, targets: set<nat>, i: nat): Option<Repo>
    requires i <= |r.consumers|
    decreases |r.consumers| - i
  {
    if i == |r.consumers| then Some(r)
    else if i !in targets then SyncFrom(h, r, src, targets, i + 1)
    else match SyncOne(h, r, src, r.consumers[i])
      case None => None
      case Some(c) => SyncFrom(h, r.(consumers := r.consumers[i := c]), src, targets, i + 1)
  }

  /** The consumers asked for and all that are discovered. */
  function Targets(r: Repo, asked: set<nat>): set<nat> {
    set i: nat | i < |r.consumers| && (i in asked || Discovered(r.consumers[i]))
  }

  predicate AllValid(r: Repo, targets: set<nat>) {
    forall i :: i in targets ==> i < |r.consumers| && r.consumers[i].valid
  }

  /** The whole sync with every discovered consumer included; None is an error exit. */
  function Sync(h: Hash, r: Repo, asked: set<nat>): Option<Repo> {
    if !AllValid(r, Targets(r, asked)) then None
    else match SourceState(h, r)
      case None => None
      case Some(src) =>
        match SyncFrom(h, r, src, Targets(r, asked), 0)
        case None => None
        case Some(t) =>
          var text := LockText(src.version, src.lib, src.skeleton);
          Some(if t.lock.Some? && ReadText(t.lock.value) == text then t else t.(lock := Some(text)))
  }

  // ---- The check ----

  /** The failures of one copy; None is an error exit (an unreadable VERSION in the copy). */
  function CheckPart(h: Hash, dst: Option<Tree>, version: string, digest: string, strict: bool,
      isLib: bool): Option<nat>
  {
    if !HasStamp(dst) then Some(1)
    else match ParseKv(STAMP_LINES, ReadText(Find(dst.value, [STAMP]).value))
      case None => Some(1)
      case Some(stamp) =>
        if |stamp| != 2 || TreeHash(h, dst.value) != stamp[1] then Some(1)
        else if isLib && ReadVersion(dst.value).None? then None
        else if isLib && ReadVersion(dst.value).value != stamp[0] then Some(1)
        else if VKey(stamp[0]) == VKey(version) then Some(if stamp[1] != digest then 1 else 0)
        else if Before(VKey(stamp[0]), VKey(version)) then Some(if strict then 1 else 0)
        else Some(1)
  }

  /** The failures of one consumer. */
  function CheckOne(h: Hash, src: Source, strict: bool, c: Consumer): Option<nat> {
    if !Discovered(c) then Some(0)
    else if !c.valid then None
    else
      match CheckPart(h, c.lib, src.version, src.lib, strict, true)
      case None => None
      case Some(n) => Plus(n, CheckPart(h, c.skeleton, src.version, src.skeleton, strict, false))
  }

  function Counts(h: Hash, r: Repo, src: Source, strict: bool): seq<Option<nat>> {
    seq(|r.consumers|, i requires 0 <= i < |r.consumers| => CheckOne(h, src, strict, r.consumers[i]))
  }

  function Tally(counts: seq<Option<nat>>, i: nat): Option<nat>
    requires i <= |counts|
    decreases |counts| - i
  {
    if i == |counts| then Some(0) else if counts[i].None? then None else Plus(counts[i].value, Tally(counts, i + 1))
  }

  /** The number of failures; the exit code is 0 when there is none. */
  function Check(h: Hash, r: Repo, strict: bool): Option<nat> {
    match SourceState(h, r)
    case None => None
    case Some(src) =>
      var lock := if r.lock.None? then None else ParseKv(LOCK_LINES, ReadText(r.lock.value));
      var fails := if lock == Some([src.version, src.lib, src.skeleton]) then 0 else 1;
      Plus(fails, Tally(Counts(h, r, src, strict), 0))
  }

  function Plus(n: nat, r: Option<nat>): Option<nat> { if r.None? then None else Some(n + r.value) }

  // ---- A release ----

  function WithVersion(t: Tree, text: string): Tree {
    if t == [] then []
    else [if t[0].path == [VERSION] then t[0].(content := text) else t[0]] + WithVersion(t[1..], text)
  }

  /** Three numbers without leading zeros. */
  predicate Releasable(v: string) {
    ValidVersion(v) && var parts := Lines.Split(v, '.');
    forall i :: 0 <= i < |parts| ==> |parts[i]| > 1 ==> parts[i][0] != '0'
  }

  /** The library of the consumer is there and newer. */
  predicate Newer(c: Consumer, v: string) {
    c.lib.Some? && ReadVersion(c.lib.value).Some? && Before(VKey(v), VKey(ReadVersion(c.lib.value).value))
  }

  /** Whether a release may start: nothing goes backwards, and a version is not reused for changed files. */
  predicate MayRelease(h: Hash, r: Repo, v: string) {
    Releasable(v) && SourceState(h, r).Some? && Advances(r, SourceState(h, r).value, v)
    && AllValid(r, Targets(r, {}))
    && forall i :: 0 <= i < |r.consumers| && Discovered(r.consumers[i]) && r.consumers[i].lib.Some? ==>
         ReadVersion(r.consumers[i].lib.value).Some? && !Newer(r.consumers[i], v)
  }

  predicate Advances(r: Repo, src: Source, v: string) {
    && !Before(VKey(v), VKey(src.version))
    && (v == src.version ==> r.lock.Some? && ReadText(r.lock.value) == LockText(src.version, src.lib, src.skeleton))
  }

  /** The repository after a release; None is an error exit. */
  function Release(h: Hash, r: Repo, v: string): Option<Repo> {
    if !MayRelease(h, r, v) then None
    else Sync(h, if v == SourceState(h, r).value.version then r else r.(lib := WithVersion(r.lib, v + "\n")), {})
  }

  // ---- The program ----

  class Tool {
    const h: Hash
    var r: Repo

    constructor (h: Hash, r: Repo)
      ensures this.h == h && this.r == r
    {
      this.h, this.r := h, r;
    }

    /** `do_sync` with all consumers; after an error the repository may be partly synced. */
    method DoSync(asked: set<nat>) returns (ok: bool)
      modifies this`r
      ensures ok == Sync(h, old(r), asked).Some? && (ok ==> r == Sync(h, old(r), asked).value)
    {
      var targets := Targets(r, asked);
      if !AllValid(r, targets) { return false; }
      var source := SourceState(h, r);
      if source.None? { return false; }
      var src := source.value;
      var n := |r.consumers|;
      for i := 0 to n
        invariant |r.consumers| == |old(r).consumers| && r == old(r).(consumers := r.consumers)
        invariant SyncFrom(h, r, src, targets, i) == SyncFrom(h, old(r), src, targets, 0)
      {
        if i !in targets { continue; }
        var done := SyncConsumer(i, src);
        if !done { return false; }
      }
      var newLock := LockText(src.version, src.lib, src.skeleton);
      if r.lock.None? || ReadText(r.lock.value) != newLock {
        r := r.(lock := Some(newLock));
      }
      ok := true;
    }

    /** `do_check`: the failures, counted consumer by consumer; None is an error exit. */
    method DoCheck(strict: bool) returns (fails: Option<nat>)
      ensures fails == Check(h, r, strict)
    {
      var source := SourceState(h, r);
      if source.None? { return None; }
      var src := source.value;
      var lock := if r.lock.None? then None else ParseKv(LOCK_LINES, ReadText(r.lock.value));
      var stale := if lock == Some([src.version, src.lib, src.skeleton]) then 0 else 1;
      fails := CheckConsumers(src, strict);
      if fails.Some? { fails := Some(stale + fails.value); }
    }

    method CheckConsumers(src: Source, strict: bool) returns (fails: Option<nat>)
      ensures fails == Tally(Counts(h, r, src, strict), 0)
    {
      var counts := CheckEach(src, strict);
      fails := Sum(counts);
    }

    method CheckEach(src: Source, strict: bool) returns (counts: seq<Option<nat>>)
      ensures counts == Counts(h, r, src, strict)
    {
      counts := [];
      for i := 0 to |r.consumers|
        invariant |counts| == i && forall j :: 0 <= j < i ==> counts[j] == CheckOne(h, src, strict, r.consumers[j])
      {
        var one := CheckConsumer(src, r.consumers[i], strict);
        counts := counts + [one];
      }
    }

    method Sum(counts: seq<Option<nat>>) returns (fails: Option<nat>)
      ensures fails == Tally(counts, 0)
    {
      var n := 0;
      for i := 0 to |counts|
        invariant Tally(counts, 0) == Plus(n, Tally(counts, i))
      {
        if counts[i].None? { return None; }
        n := n + counts[i].value;
      }
      fails := Some(n);
    }

    method CheckConsumer(src: Source, c: Consumer, strict: bool) returns (n: Option<nat>)
      ensures n == CheckOne(h, src, strict, c)
    {
      if !Discovered(c) { return Some(0); }
      if !c.valid { return None; }
      var a := CheckPart(h, c.lib, src.version, src.lib, strict, true);
      if a.None? { return None; }
      var b := CheckPart(h, c.skeleton, src.version, src.skeleton, strict, false);
      if b.None? { return None; }
      n := Some(a.value + b.value);
    }

    method SyncConsumer(i: nat, src: Source) returns (ok: bool)
      requires i < |r.consumers|
      modifies this`r
      ensures ok == SyncOne(h, old(r), src, old(r).consumers[i]).Some?
      ensures ok ==>
                r == old(r).(consumers := old(r).consumers[i := SyncOne(h, old(r), src, old(r).consumers[i]).value])
    {
      var c := r.consumers[i];
      var lib := CopyPart(h, r.lib, c.lib, src.version, src.lib);
      if lib.None? { return false; }
      c := c.(lib := Some(lib.value.0));
      r := r.(consumers := r.consumers[i := c]);
      var skeleton := CopyPart(h, r.skeleton, c.skeleton, src.version, src.skeleton);
      if skeleton.None? { return false; }
      c := c.(skeleton := Some(skeleton.value.0));
      r := r.(consumers := r.consumers[i := c]);
      ok := true;
    }
  }

  // ---- Sync establishes the check ----

  /** Both copies of the consumer are up to date. */
  ghost predicate Synced(h: Hash, src: Source, c: Consumer) {
    UpToDate(h, c.lib, src.version, src.lib) && UpToDate(h, c.skeleton, src.version, src.skeleton)
  }

  ghost predicate GoodSource(h: Hash, r: Repo, src: Source) {
    WellFormed(r.lib) && WellFormed(r.skeleton) && HexOut(h) && SourceState(h, r) == Some(src)
  }

  lemma SyncOneSyncs(h: Hash, r: Repo, src: Source, c: Consumer)
    requires GoodSource(h, r, src) && SyncOne(h, r, src, c).Some?
    ensures Synced(h, src, SyncOne(h, r, src, c).value) && SyncOne(h, r, src, c).value.valid == c.valid
    ensures Synced(h, src, c) ==> SyncOne(h, r, src, c).value == c
  {
    CopyIsUpToDate(h, r.lib, c.lib, src.version);
    CopyIsUpToDate(h, r.skeleton, c.skeleton, src.version);
  }

  lemma {:induction false} SyncFromShape(h: Hash, r: Repo, src: Source, targets: set<nat>, i: nat)
    requires i <= |r.consumers| && SyncFrom(h, r, src, targets, i).Some?
    ensures var t := SyncFrom(h, r, src, targets, i).value;
            t == r.(consumers := t.consumers) && |t.consumers| == |r.consumers|
    decreases |r.consumers| - i
  {
    if i < |r.consumers| {
      SyncFromShape(h, AfterOne(h, r, src, targets, i), src, targets, i + 1);
    }
  }

  /** The repository after the turn of consumer `i`. */
  ghost function AfterOne(h: Hash, r: Repo, src: Source, targets: set<nat>, i: nat): Repo
    requires i < |r.consumers|
  {
    var c := SyncOne(h, r, src, r.consumers[i]);
    if i in targets && c.Some? then r.(consumers := r.consumers[i := c.value]) else r
  }

  lemma {:induction false} SyncFromAt(h: Hash, r: Repo, src: Source, targets: set<nat>, i: nat, j: nat)
    requires i <= |r.consumers| && j < |r.consumers| && GoodSource(h, r, src) && SyncFrom(h, r, src, targets, i).Some?
    ensures var t := SyncFrom(h, r, src, targets, i).value;
            && j < |t.consumers| && (j < i || j !in targets ==> t.consumers[j] == r.consumers[j])
            && (i <= j && j in targets ==>
                  Synced(h, src, t.consumers[j]) && t.consumers[j].valid == r.consumers[j].valid)
    decreases |r.consumers| - i
  {
    SyncFromShape(h, r, src, targets, i);
    if i < |r.consumers| {
      if i in targets { SyncOneSyncs(h, r, src, r.consumers[i]); }
      SyncFromAt(h, AfterOne(h, r, src, targets, i), src, targets, i + 1, j);
    }
  }

  lemma {:induction false} FindIsIn(t: Tree, path: seq<string>)
    ensures Find(t, path).Some? ==> File(path, Find(t, path).value) in t
  {
    if t != [] { FindIsIn(t[1..], path); }
  }

  lemma {:induction false} FindIsThere(t: Tree, f: File)
    requires WellFormed(t) && f in t
    ensures Find(t, f.path) == Some(f.content)
  {
    if t[0] != f {
      var i :| 0 <= i < |t| && t[i] == f;
      assert t[1..][i - 1] == f;
      FindIsThere(t[1..], f);
    }
  }

  /** A copy of the library that is up to date has the version of the library. */
  lemma CopiedVersion(h: Hash, src: Tree, t: Tree, version: string)
    requires WellFormed(src) && WellFormed(t) && HexOut(h) && CollisionFree(h, src, t)
    requires TreeHash(h, t) == TreeHash(h, src) && ReadVersion(src) == Some(version)
    ensures ReadVersion(t) == Some(version)
  {
    FindIsIn(src, [VERSION]);
    var f := File([VERSION], Find(src, [VERSION]).value);
    assert Hashed([VERSION]);
    SameHashSameFiles(h, src, t, f);
    FindIsThere(t, f);
  }

  lemma SyncedPasses(h: Hash, dst: Option<Tree>, version: string, digest: string, strict: bool, isLib: bool)
    requires UpToDate(h, dst, version, digest) && ValidVersion(version) && Hex64(digest)
    requires isLib ==> ReadVersion(dst.value) == Some(version)
    ensures CheckPart(h, dst, version, digest, strict, isLib) == Some(0)
  {
    StampIsPlain(version, digest);
  }

  /** Hashes tell the library apart from the copies that are there. */
  ghost predicate CopiesTellApart(h: Hash, r: Repo) {
    forall i :: 0 <= i < |r.consumers| && r.consumers[i].lib.Some? ==>
      WellFormed(r.consumers[i].lib.value) && CollisionFree(h, r.lib, r.consumers[i].lib.value)
  }

  lemma {:induction false} NoFailures(counts: seq<Option<nat>>, i: nat)
    requires i <= |counts| && forall j :: i <= j < |counts| ==> counts[j] == Some(0)
    ensures Tally(counts, i) == Some(0)
    decreases |counts| - i
  {
    if i < |counts| { NoFailures(counts, i + 1); }
  }

  lemma ConsumersPass(h: Hash, r: Repo, src: Source, strict: bool)
    requires GoodSource(h, r, src) && CopiesTellApart(h, r)
    requires forall j :: 0 <= j < |r.consumers| && Discovered(r.consumers[j]) ==>
               r.consumers[j].valid && Synced(h, src, r.consumers[j])
    ensures Tally(Counts(h, r, src, strict), 0) == Some(0)
  {
    var counts := Counts(h, r, src, strict);
    forall i | 0 <= i < |counts| ensures counts[i] == Some(0) {
      if Discovered(r.consumers[i]) { CheckOnePasses(h, r, src, strict, r.consumers[i]); }
    }
    NoFailures(counts, 0);
  }

  lemma CheckOnePasses(h: Hash, r: Repo, src: Source, strict: bool, c: Consumer)
    requires GoodSource(h, r, src) && c.valid && Synced(h, src, c)
    requires WellFormed(c.lib.value) && CollisionFree(h, r.lib, c.lib.value)
    ensures CheckOne(h, src, strict, c) == Some(0)
  {
    assert Hex64(src.lib) && Hex64(src.skeleton);
    CopiedVersion(h, r.lib, c.lib.value, src.version);
    SyncedPasses(h, c.lib, src.version, src.lib, strict, true);
    SyncedPasses(h, c.skeleton, src.version, src.skeleton, strict, false);
  }

  lemma LockIsPlain(src: Source)
    requires ValidVersion(src.version) && Hex64(src.lib) && Hex64(src.skeleton)
    ensures ReadText(LockText(src.version, src.lib, src.skeleton)) == LockText(src.version, src.lib, src.skeleton)
    ensures ParseKv(LOCK_LINES, LockText(src.version, src.lib, src.skeleton)) ==
              Some([src.version, src.lib, src.skeleton])
  {
    var values := [src.version, src.lib, src.skeleton];
    assert Sound(LOCK_LINES, values);
    StampReadsBack(LOCK_LINES, values);
    RenderPlain(LOCK_LINES, values);
    ReadPlain(Render(LOCK_LINES, values));
  }

  lemma SyncShape(h: Hash, r: Repo, asked: set<nat>, src: Source)
    requires GoodSource(h, r, src) && Sync(h, r, asked).Some?
    ensures var t := Sync(h, r, asked).value;
            && t == r.(consumers := t.consumers, lock := t.lock) && |t.consumers| == |r.consumers|
            && (forall j :: 0 <= j < |t.consumers| && Discovered(t.consumers[j]) ==>
                  t.consumers[j].valid && Synced(h, src, t.consumers[j]))
            && t.lock.Some? && ReadText(t.lock.value) == LockText(src.version, src.lib, src.skeleton)
  {
    var targets := Targets(r, asked);
    SyncFromShape(h, r, src, targets, 0);
    forall j | 0 <= j < |r.consumers| ensures
      var t := SyncFrom(h, r, src, targets, 0).value;
      |t.consumers| == |r.consumers| && (j !in targets ==> t.consumers[j] == r.consumers[j])
      && (j in targets ==> Synced(h, src, t.consumers[j]) && t.consumers[j].valid == r.consumers[j].valid)
    {
      SyncFromAt(h, r, src, targets, 0, j);
    }
    assert Hex64(src.lib) && Hex64(src.skeleton);
    LockIsPlain(src);
  }

  /** After a sync of all consumers the check, strict or not, finds nothing. */
  lemma SyncMakesCheckPass(h: Hash, r: Repo, asked: set<nat>, strict: bool)
    requires WellFormed(r.lib) && WellFormed(r.skeleton) && HexOut(h) && Sync(h, r, asked).Some?
    requires CopiesTellApart(h, Sync(h, r, asked).value)
    ensures Check(h, Sync(h, r, asked).value, strict) == Some(0)
  {
    var src := SourceState(h, r).value;
    var t := Sync(h, r, asked).value;
    SyncShape(h, r, asked, src);
    assert Hex64(src.lib) && Hex64(src.skeleton);
    LockIsPlain(src);
    assert GoodSource(h, t, src);
    ConsumersPass(h, t, src, strict);
  }

  lemma {:induction false} SyncFromQuiet(h: Hash, r: Repo, src: Source, targets: set<nat>, i: nat)
    requires i <= |r.consumers| && forall j :: i <= j < |r.consumers| && j in targets ==> Synced(h, src, r.consumers[j])
    ensures SyncFrom(h, r, src, targets, i) == Some(r)
    decreases |r.consumers| - i
  {
    if i < |r.consumers| {
      if i in targets { assert r.consumers[i := r.consumers[i]] == r.consumers; }
      SyncFromQuiet(h, r, src, targets, i + 1);
    }
  }

  /** A repeated sync succeeds and changes nothing: no copy, no lock. */
  lemma RepeatedSyncIsQuiet(h: Hash, r: Repo, asked: set<nat>)
    requires WellFormed(r.lib) && WellFormed(r.skeleton) && HexOut(h) && Sync(h, r, asked).Some?
    ensures Sync(h, Sync(h, r, asked).value, {}) == Sync(h, r, asked)
  {
    var src := SourceState(h, r).value;
    var t := Sync(h, r, asked).value;
    SyncShape(h, r, asked, src);
    SyncFromQuiet(h, t, src, Targets(t, {}), 0);
  }

  lemma {:induction false} WithVersionPaths(t: Tree, text: string)
    ensures |WithVersion(t, text)| == |t| && forall i :: 0 <= i < |t| ==> WithVersion(t, text)[i].path == t[i].path
  {
    if t != [] { WithVersionPaths(t[1..], text); }
  }

  /** A release that gets through leaves a repository that the strict check passes, and takes back no version. */
  lemma ReleasePassesCheck(h: Hash, r: Repo, v: string)
    requires WellFormed(r.lib) && WellFormed(r.skeleton) && HexOut(h) && Release(h, r, v).Some?
    requires CopiesTellApart(h, Release(h, r, v).value)
    ensures Check(h, Release(h, r, v).value, true) == Some(0)
    ensures !Before(VKey(v), VKey(SourceState(h, r).value.version))
    ensures forall i :: 0 <= i < |r.consumers| && Discovered(r.consumers[i]) ==> !Newer(r.consumers[i], v)
  {
    WithVersionPaths(r.lib, v + "\n");
    var start := if v == SourceState(h, r).value.version then r else r.(lib := WithVersion(r.lib, v + "\n"));
    assert WellFormed(start.lib);
    SyncMakesCheckPass(h, start, {}, true);
  }
}
