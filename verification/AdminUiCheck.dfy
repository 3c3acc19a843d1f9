/** What the drift check finds, said about the files of the repository, and what a release leaves
    (internal/sync-admin-ui.py). */
module AdminUiCheck {
  import opened Strings
  import opened Wrappers
  import opened AdminUiTree
  import opened AdminUiSync
  import Lines

  // ---- Versions, stamps and locks as texts ----

  ghost predicate Numbered(v: string, a: nat, b: nat, c: nat) { exists x, y, z :: Spelled(v, x, y, z, a, b, c) }

  /** Three digit strings with points between them, and their values. */
  predicate Spelled(v: string, x: string, y: string, z: string, a: nat, b: nat, c: nat) {
    && v == x + "." + y + "." + z && IsDigits(x) && IsDigits(y) && IsDigits(z)
    && a == Whole(x) && b == Whole(y) && c == Whole(z)
  }

  ghost predicate IsVersion(v: string) { exists a, b, c :: Numbered(v, a, b, c) }

  ghost predicate SameNumbers(v: string, w: string) { exists a, b, c :: Numbered(v, a, b, c) && Numbered(w, a, b, c) }

  ghost predicate Earlier(v: string, w: string) {
    exists a, b, c, d, e, f :: Numbered(v, a, b, c) && Numbered(w, d, e, f) &&
                               (a < d || (a == d && (b < e || (b == e && c < f))))
  }

  predicate IsDigest(s: string) {
    |s| == 64 && forall i :: 0 <= i < 64 ==> '0' <= s[i] <= '9' || 'a' <= s[i] <= 'f'
  }

  /** The text as it is written, or without the final newline. */
  predicate Reads(text: string, written: string) { text == written || text + "\n" == written }

  ghost predicate StampSays(t: Tree, version: string, digest: string) {
    && Find(t, ["LIB.stamp"]).Some? && IsVersion(version) && IsDigest(digest)
    && Reads(ReadText(Find(t, ["LIB.stamp"]).value), "version " + version + "\n" + "sha256 " + digest + "\n")
  }

  ghost predicate LockSays(lock: Option<string>, version: string, lib: string, skeleton: string) {
    && lock.Some? && IsVersion(version) && IsDigest(lib) && IsDigest(skeleton)
    && Reads(ReadText(lock.value), "version " + version + "\n" + "lib " + lib + "\n" + "skeleton " + skeleton + "\n")
  }

  predicate Blanks(s: string) { forall i :: 0 <= i < |s| ==> IsSpace(s[i]) }

  /** The VERSION file holds this version and blanks around it. */
  ghost predicate HasVersion(t: Tree, v: string) {
    Find(t, ["VERSION"]).Some? && IsVersion(v) &&
    exists x, y :: Blanks(x) && Blanks(y) && ReadText(Find(t, ["VERSION"]).value) == x + v + y
  }

  // ---- What a check that finds nothing means ----

  /** The copy is what its stamp says; at the version of the source it is the source; otherwise it is an older one,
      which only the lenient check lets pass. */
  ghost predicate Fits(h: Hash, copy: Option<Tree>, version: string, digest: string, isLib: bool, strict: bool) {
    copy.Some? && exists v, d ::
      && StampSays(copy.value, v, d) && TreeHash(h, copy.value) == d && (isLib ==> HasVersion(copy.value, v))
      && if SameNumbers(v, version) then d == digest else !strict && Earlier(v, version)
  }

  predicate Stamped(t: Option<Tree>) { t.Some? && Find(t.value, ["LIB.stamp"]).Some? }

  /** The lock names version and hashes of the source, and both copies of every consumer fit. */
  ghost predicate InStep(h: Hash, r: Repo, version: string, strict: bool) {
    var lib, skeleton := TreeHash(h, r.lib), TreeHash(h, r.skeleton);
    && HasVersion(r.lib, version) && LockSays(r.lock, version, lib, skeleton)
    && forall i :: 0 <= i < |r.consumers| ==> ConsumerFits(h, r.consumers[i], version, lib, skeleton, strict)
  }

  /** A directory with one of the two stamps is valid, and both its copies fit. */
  ghost predicate ConsumerFits(h: Hash, c: Consumer, version: string, lib: string, skeleton: string, strict: bool) {
    Stamped(c.lib) || Stamped(c.skeleton) ==>
      && c.valid && Fits(h, c.lib, version, lib, true, strict) && Fits(h, c.skeleton, version, skeleton, false, strict)
  }

  // ---- Versions ----

  lemma {:induction false} NumIsWhole(s: string)
    requires forall i :: 0 <= i < |s| ==> IsDigit(s[i])
    ensures Num(s) == Whole(s)
    decreases |s|
  {
    if s != "" {
      var front := s[..|s| - 1];
      NumIsWhole(front);
      WholeSnoc(front, s[|s| - 1]);
      assert s == front + [s[|s| - 1]];
    }
  }

  lemma {:induction false} WholeSnoc(s: string, c: char)
    requires IsDigit(c)
    ensures Whole(s + [c]) == 10 * Whole(s) + (c as int - '0' as int)
  {
    if s == "" {
      assert "" + [c] == [c] && [c][1..] == "";
    } else {
      assert (s + [c])[1..] == s[1..] + [c] && (s + [c])[0] == s[0];
      WholeSnoc(s[1..], c);
      var d := if IsDigit(s[0]) then s[0] as int - '0' as int else 0;
      TenTimes(d, Pow10(|s| - 1));
    }
  }

  lemma TenTimes(d: int, p: int)
    ensures d * (10 * p) == 10 * (d * p)
  {
  }

  lemma PartsOf(v: string, x: string, y: string, z: string)
    requires v == x + "." + y + "." + z && '.' !in x && '.' !in y && '.' !in z
    ensures Lines.Split(v, '.') == [x, y, z]
  {
    var parts := [x, y, z];
    assert parts[1..] == [y, z] && parts[1..][1..] == [z];
    assert Lines.Join(parts[1..], '.') == y + ['.'] + z;
    assert Lines.Join(parts, '.') == x + ['.'] + (y + ['.'] + z) == v;
    Lines.SplitJoin(parts, '.');
  }

  lemma DigitsHaveNoPoint(s: string)
    requires IsDigits(s)
    ensures '.' !in s
  {
  }

  lemma NumberedIs(v: string, a: nat, b: nat, c: nat)
    ensures Numbered(v, a, b, c) <==> ValidVersion(v) && VKey(v) == [a, b, c]
  {
    if Numbered(v, a, b, c) {
      var x, y, z :| Spelled(v, x, y, z, a, b, c);
      DigitsHaveNoPoint(x);
      DigitsHaveNoPoint(y);
      DigitsHaveNoPoint(z);
      PartsOf(v, x, y, z);
      KeyOf(v, x, y, z);
    }
    if ValidVersion(v) && VKey(v) == [a, b, c] {
      var parts := Lines.Split(v, '.');
      Lines.JoinSplit(v, '.');
      assert parts == [parts[0], parts[1], parts[2]];
      assert parts[1..][1..] == [parts[2]];
      Lines.JoinStep(parts, '.');
      Lines.JoinStep(parts[1..], '.');
      assert v == parts[0] + ['.'] + (parts[1] + ['.'] + parts[2]);
      assert v == parts[0] + "." + parts[1] + "." + parts[2];
      KeyOf(v, parts[0], parts[1], parts[2]);
      assert Spelled(v, parts[0], parts[1], parts[2], a, b, c);
    }
  }

  lemma KeyOf(v: string, x: string, y: string, z: string)
    requires Lines.Split(v, '.') == [x, y, z] && IsDigits(x) && IsDigits(y) && IsDigits(z)
    ensures ValidVersion(v) && VKey(v) == [Whole(x), Whole(y), Whole(z)]
  {
    NumIsWhole(x);
    NumIsWhole(y);
    NumIsWhole(z);
  }

  lemma ValidIsVersion(v: string)
    ensures ValidVersion(v) <==> IsVersion(v)
  {
    if ValidVersion(v) {
      var k := VKey(v);
      assert k == [k[0], k[1], k[2]];
      NumberedIs(v, k[0], k[1], k[2]);
    }
    if IsVersion(v) {
      var a, b, c :| Numbered(v, a, b, c);
      NumberedIs(v, a, b, c);
    }
  }

  /** The version has these three numbers and no others. */
  ghost predicate HasKey(v: string, k: seq<nat>) {
    && |k| == 3 && Numbered(v, k[0], k[1], k[2])
    && forall a: nat, b: nat, c: nat :: Numbered(v, a, b, c) ==> k[0] == a && k[1] == b && k[2] == c
  }

  lemma KeyIsNumbers(v: string)
    requires ValidVersion(v)
    ensures HasKey(v, VKey(v))
  {
    var k := VKey(v);
    assert k == [k[0], k[1], k[2]];
    NumberedIs(v, k[0], k[1], k[2]);
    forall a: nat, b: nat, c: nat | Numbered(v, a, b, c) ensures k[0] == a && k[1] == b && k[2] == c {
      NumberedIs(v, a, b, c);
    }
  }

  lemma OrderOfKeys(v: string, w: string, k: seq<nat>, l: seq<nat>)
    requires HasKey(v, k) && HasKey(w, l)
    ensures k == l <==> SameNumbers(v, w)
  {
    if k == l { Together(v, w, k[0], k[1], k[2]); }
    if SameNumbers(v, w) { SameKeys(v, w, k, l); }
  }

  lemma Together(v: string, w: string, a: nat, b: nat, c: nat)
    requires Numbered(v, a, b, c) && Numbered(w, a, b, c)
    ensures SameNumbers(v, w)
  {
  }

  lemma SameKeys(v: string, w: string, k: seq<nat>, l: seq<nat>)
    requires HasKey(v, k) && HasKey(w, l) && SameNumbers(v, w)
    ensures k == l
  {
    var a, b, c :| Numbered(v, a, b, c) && Numbered(w, a, b, c);
    assert k[0] == l[0] && k[1] == l[1] && k[2] == l[2];
  }

  predicate Lower(k: seq<nat>, l: seq<nat>)
    requires |k| == |l| == 3
  {
    k[0] < l[0] || (k[0] == l[0] && (k[1] < l[1] || (k[1] == l[1] && k[2] < l[2])))
  }

  lemma LowerIsEarlier(v: string, w: string, k: seq<nat>, l: seq<nat>)
    requires HasKey(v, k) && HasKey(w, l)
    ensures Lower(k, l) ==> Earlier(v, w)
  {
  }

  lemma EarlierIsLower(v: string, w: string, k: seq<nat>, l: seq<nat>)
    requires HasKey(v, k) && HasKey(w, l) && Earlier(v, w)
    ensures Lower(k, l)
  {
    var a, b, c, d, e, f :| Numbered(v, a, b, c) && Numbered(w, d, e, f) &&
                            (a < d || (a == d && (b < e || (b == e && c < f))));
  }

  lemma OrderIs(v: string, w: string)
    requires ValidVersion(v) && ValidVersion(w)
    ensures VKey(v) == VKey(w) <==> SameNumbers(v, w)
    ensures Before(VKey(v), VKey(w)) <==> Earlier(v, w)
  {
    KeyIsNumbers(v);
    KeyIsNumbers(w);
    OrderOfKeys(v, w, VKey(v), VKey(w));
    LowerIsEarlier(v, w, VKey(v), VKey(w));
    if Earlier(v, w) { EarlierIsLower(v, w, VKey(v), VKey(w)); }
    BeforeIs(VKey(v), VKey(w));
  }

  lemma BeforeIs(k: seq<nat>, l: seq<nat>)
    requires |k| == |l| == 3
    ensures Before(k, l) <==> Lower(k, l)
  {
    assert k[1..][1..] == [k[2]] && l[1..][1..] == [l[2]];
    assert !Before([], []) && [k[2]][1..] == [] && [l[2]][1..] == [];
    assert Before([k[2]], [l[2]]) <==> k[2] < l[2];
    assert Before(k[1..], l[1..]) <==> k[1] < l[1] || (k[1] == l[1] && k[2] < l[2]);
  }

  // ---- Texts ----

  lemma StampRendered(version: string, digest: string)
    ensures Render(STAMP_LINES, [version, digest]) == "version " + version + "\n" + "sha256 " + digest + "\n"
  {
    assert STAMP_LINES[1..] == [Line("sha256", HashField)] && [version, digest][1..] == [digest];
    assert STAMP_LINES[1..][1..] == [] && [digest][1..] == [];
    assert Render(STAMP_LINES[1..], [digest]) == "sha256" + " " + digest + "\n" + "";
    assert "version" + " " == "version " && "sha256" + " " == "sha256 ";
  }

  lemma LockRendered(version: string, lib: string, skeleton: string)
    ensures Render(LOCK_LINES, [version, lib, skeleton])
         == "version " + version + "\n" + "lib " + lib + "\n" + "skeleton " + skeleton + "\n"
  {
    var vs := [version, lib, skeleton];
    assert LOCK_LINES[1..] == [Line("lib", HashField), Line("skeleton", HashField)] && vs[1..] == [lib, skeleton];
    assert LOCK_LINES[1..][1..] == [Line("skeleton", HashField)] && vs[1..][1..] == [skeleton];
    assert LOCK_LINES[1..][1..][1..] == [] && [skeleton][1..] == [];
    assert Render(LOCK_LINES[2..], [skeleton]) == "skeleton" + " " + skeleton + "\n" + "";
    assert "version" + " " == "version " && "lib" + " " == "lib " && "skeleton" + " " == "skeleton ";
  }

  ghost predicate PlainKeys(lines: seq<Line>) {
    forall i :: 0 <= i < |lines| ==> lines[i].key != "" && ' ' !in lines[i].key && '\n' !in lines[i].key
  }

  ghost predicate ValidValues(lines: seq<Line>, values: seq<string>) {
    |lines| == |values| && forall i :: 0 <= i < |lines| ==> ValidValue(lines[i].field, values[i])
  }

  /** The strict parser accepts a text exactly when it is written so. */
  lemma ParsesExactly(lines: seq<Line>, values: seq<string>, text: string)
    requires lines != [] && |values| == |lines| && PlainKeys(lines)
    ensures ParseKv(lines, text) == Some(values) <==> Reads(text, Render(lines, values)) && ValidValues(lines, values)
  {
    if ParseKv(lines, text) == Some(values) {
      ParsedIsRendered(lines, text);
      ParsedIsValid(lines, text);
    }
    if Reads(text, Render(lines, values)) && ValidValues(lines, values) { WrittenParses(lines, values, text); }
  }

  lemma WrittenParses(lines: seq<Line>, values: seq<string>, text: string)
    requires lines != [] && PlainKeys(lines) && ValidValues(lines, values) && Reads(text, Render(lines, values))
    ensures ParseKv(lines, text) == Some(values)
  {
    assert Sound(lines, values);
    StampReadsBack(lines, values);
    ParsesUnended(lines, values);
    RenderIsEnded(lines, values);
    var unended := Lines.Join(Texts(lines, values), '\n');
    if text + "\n" == unended + "\n" {
      assert (text + "\n")[..|text|] == text && (unended + "\n")[..|unended|] == unended;
    }
  }

  lemma RenderIsEnded(lines: seq<Line>, values: seq<string>)
    requires lines != [] && |values| == |lines|
    ensures Render(lines, values) == Lines.Join(Texts(lines, values), '\n') + "\n"
  {
    RenderIsJoin(lines, values);
    JoinEmpty(Texts(lines, values));
  }

  /** Without the final newline the lines are the same. */
  lemma ParsesUnended(lines: seq<Line>, values: seq<string>)
    requires lines != [] && Sound(lines, values)
    ensures ParseKv(lines, Lines.Join(Texts(lines, values), '\n')) == Some(values)
  {
    var ts := Texts(lines, values);
    forall i | 0 <= i < |ts| ensures '\n' !in ts[i] { LineReadsBack(lines[i], values[i]); }
    Lines.SplitJoin(ts, '\n');
    assert ts[|ts| - 1] != "";
    ParseTexts(lines, values);
  }

  lemma ParsedIsValid(lines: seq<Line>, text: string)
    requires ParseKv(lines, text).Some?
    ensures var vs := ParseKv(lines, text).value;
            |vs| == |lines| && forall i :: 0 <= i < |lines| ==> ValidValue(lines[i].field, vs[i])
  {
    ParseLinesMeans(lines, TextLines(text));
  }

  // ---- The program's tests say the same ----

  lemma DigestIs(s: string)
    ensures Hex64(s) <==> IsDigest(s)
  {
  }

  lemma StampIs(t: Tree, version: string, digest: string)
    ensures StampSays(t, version, digest) <==>
              && Find(t, [STAMP]).Some?
              && ParseKv(STAMP_LINES, ReadText(Find(t, [STAMP]).value)) == Some([version, digest])
  {
    if Find(t, [STAMP]).Some? {
      ParsesExactly(STAMP_LINES, [version, digest], ReadText(Find(t, [STAMP]).value));
      StampRendered(version, digest);
      ValidIsVersion(version);
      DigestIs(digest);
      assert ValidValues(STAMP_LINES, [version, digest]) <==> ValidVersion(version) && Hex64(digest);
    }
  }

  lemma ThreeValues(version: string, lib: string, skeleton: string)
    ensures ValidValues(LOCK_LINES, [version, lib, skeleton]) <==>
              ValidVersion(version) && Hex64(lib) && Hex64(skeleton)
  {
    var vs := [version, lib, skeleton];
    assert LOCK_LINES[0].field == VersionField && LOCK_LINES[1].field == HashField && LOCK_LINES[2].field == HashField;
    assert vs[0] == version && vs[1] == lib && vs[2] == skeleton;
    if ValidValues(LOCK_LINES, vs) {
      assert ValidValue(LOCK_LINES[0].field, vs[0]) && ValidValue(LOCK_LINES[1].field, vs[1]);
      assert ValidValue(LOCK_LINES[2].field, vs[2]);
    }
  }

  lemma LockIs(lock: Option<string>, version: string, lib: string, skeleton: string)
    ensures LockSays(lock, version, lib, skeleton) <==>
              lock.Some? && ParseKv(LOCK_LINES, ReadText(lock.value)) == Some([version, lib, skeleton])
  {
    if lock.Some? {
      ParsesExactly(LOCK_LINES, [version, lib, skeleton], ReadText(lock.value));
      LockRendered(version, lib, skeleton);
      ValidIsVersion(version);
      DigestIs(lib);
      DigestIs(skeleton);
      ThreeValues(version, lib, skeleton);
    }
  }

  lemma BlanksJoin(x: string, y: string)
    requires Blanks(x) && Blanks(y)
    ensures Blanks(x + y)
  {
  }

  lemma {:induction false} StripIs(s: string)
    ensures exists x, y :: Blanks(x) && Blanks(y) && s == x + Strip(s) + y
    decreases |s|
  {
    if s != "" && IsSpace(s[0]) {
      StripIs(s[1..]);
      var x, y :| Blanks(x) && Blanks(y) && s[1..] == x + Strip(s) + y;
      BlanksJoin([s[0]], x);
      assert s == ([s[0]] + x) + Strip(s) + y;
    } else if s != "" && IsSpace(s[|s| - 1]) {
      StripIs(s[..|s| - 1]);
      var x, y :| Blanks(x) && Blanks(y) && s[..|s| - 1] == x + Strip(s) + y;
      BlanksJoin(y, [s[|s| - 1]]);
      assert s == x + Strip(s) + (y + [s[|s| - 1]]);
    } else {
      assert Blanks("") && s == "" + s + "";
    }
  }

  lemma {:induction false} StripOff(x: string, v: string, y: string)
    requires Blanks(x) && Blanks(y) && v != "" && !IsSpace(v[0]) && !IsSpace(v[|v| - 1])
    ensures Strip(x + v + y) == v
    decreases |x| + |y|
  {
    var s := x + v + y;
    if x != "" {
      assert s[0] == x[0] && s[1..] == x[1..] + v + y;
      StripOff(x[1..], v, y);
    } else if y != "" {
      assert s[0] == v[0] && s[|s| - 1] == y[|y| - 1] && s[..|s| - 1] == x + v + y[..|y| - 1];
      StripOff(x, v, y[..|y| - 1]);
    } else {
      assert s == v;
    }
  }

  lemma VersionIs(t: Tree, v: string)
    ensures HasVersion(t, v) <==> ReadVersion(t) == Some(v)
  {
    ValidIsVersion(v);
    if Find(t, [VERSION]).Some? {
      var text := ReadText(Find(t, [VERSION]).value);
      StripIs(text);
      if HasVersion(t, v) {
        var x, y :| Blanks(x) && Blanks(y) && text == x + v + y;
        VersionIsInked(v);
        StripOff(x, v, y);
      }
    }
  }

  lemma VersionIsInked(v: string)
    requires ValidVersion(v)
    ensures v != "" && !IsSpace(v[0]) && !IsSpace(v[|v| - 1])
  {
    forall c | IsSpace(c) ensures c !in v { VersionChars(v, c); }
    Lines.JoinSplit(v, '.');
  }

  lemma FitsIs(h: Hash, copy: Option<Tree>, version: string, digest: string, isLib: bool, strict: bool)
    requires ValidVersion(version)
    ensures Fits(h, copy, version, digest, isLib, strict) <==>
              CheckPart(h, copy, version, digest, strict, isLib) == Some(0)
  {
    if copy.Some? && Find(copy.value, [STAMP]).Some? {
      var stamp := ParseKv(STAMP_LINES, ReadText(Find(copy.value, [STAMP]).value));
      forall v, d ensures StampSays(copy.value, v, d) <==> stamp == Some([v, d]) { StampIs(copy.value, v, d); }
      if stamp.Some? && |stamp.value| == 2 {
        var v, d := stamp.value[0], stamp.value[1];
        assert stamp.value == [v, d];
        ParsedIsValid(STAMP_LINES, ReadText(Find(copy.value, [STAMP]).value));
        OrderIs(v, version);
        VersionIs(copy.value, v);
        OneFits(h, copy.value, version, digest, isLib, strict, v, d);
      }
    } else if copy.Some? {
      forall v, d ensures !StampSays(copy.value, v, d) {}
    }
  }

  ghost predicate FitsAs(h: Hash, t: Tree, version: string, digest: string, isLib: bool, strict: bool, v: string,
      d: string)
  {
    && StampSays(t, v, d) && TreeHash(h, t) == d && (isLib ==> HasVersion(t, v))
    && if SameNumbers(v, version) then d == digest else !strict && Earlier(v, version)
  }

  lemma OneFits(h: Hash, t: Tree, version: string, digest: string, isLib: bool, strict: bool, v: string, d: string)
    requires StampSays(t, v, d) && forall w, e :: StampSays(t, w, e) ==> [w, e] == [v, d]
    ensures Fits(h, Some(t), version, digest, isLib, strict) <==> FitsAs(h, t, version, digest, isLib, strict, v, d)
  {
    assert [v, d][0] == v && [v, d][1] == d;
    forall w, e | StampSays(t, w, e) ensures w == v && e == d { assert [w, e][0] == w && [w, e][1] == e; }
  }

  // ---- The results ----

  lemma OnePasses(h: Hash, src: Source, strict: bool, c: Consumer)
    requires ValidVersion(src.version)
    ensures CheckOne(h, src, strict, c) == Some(0) <==>
              ConsumerFits(h, c, src.version, src.lib, src.skeleton, strict)
  {
    FitsIs(h, c.lib, src.version, src.lib, true, strict);
    FitsIs(h, c.skeleton, src.version, src.skeleton, false, strict);
    OneOf(h, src, strict, c);
  }

  lemma OneOf(h: Hash, src: Source, strict: bool, c: Consumer)
    ensures CheckOne(h, src, strict, c) == Some(0) <==>
              (Stamped(c.lib) || Stamped(c.skeleton) ==>
                 && c.valid && CheckPart(h, c.lib, src.version, src.lib, strict, true) == Some(0)
                 && CheckPart(h, c.skeleton, src.version, src.skeleton, strict, false) == Some(0))
  {
  }

  lemma {:induction false} NoneFails(counts: seq<Option<nat>>, i: nat)
    requires i <= |counts|
    ensures Tally(counts, i) == Some(0) <==> forall j :: i <= j < |counts| ==> counts[j] == Some(0)
    decreases |counts| - i
  {
    if i < |counts| { NoneFails(counts, i + 1); }
  }

  /** The check finds nothing exactly when lock and copies are in step with the source; the strict check when every copy
      is the source. */
  lemma CheckPassesExactly(h: Hash, r: Repo, strict: bool)
    ensures Check(h, r, strict) == Some(0) <==> exists version :: InStep(h, r, version, strict)
  {
    forall v ensures HasVersion(r.lib, v) <==> ReadVersion(r.lib) == Some(v) { VersionIs(r.lib, v); }
    if ReadVersion(r.lib).Some? {
      var src := SourceState(h, r).value;
      LockIs(r.lock, src.version, src.lib, src.skeleton);
      ConsumersInStep(h, r, src, strict);
      CheckOfSource(h, r, src, strict);
      assert Check(h, r, strict) == Some(0) <==> InStep(h, r, src.version, strict);
    }
  }

  lemma CheckOfSource(h: Hash, r: Repo, src: Source, strict: bool)
    requires SourceState(h, r) == Some(src)
    ensures Check(h, r, strict) == Some(0) <==>
              && Tally(Counts(h, r, src, strict), 0) == Some(0)
              && r.lock.Some?
              && ParseKv(LOCK_LINES, ReadText(r.lock.value)) == Some([src.version, src.lib, src.skeleton])
  {
  }

  lemma ConsumersInStep(h: Hash, r: Repo, src: Source, strict: bool)
    requires ValidVersion(src.version)
    ensures Tally(Counts(h, r, src, strict), 0) == Some(0) <==>
              forall i :: 0 <= i < |r.consumers| ==>
                ConsumerFits(h, r.consumers[i], src.version, src.lib, src.skeleton, strict)
  {
    var counts := Counts(h, r, src, strict);
    NoneFails(counts, 0);
    forall i | 0 <= i < |r.consumers|
      ensures counts[i] == Some(0) <==> ConsumerFits(h, r.consumers[i], src.version, src.lib, src.skeleton, strict)
    {
      OnePasses(h, src, strict, r.consumers[i]);
    }
  }

  /** A file that is compared: not below a `__pycache__` directory, not a stamp, not bytecode. */
  predicate IsCompared(f: File) {
    && f.path != [] && f.path[|f.path| - 1] != "LIB.stamp"
    && !(|f.path[|f.path| - 1]| >= 4 && f.path[|f.path| - 1][|f.path[|f.path| - 1]| - 4..] == ".pyc")
    && forall i :: 0 <= i < |f.path| - 1 ==> f.path[i] != "__pycache__"
  }

  /** A name that is never copied. */
  predicate IsLeftOut(name: string) {
    name == "__pycache__" || name == "LIB.stamp" || (|name| >= 4 && name[|name| - 4..] == ".pyc")
  }

  /** A copy succeeds exactly when it was up to date, or no compared file of its source has a left-out name anywhere in
      its path. */
  lemma CopiesExactly(h: Hash, src: Tree, dst: Option<Tree>, version: string)
    requires WellFormed(src) && HexOut(h) && CollisionFree(h, src, Taken(src))
    ensures CopyPart(h, src, dst, version, TreeHash(h, src)).Some? <==>
              || UpToDate(h, dst, version, TreeHash(h, src))
              || forall f, j :: f in src && IsCompared(f) && 0 <= j < |f.path| ==> !IsLeftOut(f.path[j])
  {
    CopySucceeds(h, src, dst, version);
    forall f: File ensures (Hashed(f.path) <==> IsCompared(f)) &&
                           (Copied(f.path) <==> f.path != [] && forall j :: 0 <= j < |f.path| ==> !IsLeftOut(f.path[j]))
    {
    }
  }

  /** After a strict check that finds nothing every copy holds the compared files of the source and no others. */
  lemma StrictCheckMeansSameFiles(h: Hash, r: Repo, i: nat, f: File)
    requires Check(h, r, true) == Some(0) && i < |r.consumers| && IsCompared(f)
    requires Stamped(r.consumers[i].lib) || Stamped(r.consumers[i].skeleton)
    requires HexOut(h) && WellFormed(r.lib) && WellFormed(r.skeleton)
    requires TellsApart(h, r.lib, r.consumers[i].lib) && TellsApart(h, r.skeleton, r.consumers[i].skeleton)
    ensures r.consumers[i].lib.Some? && (f in r.lib <==> f in r.consumers[i].lib.value)
    ensures r.consumers[i].skeleton.Some? && (f in r.skeleton <==> f in r.consumers[i].skeleton.value)
  {
    CheckPassesExactly(h, r, true);
    var version :| InStep(h, r, version, true);
    InStepAt(h, r, version, true, i);
    StrictFits(h, r.consumers[i].lib, version, TreeHash(h, r.lib), true);
    StrictFits(h, r.consumers[i].skeleton, version, TreeHash(h, r.skeleton), false);
    SameCompared(h, r.lib, r.consumers[i].lib.value, f);
    SameCompared(h, r.skeleton, r.consumers[i].skeleton.value, f);
  }

  /** The hash tells source and copy apart. */
  ghost predicate TellsApart(h: Hash, src: Tree, copy: Option<Tree>) {
    copy.Some? ==> WellFormed(copy.value) && CollisionFree(h, src, copy.value) && CollisionFree(h, copy.value, src)
  }

  lemma InStepAt(h: Hash, r: Repo, version: string, strict: bool, i: nat)
    requires InStep(h, r, version, strict) && i < |r.consumers|
    requires Stamped(r.consumers[i].lib) || Stamped(r.consumers[i].skeleton)
    ensures Fits(h, r.consumers[i].lib, version, TreeHash(h, r.lib), true, strict)
    ensures Fits(h, r.consumers[i].skeleton, version, TreeHash(h, r.skeleton), false, strict)
  {
  }

  lemma StrictFits(h: Hash, copy: Option<Tree>, version: string, digest: string, isLib: bool)
    requires Fits(h, copy, version, digest, isLib, true)
    ensures copy.Some? && TreeHash(h, copy.value) == digest
  {
  }

  lemma SameCompared(h: Hash, a: Tree, b: Tree, f: File)
    requires HexOut(h) && WellFormed(a) && WellFormed(b) && CollisionFree(h, a, b) && CollisionFree(h, b, a)
    requires TreeHash(h, a) == TreeHash(h, b) && IsCompared(f)
    ensures f in a <==> f in b
  {
    assert Hashed(f.path);
    if f in a { SameHashSameFiles(h, a, b, f); }
    if f in b { SameHashSameFiles(h, b, a, f); }
  }

  /** The check cannot tell, and exits with an error, exactly when the source has no version, or a consumer is not
      valid, or the library copy of one is as its stamp says but has no version. */
  lemma CheckErrsExactly(h: Hash, r: Repo, strict: bool)
    ensures Check(h, r, strict) == None <==>
              || (forall v :: !HasVersion(r.lib, v))
              || exists i :: 0 <= i < |r.consumers| && Errs(h, r.consumers[i])
  {
    forall v ensures HasVersion(r.lib, v) <==> ReadVersion(r.lib) == Some(v) { VersionIs(r.lib, v); }
    if ReadVersion(r.lib).Some? {
      var src := SourceState(h, r).value;
      var counts := Counts(h, r, src, strict);
      SomeErrs(counts, 0);
      forall i | 0 <= i < |r.consumers| ensures counts[i] == None <==> Errs(h, r.consumers[i]) {
        OneErrs(h, src, strict, r.consumers[i]);
      }
    }
  }

  ghost predicate Errs(h: Hash, c: Consumer) {
    (Stamped(c.lib) || Stamped(c.skeleton)) &&
    (!c.valid || (c.lib.Some? && (exists v, d :: StampSays(c.lib.value, v, d) && TreeHash(h, c.lib.value) == d)
                  && forall v :: !HasVersion(c.lib.value, v)))
  }

  lemma OneErrs(h: Hash, src: Source, strict: bool, c: Consumer)
    ensures CheckOne(h, src, strict, c) == None <==> Errs(h, c)
  {
    if c.lib.Some? {
      var t := c.lib.value;
      forall v ensures HasVersion(t, v) <==> ReadVersion(t) == Some(v) { VersionIs(t, v); }
      if Find(t, [STAMP]).Some? {
        var stamp := ParseKv(STAMP_LINES, ReadText(Find(t, [STAMP]).value));
        forall v, d ensures StampSays(t, v, d) <==> stamp == Some([v, d]) { StampIs(t, v, d); }
        if stamp.Some? && |stamp.value| == 2 { assert stamp.value == [stamp.value[0], stamp.value[1]]; }
      }
    }
  }

  lemma {:induction false} SomeErrs(counts: seq<Option<nat>>, i: nat)
    requires i <= |counts|
    ensures Tally(counts, i) == None <==> exists j :: i <= j < |counts| && counts[j] == None
    decreases |counts| - i
  {
    if i < |counts| { SomeErrs(counts, i + 1); }
  }

  // ---- When a sync goes through ----

  /** No compared file of the tree has a left-out name anywhere in its path. */
  ghost predicate Copyable(t: Tree) {
    forall f, j :: f in t && IsCompared(f) && 0 <= j < |f.path| ==> !IsLeftOut(f.path[j])
  }

  lemma PartIsCopied(h: Hash, src: Tree, dst: Option<Tree>, version: string)
    requires WellFormed(src) && HexOut(h) && CollisionFree(h, src, Taken(src)) && Copyable(src)
    ensures CopyPart(h, src, dst, version, TreeHash(h, src)).Some?
  {
    CopiesExactly(h, src, dst, version);
  }

  lemma {:induction false} AllAreCopied(h: Hash, r: Repo, src: Source, targets: set<nat>, i: nat)
    requires i <= |r.consumers| && src.lib == TreeHash(h, r.lib) && src.skeleton == TreeHash(h, r.skeleton)
    requires WellFormed(r.lib) && HexOut(h) && CollisionFree(h, r.lib, Taken(r.lib)) && Copyable(r.lib)
    requires WellFormed(r.skeleton) && CollisionFree(h, r.skeleton, Taken(r.skeleton)) && Copyable(r.skeleton)
    ensures SyncFrom(h, r, src, targets, i).Some?
    decreases |r.consumers| - i
  {
    if i < |r.consumers| {
      PartIsCopied(h, r.lib, r.consumers[i].lib, src.version);
      PartIsCopied(h, r.skeleton, r.consumers[i].skeleton, src.version);
      AllAreCopied(h, AfterOne(h, r, src, targets, i), src, targets, i + 1);
    }
  }

  /** Asked for, or with one of the two stamps. */
  predicate Included(r: Repo, asked: set<nat>, i: nat)
    requires i < |r.consumers|
  {
    i in asked || Stamped(r.consumers[i].lib) || Stamped(r.consumers[i].skeleton)
  }

  /** A sync goes through when the source has a version and can be copied, and all directories it includes are valid;
      then they are in step with the source, and no other directory has changed. */
  lemma SyncGoesThrough(h: Hash, r: Repo, asked: set<nat>, version: string)
    requires WellFormed(r.lib) && HexOut(h) && CollisionFree(h, r.lib, Taken(r.lib)) && Copyable(r.lib)
    requires WellFormed(r.skeleton) && CollisionFree(h, r.skeleton, Taken(r.skeleton)) && Copyable(r.skeleton)
    requires HasVersion(r.lib, version)
    requires forall i :: 0 <= i < |r.consumers| && Included(r, asked, i) ==> r.consumers[i].valid
    ensures Sync(h, r, asked).Some?
    ensures var t := Sync(h, r, asked).value;
            && t.lib == r.lib && t.skeleton == r.skeleton && |t.consumers| == |r.consumers|
            && LockSays(t.lock, version, TreeHash(h, r.lib), TreeHash(h, r.skeleton))
            && forall i :: 0 <= i < |r.consumers| ==>
                 if Included(r, asked, i)
                 then AreCopies(h, r, t.consumers[i], version)
                 else t.consumers[i] == r.consumers[i]
  {
    VersionIs(r.lib, version);
    var src := SourceState(h, r).value;
    var targets := Targets(r, asked);
    assert AllValid(r, targets);
    AllAreCopied(h, r, src, targets, 0);
    SyncShape(h, r, asked, src);
    var t := Sync(h, r, asked).value;
    LockIsPlain(src);
    LockIs(t.lock, version, src.lib, src.skeleton);
    forall i | 0 <= i < |r.consumers|
      ensures if Included(r, asked, i)
              then AreCopies(h, r, t.consumers[i], version)
              else t.consumers[i] == r.consumers[i]
    {
      SyncFromAt(h, r, src, targets, 0, i);
      if i in targets { SyncedIsCopied(h, r, src, t.consumers[i]); }
    }
  }

  /** It hashes like its source, and its stamp says so. */
  ghost predicate IsCopy(h: Hash, src: Tree, copy: Option<Tree>, version: string) {
    copy.Some? && TreeHash(h, copy.value) == TreeHash(h, src) && StampSays(copy.value, version, TreeHash(h, src))
  }

  ghost predicate AreCopies(h: Hash, r: Repo, c: Consumer, version: string) {
    IsCopy(h, r.lib, c.lib, version) && IsCopy(h, r.skeleton, c.skeleton, version)
  }

  lemma SyncedIsCopied(h: Hash, r: Repo, src: Source, c: Consumer)
    requires HexOut(h) && SourceState(h, r) == Some(src) && Synced(h, src, c)
    ensures AreCopies(h, r, c, src.version)
  {
    assert Hex64(src.lib) && Hex64(src.skeleton);
    UpToDateSays(h, c.lib.value, src.version, src.lib);
    UpToDateSays(h, c.skeleton.value, src.version, src.skeleton);
  }

  lemma UpToDateSays(h: Hash, t: Tree, version: string, digest: string)
    requires UpToDate(h, Some(t), version, digest) && ValidVersion(version) && Hex64(digest)
    ensures StampSays(t, version, digest)
  {
    StampIsPlain(version, digest);
    StampIs(t, version, digest);
  }

  // ---- A release ----

  lemma {:induction false} FindRewritten(t: Tree, text: string, path: seq<string>)
    ensures Find(WithVersion(t, text), path) ==
              if path == ["VERSION"] && Find(t, path).Some? then Some(text) else Find(t, path)
  {
    if t != [] { FindRewritten(t[1..], text, path); }
  }

  /** A release gives the library and the lock this version, changes no other file of the source, and uses a version
      again only for files that have not changed since the lock. */
  lemma ReleaseSetsVersion(h: Hash, r: Repo, v: string, path: seq<string>)
    requires HexOut(h) && WellFormed(r.lib) && WellFormed(r.skeleton) && Release(h, r, v).Some?
    ensures var t := Release(h, r, v).value;
            && HasVersion(t.lib, v) && LockSays(t.lock, v, TreeHash(h, t.lib), TreeHash(h, t.skeleton))
            && t.skeleton == r.skeleton && (path != ["VERSION"] ==> Find(t.lib, path) == Find(r.lib, path))
            && (HasVersion(r.lib, v) ==> LockSays(r.lock, v, TreeHash(h, r.lib), TreeHash(h, r.skeleton)))
  {
    var src := SourceState(h, r).value;
    var start := if v == src.version then r else r.(lib := WithVersion(r.lib, v + "\n"));
    FindRewritten(r.lib, v + "\n", ["VERSION"]);
    FindRewritten(r.lib, v + "\n", path);
    WithVersionPaths(r.lib, v + "\n");
    assert WellFormed(start.lib);
    WrittenVersion(v);
    assert ReadVersion(start.lib) == Some(v);
    SyncShape(h, start, {}, SourceState(h, start).value);
    var t := Release(h, r, v).value;
    VersionIs(t.lib, v);
    VersionIs(r.lib, v);
    assert Hex64(TreeHash(h, t.lib)) && Hex64(TreeHash(h, t.skeleton)) && Hex64(src.lib) && Hex64(src.skeleton);
    LockIsPlain(Source(v, TreeHash(h, t.lib), TreeHash(h, t.skeleton)));
    LockIs(t.lock, v, TreeHash(h, t.lib), TreeHash(h, t.skeleton));
    LockIsPlain(src);
    LockIs(r.lock, v, src.lib, src.skeleton);
  }

  /** Three numbers without leading zeros. */
  ghost predicate IsReleaseName(v: string) { exists x, y, z :: IsPlainName(v, x, y, z) }

  predicate IsPlainName(v: string, x: string, y: string, z: string) {
    && v == x + "." + y + "." + z && IsPlainNumber(x) && IsPlainNumber(y) && IsPlainNumber(z)
  }

  predicate IsPlainNumber(s: string) { IsDigits(s) && (|s| > 1 ==> s[0] != '0') }

  lemma ReleaseNameIs(v: string)
    ensures Releasable(v) <==> IsReleaseName(v)
  {
    if Releasable(v) {
      var parts := Lines.Split(v, '.');
      Lines.JoinSplit(v, '.');
      assert parts[1..][1..] == [parts[2]];
      Lines.JoinStep(parts, '.');
      Lines.JoinStep(parts[1..], '.');
      assert v == parts[0] + "." + parts[1] + "." + parts[2];
      assert IsPlainName(v, parts[0], parts[1], parts[2]);
    }
    if IsReleaseName(v) {
      var x, y, z :| IsPlainName(v, x, y, z);
      DigitsHaveNoPoint(x);
      DigitsHaveNoPoint(y);
      DigitsHaveNoPoint(z);
      PartsOf(v, x, y, z);
    }
  }

  /** What a release asks of the repository: a version of its form that is not before that of the source nor before that
      of any copy, valid directories, readable versions, and for the version of the source again an unchanged lock. */
  ghost predicate IsReleasable(h: Hash, r: Repo, v: string, old_: string) {
    && IsReleaseName(v) && HasVersion(r.lib, old_) && !Earlier(v, old_)
    && (v == old_ ==> LockIsExact(r.lock, v, TreeHash(h, r.lib), TreeHash(h, r.skeleton)))
    && forall i :: 0 <= i < |r.consumers| && Included(r, {}, i) ==>
         r.consumers[i].valid && (r.consumers[i].lib.Some? ==> NotAhead(r.consumers[i].lib.value, v))
  }

  predicate LockIsExact(lock: Option<string>, v: string, lib: string, skeleton: string) {
    && lock.Some?
    && ReadText(lock.value) == "version " + v + "\n" + "lib " + lib + "\n" + "skeleton " + skeleton + "\n"
  }

  ghost predicate NotAhead(copy: Tree, v: string) { exists w :: HasVersion(copy, w) && !Earlier(v, w) }

  lemma NotAheadIs(c: Consumer, v: string)
    requires ValidVersion(v) && c.lib.Some?
    ensures NotAhead(c.lib.value, v) <==> ReadVersion(c.lib.value).Some? && !Newer(c, v)
  {
    var t := c.lib.value;
    forall w ensures HasVersion(t, w) <==> ReadVersion(t) == Some(w) { VersionIs(t, w); }
    if ReadVersion(t).Some? { OrderIs(v, ReadVersion(t).value); }
  }

  lemma MayReleaseIs(h: Hash, r: Repo, v: string)
    ensures MayRelease(h, r, v) <==> exists old_ :: IsReleasable(h, r, v, old_)
  {
    ReleaseNameIs(v);
    forall w ensures HasVersion(r.lib, w) <==> ReadVersion(r.lib) == Some(w) { VersionIs(r.lib, w); }
    if ReadVersion(r.lib).Some? && Releasable(v) {
      var src := SourceState(h, r).value;
      OrderIs(v, src.version);
      LockRendered(src.version, src.lib, src.skeleton);
      forall i | 0 <= i < |r.consumers| && r.consumers[i].lib.Some?
        ensures NotAhead(r.consumers[i].lib.value, v) <==>
                  ReadVersion(r.consumers[i].lib.value).Some? && !Newer(r.consumers[i], v)
      {
        NotAheadIs(r.consumers[i], v);
      }
      TargetsAre(r);
      assert MayRelease(h, r, v) <==> IsReleasable(h, r, v, src.version);
    }
  }

  lemma TargetsAre(r: Repo)
    ensures AllValid(r, Targets(r, {})) <==>
              forall i :: 0 <= i < |r.consumers| && Included(r, {}, i) ==> r.consumers[i].valid
  {
    forall i: nat | i < |r.consumers| ensures i in Targets(r, {}) <==> Included(r, {}, i) {}
  }

  lemma {:induction false} StillCopyable(t: Tree, text: string)
    ensures Copyable(t) ==> Copyable(WithVersion(t, text))
  {
    WithVersionPaths(t, text);
    var u := WithVersion(t, text);
    if Copyable(t) {
      forall f, j | f in u && IsCompared(f) && 0 <= j < |f.path| ensures !IsLeftOut(f.path[j]) {
        var k :| 0 <= k < |u| && u[k] == f;
        assert t[k] in t && t[k].path == f.path;
      }
    }
  }

  /** For a source that can be copied a release goes through exactly when the repository is as it asks. */
  lemma ReleasesExactly(h: Hash, r: Repo, v: string)
    requires WellFormed(r.lib) && HexOut(h) && Copyable(r.lib) && CollisionFree(h, r.lib, Taken(r.lib))
    requires WellFormed(r.skeleton) && CollisionFree(h, r.skeleton, Taken(r.skeleton)) && Copyable(r.skeleton)
    requires var lib := WithVersion(r.lib, v + "\n"); CollisionFree(h, lib, Taken(lib))
    ensures Release(h, r, v).Some? <==> exists old_ :: IsReleasable(h, r, v, old_)
  {
    MayReleaseIs(h, r, v);
    if MayRelease(h, r, v) {
      var start := if v == SourceState(h, r).value.version then r else r.(lib := WithVersion(r.lib, v + "\n"));
      StartIsReady(h, r, v, start);
      SyncGoesThrough(h, start, {}, v);
    }
  }

  lemma StartIsReady(h: Hash, r: Repo, v: string, start: Repo)
    requires WellFormed(r.lib) && Copyable(r.lib) && MayRelease(h, r, v)
    requires start == if v == SourceState(h, r).value.version then r else r.(lib := WithVersion(r.lib, v + "\n"))
    ensures WellFormed(start.lib) && Copyable(start.lib) && HasVersion(start.lib, v)
    ensures forall i :: 0 <= i < |start.consumers| && Included(start, {}, i) ==> start.consumers[i].valid
  {
    FindRewritten(r.lib, v + "\n", ["VERSION"]);
    WithVersionPaths(r.lib, v + "\n");
    StillCopyable(r.lib, v + "\n");
    WrittenVersion(v);
    assert ReadVersion(start.lib) == Some(v);
    VersionIs(start.lib, v);
    TargetsAre(r);
  }

  lemma WrittenVersion(v: string)
    requires ValidVersion(v)
    ensures Strip(ReadText(v + "\n")) == v
  {
    VersionChars(v, '\r');
    assert '\r' !in v + "\n";
    ReadPlain(v + "\n");
    VersionIsInked(v);
    assert Blanks("") && Blanks("\n") && v + "\n" == "" + v + "\n";
    StripOff("", v, "\n");
  }
}
