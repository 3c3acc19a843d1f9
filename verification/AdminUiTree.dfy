/** The tree hash, the stamps and the version keys of the admin UI copies (internal/sync-admin-ui.py). */
module AdminUiTree {
  import opened Wrappers
  import Lines

  datatype File = File(path: seq<string>, content: string)

  /** The files below a directory in the order in which a walk meets them. */
  type Tree = seq<File>

  const STAMP := "LIB.stamp"
  const VERSION := "VERSION"

  predicate IsPyc(name: string) { |name| >= 4 && name[|name| - 4..] == ".pyc" }

  predicate Skipped(name: string) { name == STAMP || IsPyc(name) }

  /** What the hash covers: no file below a `__pycache__` directory, no stamp, no bytecode. */
  predicate Hashed(path: seq<string>) {
    path != [] && !Skipped(path[|path| - 1]) && forall i :: 0 <= i < |path| - 1 ==> path[i] != "__pycache__"
  }

  /** What a copy takes: the patterns apply to every part of the path. */
  predicate Copied(path: seq<string>) {
    path != [] && forall i :: 0 <= i < |path| ==> !Skipped(path[i]) && path[i] != "__pycache__"
  }

  predicate Segment(s: string) { s != "" && '/' !in s && '\0' !in s }

  /** Paths are made of segments and each occurs once. */
  ghost predicate WellFormed(t: Tree) {
    && (forall i :: 0 <= i < |t| ==> t[i].path != [] && forall j :: 0 <= j < |t[i].path| ==> Segment(t[i].path[j]))
    && (forall i, j :: 0 <= i < j < |t| ==> t[i].path != t[j].path)
  }

  function Rel(path: seq<string>): string { if path == [] then "" else Lines.Join(path, '/') }

  predicate IsHexDigit(c: char) { '0' <= c <= '9' || 'a' <= c <= 'f' }

  predicate Hex64(s: string) { |s| == 64 && forall i :: 0 <= i < 64 ==> IsHexDigit(s[i]) }

  type Hash = string -> string

  ghost predicate HexOut(h: Hash) { forall s :: Hex64(h(s)) }

  // ---- The tree hash ----

  datatype Entry = Entry(rel: string, hex: string)

  function Entries(h: Hash, t: Tree): seq<Entry> {
    if t == [] then []
    else (if Hashed(t[0].path) then [Entry(Rel(t[0].path), h(t[0].content))] else []) + Entries(h, t[1..])
  }

  /** The order of Python strings. */
  predicate Less(a: string, b: string)
    decreases |a|
  {
    b != "" && (a == "" || a[0] < b[0] || (a[0] == b[0] && Less(a[1..], b[1..])))
  }

  function Insert(es: seq<Entry>, e: Entry): seq<Entry> {
    if es == [] || Less(e.rel, es[0].rel) then [e] + es else [es[0]] + Insert(es[1..], e)
  }

  function Sort(es: seq<Entry>): seq<Entry> { if es == [] then [] else Insert(Sort(es[1..]), es[0]) }

  function Encode(es: seq<Entry>): string {
    if es == [] then "" else es[0].rel + "\0" + es[0].hex + "\n" + Encode(es[1..])
  }

  function DigestInput(h: Hash, t: Tree): string { Encode(Sort(Entries(h, t))) }

  function TreeHash(h: Hash, t: Tree): string { h(DigestInput(h, t)) }

  // ---- The input of the hash determines the tree ----

  ghost predicate Decodable(es: seq<Entry>) { forall i :: 0 <= i < |es| ==> '\0' !in es[i].rel && |es[i].hex| == 64 }

  /** A text up to its first NUL and 64 characters after it can be cut off in one way only. */
  lemma HeadIsUnique(a: Entry, x: string, b: Entry, y: string)
    requires '\0' !in a.rel && '\0' !in b.rel && |a.hex| == |b.hex| == 64
    requires a.rel + "\0" + a.hex + "\n" + x == b.rel + "\0" + b.hex + "\n" + y
    ensures a == b && x == y
  {
    var s := a.rel + "\0" + a.hex + "\n" + x;
    assert s[|a.rel|] == '\0' && s[|b.rel|] == '\0';
    assert forall i :: 0 <= i < |a.rel| ==> s[i] == a.rel[i];
    assert forall i :: 0 <= i < |b.rel| ==> s[i] == b.rel[i];
    assert |a.rel| == |b.rel|;
    assert a.rel == s[..|a.rel|] && b.rel == s[..|b.rel|];
    assert a.hex == s[|a.rel| + 1..|a.rel| + 65] && b.hex == s[|b.rel| + 1..|b.rel| + 65];
    assert x == s[|a.rel| + 66..] && y == s[|b.rel| + 66..];
  }

  lemma {:induction false} EncodeIsInjective(a: seq<Entry>, b: seq<Entry>)
    requires Decodable(a) && Decodable(b) && Encode(a) == Encode(b)
    ensures a == b
  {
    if a != [] && b != [] {
      HeadIsUnique(a[0], Encode(a[1..]), b[0], Encode(b[1..]));
      EncodeIsInjective(a[1..], b[1..]);
      assert a == [a[0]] + a[1..] && b == [b[0]] + b[1..];
    }
  }

  lemma {:induction false} InsertIs(es: seq<Entry>, e: Entry)
    ensures forall x :: x in Insert(es, e) <==> x == e || x in es
  {
    if es != [] && !Less(e.rel, es[0].rel) {
      InsertIs(es[1..], e);
      assert es == [es[0]] + es[1..];
    }
  }

  lemma {:induction false} SortIs(es: seq<Entry>)
    ensures forall x :: x in Sort(es) <==> x in es
  {
    if es != [] {
      SortIs(es[1..]);
      InsertIs(Sort(es[1..]), es[0]);
      assert es == [es[0]] + es[1..];
    }
  }

  /** The entries are those of the hashed files. */
  lemma {:induction false} EntriesAre(h: Hash, t: Tree, e: Entry)
    ensures e in Entries(h, t) <==> exists f :: f in t && Hashed(f.path) && e == Entry(Rel(f.path), h(f.content))
  {
    if t != [] {
      EntriesAre(h, t[1..], e);
      assert t == [t[0]] + t[1..];
      var own := if Hashed(t[0].path) then [Entry(Rel(t[0].path), h(t[0].content))] else [];
      assert e in Entries(h, t) <==> e in own || e in Entries(h, t[1..]);
      if e in own { assert t[0] in t; }
      if f :| f in t[1..] && Hashed(f.path) && e == Entry(Rel(f.path), h(f.content)) { assert f in t; }
    }
  }

  lemma RelIsInjective(p: seq<string>, q: seq<string>)
    requires p != [] && q != [] && Rel(p) == Rel(q)
    requires (forall j :: 0 <= j < |p| ==> Segment(p[j])) && (forall j :: 0 <= j < |q| ==> Segment(q[j]))
    ensures p == q
  {
    Lines.SplitJoin(p, '/');
    Lines.SplitJoin(q, '/');
  }

  lemma {:induction false} RelHasNoNul(p: seq<string>)
    requires forall j :: 0 <= j < |p| ==> Segment(p[j])
    ensures '\0' !in Rel(p)
  {
    if |p| > 1 { RelHasNoNul(p[1..]); }
  }

  lemma EntriesDecodable(h: Hash, t: Tree)
    requires HexOut(h) && WellFormed(t)
    ensures Decodable(Sort(Entries(h, t)))
  {
    var es := Sort(Entries(h, t));
    SortIs(Entries(h, t));
    forall i | 0 <= i < |es| ensures '\0' !in es[i].rel && |es[i].hex| == 64 {
      assert es[i] in es;
      EntriesAre(h, t, es[i]);
      var f :| f in t && Hashed(f.path) && es[i] == Entry(Rel(f.path), h(f.content));
      RelHasNoNul(f.path);
      assert Hex64(h(f.content));
    }
  }

  /** No two different texts that matter for these two trees have the same hash. */
  ghost predicate CollisionFree(h: Hash, a: Tree, b: Tree) {
    && (h(DigestInput(h, a)) == h(DigestInput(h, b)) ==> DigestInput(h, a) == DigestInput(h, b))
    && forall f, g :: f in a && g in b && h(f.content) == h(g.content) ==> f.content == g.content
  }

  /** The same hash means the same hashed files: same paths, same contents. */
  lemma SameHashSameFiles(h: Hash, a: Tree, b: Tree, f: File)
    requires HexOut(h) && WellFormed(a) && WellFormed(b) && CollisionFree(h, a, b)
    requires TreeHash(h, a) == TreeHash(h, b) && f in a && Hashed(f.path)
    ensures f in b
  {
    EntriesDecodable(h, a);
    EntriesDecodable(h, b);
    EncodeIsInjective(Sort(Entries(h, a)), Sort(Entries(h, b)));
    var e := Entry(Rel(f.path), h(f.content));
    EntriesAre(h, a, e);
    SortIs(Entries(h, a));
    SortIs(Entries(h, b));
    EntriesAre(h, b, e);
    var g :| g in b && Hashed(g.path) && e == Entry(Rel(g.path), h(g.content));
    RelIsInjective(f.path, g.path);
    assert f.content == g.content;
  }

  // ---- The walk order does not matter ----

  lemma {:induction false} LessIsTotal(a: string, b: string)
    ensures a != b ==> Less(a, b) || Less(b, a)
    ensures !(Less(a, b) && Less(b, a)) && !Less(a, a)
    decreases |a|
  {
    if a != "" {
      LessIsTotal(a[1..], if b == "" then "" else b[1..]);
      LessIsTotal(a[1..], a[1..]);
      if b != "" && a[0] == b[0] && a[1..] == b[1..] { assert a == [a[0]] + a[1..] && b == [b[0]] + b[1..]; }
    }
  }

  lemma {:induction false} LessIsTransitive(a: string, b: string, c: string)
    requires Less(a, b) && Less(b, c)
    ensures Less(a, c)
    decreases |a|
  {
    if a != "" && a[0] == b[0] == c[0] { LessIsTransitive(a[1..], b[1..], c[1..]); }
  }

  ghost predicate Ordered(es: seq<Entry>) { forall i, j :: 0 <= i < j < |es| ==> Less(es[i].rel, es[j].rel) }

  ghost predicate DistinctRels(es: seq<Entry>) { forall i, j :: 0 <= i < j < |es| ==> es[i].rel != es[j].rel }

  lemma {:induction false} InsertOrders(es: seq<Entry>, e: Entry)
    requires Ordered(es) && forall i :: 0 <= i < |es| ==> es[i].rel != e.rel
    ensures Ordered(Insert(es, e))
  {
    if es == [] {
    } else if Less(e.rel, es[0].rel) {
      forall i | 0 < i < |es| ensures Less(e.rel, es[i].rel) { LessIsTransitive(e.rel, es[0].rel, es[i].rel); }
    } else {
      InsertOrders(es[1..], e);
      InsertIs(es[1..], e);
      LessIsTotal(es[0].rel, e.rel);
      var tail := Insert(es[1..], e);
      forall i | 0 <= i < |tail| ensures Less(es[0].rel, tail[i].rel) { assert tail[i] in tail; }
    }
  }

  lemma {:induction false} SortOrders(es: seq<Entry>)
    requires DistinctRels(es)
    ensures Ordered(Sort(es))
  {
    if es != [] {
      SortOrders(es[1..]);
      SortIs(es[1..]);
      var rest := Sort(es[1..]);
      forall i | 0 <= i < |rest| ensures rest[i].rel != es[0].rel { assert rest[i] in rest; }
      InsertOrders(rest, es[0]);
    }
  }

  lemma {:induction false} OrderedIsUnique(a: seq<Entry>, b: seq<Entry>)
    requires Ordered(a) && Ordered(b) && forall x :: x in a <==> x in b
    ensures a == b
  {
    if a == [] {
      assert forall i :: 0 <= i < |b| ==> b[i] in b;
    } else {
      assert a[0] in a && b != [];
      var i :| 0 <= i < |b| && b[i] == a[0];
      assert b[0] in b;
      var j :| 0 <= j < |a| && a[j] == b[0];
      LessIsTotal(a[0].rel, b[0].rel);
      assert i == 0 && a[0] == b[0];
      RestsAgree(a, b);
      OrderedIsUnique(a[1..], b[1..]);
      assert a == [a[0]] + a[1..] && b == [b[0]] + b[1..];
    }
  }

  lemma RestsAgree(a: seq<Entry>, b: seq<Entry>)
    requires Ordered(a) && Ordered(b) && a != [] && b != [] && a[0] == b[0] && forall x :: x in a <==> x in b
    ensures forall x :: x in a[1..] <==> x in b[1..]
  {
    LessIsTotal(a[0].rel, a[0].rel);
    assert a[0] !in a[1..] && b[0] !in b[1..];
    forall x ensures x in a[1..] <==> x in b[1..] {
      assert x in a <==> x == a[0] || x in a[1..];
      assert x in b <==> x == b[0] || x in b[1..];
    }
  }

  lemma {:induction false} EntriesDistinct(h: Hash, t: Tree)
    requires WellFormed(t)
    ensures DistinctRels(Entries(h, t))
  {
    if t != [] {
      EntriesDistinct(h, t[1..]);
      var rest := Entries(h, t[1..]);
      forall i | 0 <= i < |rest| && Hashed(t[0].path) ensures rest[i].rel != Rel(t[0].path) {
        assert rest[i] in rest;
        EntriesAre(h, t[1..], rest[i]);
        var f :| f in t[1..] && Hashed(f.path) && rest[i] == Entry(Rel(f.path), h(f.content));
        if Rel(f.path) == Rel(t[0].path) { RelIsInjective(f.path, t[0].path); }
      }
    }
  }

  /** Two walks over the same hashed files, in any order and with anything unhashed around, give the same hash. */
  lemma WalkOrderIsIrrelevant(h: Hash, a: Tree, b: Tree)
    requires WellFormed(a) && WellFormed(b) && forall f: File :: Hashed(f.path) ==> (f in a <==> f in b)
    ensures TreeHash(h, a) == TreeHash(h, b)
  {
    EntriesDistinct(h, a);
    EntriesDistinct(h, b);
    SortOrders(Entries(h, a));
    SortOrders(Entries(h, b));
    forall e ensures e in Sort(Entries(h, a)) <==> e in Sort(Entries(h, b)) {
      SortIs(Entries(h, a));
      SortIs(Entries(h, b));
      EntriesAre(h, a, e);
      EntriesAre(h, b, e);
    }
    OrderedIsUnique(Sort(Entries(h, a)), Sort(Entries(h, b)));
  }
}
