/** What workflow expressions mean, said without the evaluator's own operations, and that the evaluator gives exactly
    that (internal/verify-opencode-gate.py, class Evaluator). */
module GateMeaning {
  import opened Strings
  import opened Wrappers
  import opened GateLexer
  import opened GateParser
  import opened GateGrammar
  import Lines

  // ---- Values ----

  /** Null, false, zero and the empty string. A mapping is neither truthy nor falsy: its truth is an error. */
  predicate Falsy(v: Value) { v == VNull || v == VBool(false) || v == VNum(0.0) || v == VStr("") }

  /** Booleans count as 1 and 0 beside numbers. */
  function AsNumber(v: Value): Option<real> {
    match v case VBool(b) => Some(if b then 1.0 else 0.0) case VNum(n) => Some(n) case _ => None
  }

  /** Mappings agree key by key, numbers and booleans by number, all else is the same or different. */
  predicate Alike(l: Value, r: Value)
    decreases l
  {
    if l.VDict? && r.VDict? then
      l.entries.Keys == r.entries.Keys &&
      forall k :: k in l.entries.Keys ==> k in r.entries.Keys && Alike(l.entries[k], r.entries[k])
    else if AsNumber(l).Some? && AsNumber(r).Some? then AsNumber(l) == AsNumber(r)
    else l == r
  }

  // ---- Calls ----

  /** The name is the word, in any mixture of cases. */
  predicate IsNamed(name: string, word: string) {
    |name| == |word| && forall i :: 0 <= i < |name| ==>
      name[i] == word[i] || ('A' <= name[i] <= 'Z' && name[i] as int + 32 == word[i] as int)
  }

  ghost function Called(env: Env, name: string, l: Value, r: Value): Option<Value> {
    if !l.VStr? || !r.VStr? then None
    else if IsNamed(name, "contains") then Some(VBool(exists x, y :: env.fold(l.s) == x + env.fold(r.s) + y))
    else if IsNamed(name, "startswith") then Some(VBool(exists y :: env.fold(l.s) == env.fold(r.s) + y))
    else None
  }

  // ---- Paths ----

  /** From mapping to mapping, one segment at a time. */
  ghost predicate Trail(context: Value, segments: seq<string>, vs: seq<Value>) {
    && |vs| == |segments| + 1 && vs[0] == context
    && forall i :: 0 <= i < |segments| ==>
         vs[i].VDict? && segments[i] in vs[i].entries && vs[i + 1] == vs[i].entries[segments[i]]
  }

  ghost predicate Leads(context: Value, path: string, v: Value) {
    exists segments, vs :: IsPath(segments, path) && Trail(context, segments, vs) && vs[|vs| - 1] == v
  }

  /** The path is the segments with points between them. */
  ghost predicate IsPath(segments: seq<string>, path: string) {
    segments != [] && (forall i :: 0 <= i < |segments| ==> '.' !in segments[i]) && Lines.Join(segments, '.') == path
  }

  ghost function Found(context: Value, path: string): Option<Value> {
    if exists v :: Leads(context, path, v) then
      var v :| Leads(context, path, v); Some(v)
    else None
  }

  // ---- Numbers ----

  /** The place of the first point, or the length. */
  function Point(s: string): (p: nat)
    ensures p <= |s| && (p < |s| ==> s[p] == '.') && forall i :: 0 <= i < p ==> s[i] != '.'
  {
    if s == "" || s[0] == '.' then 0 else 1 + Point(s[1..])
  }

  function Amount(s: string): real {
    var p := Point(s);
    if p == |s| then Whole(s) as real
    else Whole(s[..p]) as real + Whole(s[p + 1..]) as real / Pow10(|s| - p - 1) as real
  }

  // ---- Trees ----

  /** A tree whose numbers are decimals. */
  predicate Sound(e: Expr) {
    match e
    case Leaf(TNum(text)) => IsDecimal(text)
    case Leaf(t) => t.TStr? || t.TBool? || t.TNull?
    case Path(_) => true
    case Call(_, a, b) => Sound(a) && Sound(b)
    case NotE(a) => Sound(a)
    case EqE(op, l, r) => (op == EqEq || op == NotEq) && Sound(l) && Sound(r)
    case AndE(l, r) => Sound(l) && Sound(r)
    case OrE(l, r) => Sound(l) && Sound(r)
    case Paren(a) => Sound(a)
  }

  ghost function Meaning(env: Env, e: Expr): Option<Value> {
    match e
    case Leaf(t) =>
      (match t
       case TStr(s) => Some(VStr(s))
       case TNum(text) => Some(VNum(Amount(text)))
       case TBool(b) => Some(VBool(b))
       case TNull => Some(VNull)
       case _ => None)
    case Path(w) => Found(env.context, w)
    case Call(name, a, b) =>
      var x, y := Meaning(env, a), Meaning(env, b);
      if x.None? || y.None? then None else Called(env, name, x.value, y.value)
    case NotE(a) =>
      var x := Meaning(env, a);
      if x.None? || x.value.VDict? then None else Some(VBool(Falsy(x.value)))
    case EqE(op, a, b) =>
      var x, y := Meaning(env, a), Meaning(env, b);
      if x.None? || y.None? || x.value.VStr? != y.value.VStr? then None
      else if x.value.VStr? then Some(VBool((env.fold(x.value.s) == env.fold(y.value.s)) == (op == EqEq)))
      else Some(VBool(Alike(x.value, y.value) == (op == EqEq)))
    case AndE(a, b) =>
      var x, y := Meaning(env, a), Meaning(env, b);
      if x.None? || y.None? || x.value.VDict? then None else if Falsy(x.value) then x else y
    case OrE(a, b) =>
      var x, y := Meaning(env, a), Meaning(env, b);
      if x.None? || y.None? || x.value.VDict? then None else if Falsy(x.value) then y else x
    case Paren(a) => Meaning(env, a)
  }

  // ---- The evaluator's operations have that meaning ----

  lemma {:induction false} SameIsAlike(l: Value, r: Value)
    ensures Same(l, r) <==> Alike(l, r)
    decreases l
  {
    if l.VDict? && r.VDict? && l.entries.Keys == r.entries.Keys {
      forall k | k in l.entries.Keys ensures Same(l.entries[k], r.entries[k]) <==> Alike(l.entries[k], r.entries[k]) {
        SameIsAlike(l.entries[k], r.entries[k]);
      }
    }
  }

  lemma NamesAre(name: string)
    ensures Lower(name) == "contains" <==> IsNamed(name, "contains")
    ensures Lower(name) == "startswith" <==> IsNamed(name, "startswith")
  {
    LowerIs(name, "contains");
    LowerIs(name, "startswith");
  }

  lemma LowerIs(name: string, word: string)
    requires forall i :: 0 <= i < |word| ==> 'a' <= word[i] <= 'z'
    ensures Lower(name) == word <==> IsNamed(name, word)
  {
    var low := Lower(name);
    if low == word {
      forall i | 0 <= i < |name| ensures
        name[i] == word[i] || ('A' <= name[i] <= 'Z' && name[i] as int + 32 == word[i] as int)
      {
        assert low[i] == word[i];
      }
    }
    if IsNamed(name, word) {
      forall i | 0 <= i < |low| ensures low[i] == word[i] {}
    }
  }

  lemma WithinIs(needle: string, hay: string)
    ensures Within(needle, hay) <==> exists x, y :: hay == x + needle + y
  {
    if Within(needle, hay) {
      var k :| 0 <= k <= |hay| && needle <= hay[k..];
      assert hay == hay[..k] + needle + hay[k..][|needle|..];
    }
    if x, y :| hay == x + needle + y {
      assert hay[|x|..] == needle + y;
    }
  }

  lemma CallsAre(env: Env, name: string, l: Value, r: Value)
    ensures Apply(env, name, [l, r]) == Called(env, name, l, r)
  {
    NamesAre(name);
    if l.VStr? && r.VStr? {
      var a, b := env.fold(l.s), env.fold(r.s);
      WithinIs(b, a);
      if b <= a { assert a == b + a[|b|..]; }
      assert IsNamed(name, "contains") ==> |name| == 8;
    }
  }

  lemma {:induction false} TrailIs(v: Value, segments: seq<string>, vs: seq<Value>)
    requires Trail(v, segments, vs)
    ensures Resolve(v, segments) == Some(vs[|vs| - 1])
    decreases |segments|
  {
    if segments != [] {
      forall i | 0 <= i < |segments[1..]| ensures
        vs[1..][i].VDict? && segments[1..][i] in vs[1..][i].entries &&
        vs[1..][i + 1] == vs[1..][i].entries[segments[1..][i]]
      {
        assert vs[i + 1].VDict?;
      }
      TrailIs(vs[1], segments[1..], vs[1..]);
    }
  }

  lemma {:induction false} TrailOf(v: Value, segments: seq<string>) returns (vs: seq<Value>)
    requires Resolve(v, segments).Some?
    ensures Trail(v, segments, vs) && vs[|vs| - 1] == Resolve(v, segments).value
    decreases |segments|
  {
    if segments == [] {
      vs := [v];
    } else {
      var rest := TrailOf(v.entries[segments[0]], segments[1..]);
      vs := [v] + rest;
      forall i | 0 <= i < |segments| ensures
        vs[i].VDict? && segments[i] in vs[i].entries && vs[i + 1] == vs[i].entries[segments[i]]
      {
        if i > 0 { assert rest[i - 1].VDict? && segments[1..][i - 1] == segments[i]; }
      }
    }
  }

  lemma PathsAre(env: Env, path: string)
    ensures Lookup(env, path) == Found(env.context, path)
  {
    var segments := Lines.Split(path, '.');
    Lines.JoinSplit(path, '.');
    Lines.SplitHasNone(path, '.');
    assert IsPath(segments, path);
    forall v | Leads(env.context, path, v) ensures Lookup(env, path) == Some(v) { LeadsToOne(env, path, v); }
    if Lookup(env, path).Some? {
      var vs := TrailOf(env.context, segments);
      assert Leads(env.context, path, Lookup(env, path).value);
    }
  }

  lemma LeadsToOne(env: Env, path: string, v: Value)
    requires Leads(env.context, path, v)
    ensures Lookup(env, path) == Some(v)
  {
    var segments, vs :| IsPath(segments, path) && Trail(env.context, segments, vs) && vs[|vs| - 1] == v;
    Lines.SplitJoin(segments, '.');
    TrailIs(env.context, segments, vs);
  }

  // ---- Decimals ----

  predicate Digits(s: string) { forall k :: 0 <= k < |s| ==> IsDigit(s[k]) }

  /** Some digits behind `acc`, and the value of all. */
  ghost predicate Extends(r: real, acc: real, p: nat, w: nat) { r == acc * p as real + w as real }

  lemma {:induction false} WholePart(s: string, t: string, acc: real) returns (r: real)
    requires Digits(s)
    ensures Decimal(s + t, 0.0, acc) == Decimal(t, 0.0, r) && Extends(r, acc, Pow10(|s|), Whole(s))
    decreases |s|
  {
    if s == "" {
      r := acc;
      assert s + t == t;
    } else {
      var d := s[0] as int - '0' as int;
      assert (s + t)[0] == s[0] && (s + t)[1..] == s[1..] + t && IsDigit(s[0]) && Digit(s[0]) == d as real;
      r := WholePart(s[1..], t, 10.0 * acc + d as real);
      Shift(r, acc, d, Pow10(|s| - 1), Whole(s[1..]));
    }
  }

  lemma Shift(r: real, acc: real, d: int, p: nat, w: nat)
    requires d >= 0 && Extends(r, 10.0 * acc + d as real, p, w)
    ensures Extends(r, acc, 10 * p, d * p + w)
  {
    assert (10.0 * acc + d as real) * p as real == 10.0 * acc * p as real + d as real * p as real;
    assert (d * p) as real == d as real * p as real;
    assert (10 * p) as real == 10.0 * p as real;
  }

  /** Some digits behind the point, the first of them worth `scale`, added to `acc`. */
  ghost predicate Adds(r: real, acc: real, scale: real, p: nat, w: nat) {
    r * p as real == acc * p as real + 10.0 * scale * w as real
  }

  lemma {:induction false} FractionPart(s: string, scale: real, acc: real)
    requires Digits(s) && scale > 0.0
    ensures Adds(Decimal(s, scale, acc), acc, scale, Pow10(|s|), Whole(s))
    decreases |s|
  {
    if s != "" {
      var d := s[0] as int - '0' as int;
      assert IsDigit(s[0]) && Digit(s[0]) == d as real;
      var finer, more := scale / 10.0, acc + scale * Digit(s[0]);
      FractionPart(s[1..], finer, more);
      assert Decimal(s, scale, acc) == Decimal(s[1..], finer, more);
      assert Adds(Decimal(s[1..], finer, more), more, finer, Pow10(|s| - 1), Whole(s[1..]));
      Scaled(Decimal(s, scale, acc), acc, scale, d, Pow10(|s| - 1), Whole(s[1..]));
    }
  }

  lemma Scaled(r: real, acc: real, scale: real, d: int, p: nat, w: nat)
    requires d >= 0 && Adds(r, acc + scale * d as real, scale / 10.0, p, w)
    ensures Adds(r, acc, scale, 10 * p, d * p + w)
  {
    var q, e, x := p as real, d as real, w as real;
    assert (10 * p) as real == 10.0 * q && (d * p + w) as real == e * q + x;
    assert 10.0 * (scale / 10.0) == scale;
    assert r * q == acc * q + scale * e * q + scale * x;
    assert r * (10.0 * q) == 10.0 * (r * q);
    assert 10.0 * scale * (e * q + x) == 10.0 * (scale * e * q) + 10.0 * (scale * x);
    assert acc * (10.0 * q) == 10.0 * (acc * q);
  }

  lemma {:induction false} NoDots(s: string)
    requires Dots(s) == 0
    ensures '.' !in s
  {
    if s != "" { NoDots(s[1..]); }
  }

  lemma {:induction false} OneDot(s: string)
    requires Dots(s) <= 1 && Point(s) < |s|
    ensures '.' !in s[Point(s) + 1..]
  {
    if s[0] == '.' { NoDots(s[1..]); } else { OneDot(s[1..]); assert s[1..][Point(s[1..]) + 1..] == s[Point(s) + 1..]; }
  }

  lemma AmountIs(s: string)
    requires IsDecimal(s)
    ensures Decimal(s, 0.0, 0.0) == Amount(s)
  {
    var p := Point(s);
    var front := s[..p];
    assert Digits(front);
    assert s == front + s[p..];
    var w := WholePart(front, s[p..], 0.0);
    FromNothing(w, Pow10(|front|), Whole(front));
    if p == |s| {
      assert front == s && s[p..] == "";
    } else {
      FractionIs(s, p, w);
    }
  }

  lemma FractionIs(s: string, p: nat, w: real)
    requires IsDecimal(s) && p == Point(s) < |s|
    ensures Decimal(s[p..], 0.0, w) == w + Whole(s[p + 1..]) as real / Pow10(|s| - p - 1) as real
  {
    var back := s[p + 1..];
    OneDot(s);
    assert forall k :: 0 <= k < |back| ==> back[k] == s[p + 1 + k] && back[k] in back;
    assert Digits(back);
    assert s[p..][0] == '.' && s[p..][1..] == back;
    FractionPart(back, 0.1, w);
    Quotient(Decimal(back, 0.1, w), w, Whole(back), Pow10(|back|));
  }

  lemma FromNothing(r: real, p: nat, w: nat)
    requires Extends(r, 0.0, p, w)
    ensures r == w as real
  {
  }

  lemma Quotient(r: real, w: real, b: nat, p: nat)
    requires p > 0 && Adds(r, w, 0.1, p, b)
    ensures r == w + b as real / p as real
  {
    var q := p as real;
    assert b as real == (b as real / q) * q;
    assert (r - w) * q == (b as real / q) * q;
  }

  // ---- The evaluator gives the meaning ----

  ghost predicate Agrees(env: Env, e: Expr) { Denote(env, e) == Meaning(env, e) }

  lemma CallAgrees(env: Env, e: Expr)
    requires e.Call? && Agrees(env, e.first) && Agrees(env, e.second)
    ensures Agrees(env, e)
  {
    var x, y := Denote(env, e.first), Denote(env, e.second);
    if x.Some? && y.Some? { CallsAre(env, e.name, x.value, y.value); }
  }

  lemma NotAgrees(env: Env, e: Expr)
    requires e.NotE? && Agrees(env, e.arg)
    ensures Agrees(env, e)
  {
  }

  lemma EqAgrees(env: Env, e: Expr)
    requires e.EqE? && (e.op == EqEq || e.op == NotEq) && Agrees(env, e.left) && Agrees(env, e.right)
    ensures Agrees(env, e)
  {
    var x, y := Denote(env, e.left), Denote(env, e.right);
    if x.Some? && y.Some? { SameIsAlike(x.value, y.value); }
  }

  lemma AndAgrees(env: Env, e: Expr)
    requires e.AndE? && Agrees(env, e.left) && Agrees(env, e.right)
    ensures Agrees(env, e)
  {
  }

  lemma OrAgrees(env: Env, e: Expr)
    requires e.OrE? && Agrees(env, e.left) && Agrees(env, e.right)
    ensures Agrees(env, e)
  {
  }

  lemma LeafAgrees(env: Env, e: Expr)
    requires Sound(e) && e.Leaf?
    ensures Tree(e) && Agrees(env, e)
  {
    if e.token.TNum? { AmountIs(e.token.text); }
  }

  lemma {:induction false} MeaningIsDenote(env: Env, e: Expr)
    requires Sound(e)
    ensures Tree(e) && Agrees(env, e)
  {
    match e {
      case Leaf(t) => LeafAgrees(env, e);
      case Path(w) => PathsAre(env, w);
      case Call(name, a, b) =>
        MeaningIsDenote(env, a);
        MeaningIsDenote(env, b);
        CallAgrees(env, e);
      case NotE(a) =>
        MeaningIsDenote(env, a);
        NotAgrees(env, e);
      case EqE(op, a, b) =>
        MeaningIsDenote(env, a);
        MeaningIsDenote(env, b);
        EqAgrees(env, e);
      case AndE(a, b) =>
        MeaningIsDenote(env, a);
        MeaningIsDenote(env, b);
        AndAgrees(env, e);
      case OrE(a, b) =>
        MeaningIsDenote(env, a);
        MeaningIsDenote(env, b);
        OrAgrees(env, e);
      case Paren(a) => MeaningIsDenote(env, a);
    }
  }

  /** The tokens of a tree, with the end marker, evaluate to its meaning, and fail where it has none. */
  lemma TreeMeans(env: Env, e: Expr)
    requires Sound(e)
    ensures EvalTokens(env, Toks(e, 0) + [TEnd]) == Meaning(env, e)
  {
    MeaningIsDenote(env, e);
    TreeEvaluates(env, e);
  }

  /** The text of a tree, with any blanks that keep its tokens apart, evaluates to its meaning. */
  lemma TextMeans(env: Env, e: Expr, gaps: seq<string>)
    requires Sound(e) && |gaps| == |Toks(e, 0)| && Legible(Toks(e, 0), gaps)
    ensures Evaluate(env, Layout(Toks(e, 0), gaps)) == Meaning(env, e)
  {
    MeaningIsDenote(env, e);
    TextEvaluates(env, e, gaps);
  }

  predicate Decimals(ts: seq<Token>) { forall i :: 0 <= i < |ts| && ts[i].TNum? ==> IsDecimal(ts[i].text) }

  lemma {:induction false} LexGivesDecimals(s: string)
    requires Lex(s).Some?
    ensures Decimals(Lex(s).value)
    decreases |s|
  {
    if s != "" {
      var (piece, rest) := First(s).value;
      LexGivesDecimals(rest);
    }
  }

  lemma {:induction false} DecimalsAreSound(e: Expr, p: nat)
    requires Tree(e) && Decimals(Toks(e, p))
    ensures Sound(e)
    decreases e, Bump(e, p)
  {
    if Prec(e) < p {
      Parts([TOp(LParen)] + Toks(e, 0), [TOp(RParen)]);
      Parts([TOp(LParen)], Toks(e, 0));
      DecimalsAreSound(e, 0);
    } else {
      match e {
        case Leaf(t) => assert Toks(e, p)[0] == t;
        case Path(_) =>
        case Call(name, a, b) =>
          CallParts([TWord(name), TOp(LParen)], Toks(a, 0), [TOp(Comma)], Toks(b, 0), [TOp(RParen)]);
          DecimalsAreSound(a, 0);
          DecimalsAreSound(b, 0);
        case NotE(a) =>
          Parts([TOp(Bang)], Toks(a, 3));
          DecimalsAreSound(a, 3);
        case EqE(op, l, r) =>
          SideParts(Toks(l, 2), TOp(op), Toks(r, 3));
          DecimalsAreSound(l, 2);
          DecimalsAreSound(r, 3);
        case AndE(l, r) =>
          SideParts(Toks(l, 1), TOp(AndAnd), Toks(r, 2));
          DecimalsAreSound(l, 1);
          DecimalsAreSound(r, 2);
        case OrE(l, r) =>
          SideParts(Toks(l, 0), TOp(OrOr), Toks(r, 1));
          DecimalsAreSound(l, 0);
          DecimalsAreSound(r, 1);
        case Paren(a) =>
          Parts([TOp(LParen)] + Toks(a, 0), [TOp(RParen)]);
          Parts([TOp(LParen)], Toks(a, 0));
          DecimalsAreSound(a, 0);
      }
    }
  }

  lemma Parts(a: seq<Token>, b: seq<Token>)
    requires Decimals(a + b)
    ensures Decimals(a) && Decimals(b)
  {
    assert forall i :: 0 <= i < |a| ==> (a + b)[i] == a[i];
    assert forall i :: 0 <= i < |b| ==> (a + b)[|a| + i] == b[i];
  }

  lemma SideParts(l: seq<Token>, op: Token, r: seq<Token>)
    requires Decimals(l + [op] + r)
    ensures Decimals(l) && Decimals(r)
  {
    Parts(l + [op], r);
    Parts(l, [op]);
  }

  lemma CallParts(open: seq<Token>, a: seq<Token>, comma: seq<Token>, b: seq<Token>, close: seq<Token>)
    requires Decimals(open + a + comma + b + close)
    ensures Decimals(a) && Decimals(b)
  {
    Parts(open + a + comma + b, close);
    Parts(open + a + comma, b);
    Parts(open + a, comma);
    Parts(open, a);
  }

  /** A text gets a value exactly when its tokens are those of a tree whose meaning is that value. */
  lemma AcceptedTextsMean(env: Env, source: string, v: Value)
    ensures Evaluate(env, source) == Some(v) <==> exists e :: Says(env, source, e, v)
  {
    if Evaluate(env, source) == Some(v) {
      TextMeansATree(env, source, v);
      var e :| Tree(e) && Denote(env, e) == Some(v) && Lex(source) == Some(Toks(e, 0) + [TEnd]);
      LexedTreeMeans(env, source, e);
      assert Says(env, source, e, v);
    }
    forall e | Says(env, source, e, v) ensures Evaluate(env, source) == Some(v) { TreeMeans(env, e); }
  }

  /** The tokens of the text are those of the tree, and the tree means the value. */
  ghost predicate Says(env: Env, source: string, e: Expr, v: Value) {
    Sound(e) && Meaning(env, e) == Some(v) && Lex(source) == Some(Toks(e, 0) + [TEnd])
  }

  lemma LexedTreeMeans(env: Env, source: string, e: Expr)
    requires Tree(e) && Lex(source) == Some(Toks(e, 0) + [TEnd])
    ensures Sound(e) && Denote(env, e) == Meaning(env, e)
  {
    LexGivesDecimals(source);
    Parts(Toks(e, 0), [TEnd]);
    DecimalsAreSound(e, 0);
    MeaningIsDenote(env, e);
  }

  // ---- Chains, and the spelling of the operators ----

  /** `e0 || e1 || ... || en`. */
  function OrChain(es: seq<Expr>): Expr
    requires es != []
  {
    if |es| == 1 then es[0] else OrE(OrChain(es[..|es| - 1]), es[|es| - 1])
  }

  /** A chain of `||` gives its first truthy operand, else the last. */
  lemma {:induction false} ChainGivesFirst(env: Env, es: seq<Expr>, vs: seq<Value>, i: nat)
    requires i < |es| == |vs| && forall j :: 0 <= j < |es| ==> Meaning(env, es[j]) == Some(vs[j]) && !vs[j].VDict?
    requires (forall j :: 0 <= j < i ==> Falsy(vs[j])) && (i < |es| - 1 ==> !Falsy(vs[i]))
    ensures Meaning(env, OrChain(es)) == Some(vs[i])
    decreases |es|
  {
    if |es| > 1 {
      var n := |es| - 1;
      ChainGivesFirst(env, es[..n], vs[..n], if i < n then i else n - 1);
    }
  }

  predicate Letter(c: char) { 'a' <= c <= 'z' || 'A' <= c <= 'Z' || c == '_' }

  predicate Numeral(c: char) { '0' <= c <= '9' }

  lemma OneTokenText(t: Token, text: string)
    requires Spellable(t) && TokenText(t) == text
    ensures Lex(text) == Some([t, TEnd])
  {
    assert Layout([t][1..], [""][1..]) == "" && text + "" + "" == text;
    assert Layout([t], [""]) == text;
    assert Legible([t][1..], [""][1..]) && Apart(t, "");
    LayoutReadsBack([t], [""]);
    assert [t] + [TEnd] == [t, TEnd];
  }

  /** A word of letters, digits, underscores and points that starts with a letter or underscore is one token: a name,
      unless it is one of the three words. */
  lemma WordsLex(w: string)
    requires w != "" && Letter(w[0]) && forall i :: 0 <= i < |w| ==> Letter(w[i]) || Numeral(w[i]) || w[i] == '.'
    ensures Lex(w) == Some([if w == "true" then TBool(true) else if w == "false" then TBool(false)
                            else if w == "null" then TNull else TWord(w), TEnd])
  {
    OneTokenText(WordToken(w), w);
  }

  /** Digits with at most one point among them, the first a digit, are one number. */
  lemma NumbersLex(ip: string, fp: string, pointed: bool)
    requires ip != "" && (forall i :: 0 <= i < |ip| ==> Numeral(ip[i])) && forall i :: 0 <= i < |fp| ==> Numeral(fp[i])
    ensures var text := if pointed then ip + "." + fp else ip; Lex(text) == Some([TNum(text), TEnd])
  {
    var text := if pointed then ip + "." + fp else ip;
    DotsOf(ip);
    DotsOf(fp);
    if pointed { DotsJoin(ip, "." + fp); assert ip + "." + fp == ip + ("." + fp) && ("." + fp)[1..] == fp; }
    OneTokenText(TNum(text), text);
  }

  lemma {:induction false} DotsOf(s: string)
    requires forall i :: 0 <= i < |s| ==> Numeral(s[i])
    ensures Dots(s) == 0
  {
    if s != "" { DotsOf(s[1..]); }
  }

  lemma {:induction false} DotsJoin(s: string, t: string)
    ensures Dots(s + t) == Dots(s) + Dots(t)
  {
    if s == "" { assert s + t == t; } else { assert (s + t)[1..] == s[1..] + t; DotsJoin(s[1..], t); }
  }

  lemma OperatorsAre()
    ensures OpText(EqEq) == "==" && OpText(NotEq) == "!=" && OpText(AndAnd) == "&&" && OpText(OrOr) == "||"
    ensures OpText(Bang) == "!" && OpText(LParen) == "(" && OpText(RParen) == ")" && OpText(Comma) == ","
    ensures TokenText(TBool(true)) == "true" && TokenText(TBool(false)) == "false" && TokenText(TNull) == "null"
  {
  }
}
