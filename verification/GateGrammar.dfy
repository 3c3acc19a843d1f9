/** Expression trees, how they are written, what they mean, and that the evaluator finds exactly that meaning. */
module GateGrammar {
  import opened Wrappers
  import opened GateLexer
  import opened GateParser

  datatype Expr =
    | Leaf(token: Token)
    | Path(path: string)
    | Call(name: string, first: Expr, second: Expr)
    | NotE(arg: Expr)
    | EqE(op: Op, left: Expr, right: Expr)
    | AndE(left: Expr, right: Expr)
    | OrE(left: Expr, right: Expr)
    | Paren(inner: Expr)

  /** The trees there are: literals at the leaves, an equality operator at a comparison. */
  predicate Tree(e: Expr) {
    match e
    case Leaf(t) => Literal(t).Some?
    case Path(_) => true
    case Call(_, a, b) => Tree(a) && Tree(b)
    case NotE(a) => Tree(a)
    case EqE(op, l, r) => IsEqOp(TOp(op)) && Tree(l) && Tree(r)
    case AndE(l, r) => Tree(l) && Tree(r)
    case OrE(l, r) => Tree(l) && Tree(r)
    case Paren(a) => Tree(a)
  }

  /** How tightly the top of a tree binds: `||`, then `&&`, then `==` and `!=`, then `!`, then the rest. */
  function Prec(e: Expr): (p: nat)
    ensures p <= 4
  {
    match e case OrE(_, _) => 0 case AndE(_, _) => 1 case EqE(_, _, _) => 2 case NotE(_) => 3 case _ => 4
  }

  /** The tokens of a tree where level `p` is wanted: parentheses are added only where they are needed. */
  function Toks(e: Expr, p: nat): seq<Token>
    decreases e, if Prec(e) < p then 1 else 0
  {
    if Prec(e) < p then [TOp(LParen)] + Toks(e, 0) + [TOp(RParen)]
    else match e
      case Leaf(t) => [t]
      case Path(w) => [TWord(w)]
      case Call(name, a, b) => [TWord(name), TOp(LParen)] + Toks(a, 0) + [TOp(Comma)] + Toks(b, 0) + [TOp(RParen)]
      case NotE(a) => [TOp(Bang)] + Toks(a, 3)
      case EqE(op, l, r) => Toks(l, 2) + [TOp(op)] + Toks(r, 3)
      case AndE(l, r) => Toks(l, 1) + [TOp(AndAnd)] + Toks(r, 2)
      case OrE(l, r) => Toks(l, 0) + [TOp(OrOr)] + Toks(r, 1)
      case Paren(a) => [TOp(LParen)] + Toks(a, 0) + [TOp(RParen)]
  }

  /** The value of a tree. Both operands are always evaluated; `&&` and `||` return one of them. */
  function Denote(env: Env, e: Expr): Option<Value> {
    match e
    case Leaf(t) => Literal(t)
    case Path(w) => Lookup(env, w)
    case Call(name, a, b) =>
      var x, y := Denote(env, a), Denote(env, b);
      if x.None? || y.None? then None else Apply(env, name, [x.value, y.value])
    case NotE(a) => var x := Denote(env, a); if x.None? then None else Negate(x.value)
    case EqE(op, l, r) =>
      var x, y := Denote(env, l), Denote(env, r);
      if x.None? || y.None? then None else Compare(env, op, x.value, y.value)
    case AndE(l, r) =>
      var x, y := Denote(env, l), Denote(env, r); if x.None? || y.None? then None else Both(x.value, y.value)
    case OrE(l, r) =>
      var x, y := Denote(env, l), Denote(env, r); if x.None? || y.None? then None else Either(x.value, y.value)
    case Paren(a) => Denote(env, a)
  }

  // ---- Every tree is read back ----

  type Outcome = Option<(Value, seq<Token>)>

  function Give(v: Option<Value>, rest: seq<Token>): Outcome { if v.None? then None else Some((v.value, rest)) }

  predicate NoCall(t: Token) { t != TOp(LParen) }
  predicate NoEq(t: Token) { NoCall(t) && !IsEqOp(t) }
  predicate NoAnd(t: Token) { NoEq(t) && t != TOp(AndAnd) }

  function Bump(e: Expr, p: nat): nat { if Prec(e) < p then 1 else 0 }

  /** At the lowest level the rest may go on with `||`: the loop takes over with the tree's value. */
  lemma {:induction false} OrReads(env: Env, e: Expr, rest: seq<Token>)
    requires Tree(e) && NoAnd(Head(rest))
    ensures var v := Denote(env, e);
            ParseOr(env, Toks(e, 0) + rest) == if v.None? then None else OrLoop(env, v.value, rest)
    decreases e, 0, 9
  {
    if e.OrE? {
      var mid := [TOp(OrOr)] + (Toks(e.right, 1) + rest);
      assert mid[1..] == Toks(e.right, 1) + rest;
      assert Toks(e, 0) + rest == Toks(e.left, 0) + mid;
      OrReads(env, e.left, mid);
      AndReads(env, e.right, rest);
      AndStops(env, Denote(env, e.right), rest);
    } else {
      assert Toks(e, 0) == Toks(e, 1) by { SameToks(e, 0, 1); }
      AndReads(env, e, rest);
      AndStops(env, Denote(env, e), rest);
    }
  }

  lemma SameToks(e: Expr, p: nat, q: nat)
    requires p <= Prec(e) && q <= Prec(e)
    ensures Toks(e, p) == Toks(e, q)
  {
  }

  lemma AndStops(env: Env, v: Option<Value>, rest: seq<Token>)
    requires NoAnd(Head(rest))
    ensures v.Some? ==> AndLoop(env, v.value, rest) == Give(v, rest)
  {
  }

  lemma {:induction false} AndReads(env: Env, e: Expr, rest: seq<Token>)
    requires Tree(e) && NoEq(Head(rest))
    ensures var v := Denote(env, e);
            ParseAnd(env, Toks(e, 1) + rest) == if v.None? then None else AndLoop(env, v.value, rest)
    decreases e, Bump(e, 1), 8
  {
    if e.AndE? {
      var mid := [TOp(AndAnd)] + (Toks(e.right, 2) + rest);
      assert mid[1..] == Toks(e.right, 2) + rest;
      assert Toks(e, 1) + rest == Toks(e.left, 1) + mid;
      AndReads(env, e.left, mid);
      EqReads(env, e.right, rest);
    } else {
      assert Toks(e, 1) == Toks(e, 2);
      EqReads(env, e, rest);
    }
  }

  lemma {:induction false} EqReads(env: Env, e: Expr, rest: seq<Token>)
    requires Tree(e) && NoCall(Head(rest))
    ensures var v := Denote(env, e);
            ParseEquality(env, Toks(e, 2) + rest) == if v.None? then None else EqLoop(env, v.value, rest)
    decreases e, Bump(e, 2), 7
  {
    if e.EqE? {
      var mid := [TOp(e.op)] + (Toks(e.right, 3) + rest);
      assert mid[1..] == Toks(e.right, 3) + rest;
      assert Toks(e, 2) + rest == Toks(e.left, 2) + mid;
      EqReads(env, e.left, mid);
      UnaryReads(env, e.right, rest);
    } else {
      assert Toks(e, 2) == Toks(e, 3);
      UnaryReads(env, e, rest);
    }
  }

  lemma {:induction false} UnaryReads(env: Env, e: Expr, rest: seq<Token>)
    requires Tree(e) && NoCall(Head(rest))
    ensures ParseUnary(env, Toks(e, 3) + rest) == Give(Denote(env, e), rest)
    decreases e, Bump(e, 3), 6
  {
    if e.NotE? {
      assert (Toks(e, 3) + rest)[1..] == Toks(e.arg, 3) + rest;
      UnaryReads(env, e.arg, rest);
    } else {
      assert Toks(e, 3) == Toks(e, 4);
      PrimaryReads(env, e, rest);
      assert Head(Toks(e, 4) + rest) == Toks(e, 4)[0];
    }
  }

  lemma {:induction false} PrimaryReads(env: Env, e: Expr, rest: seq<Token>)
    requires Tree(e) && NoCall(Head(rest))
    ensures ParsePrimary(env, Toks(e, 4) + rest) == Give(Denote(env, e), rest)
    decreases e, Bump(e, 4), 5
  {
    var ts := Toks(e, 4) + rest;
    if Prec(e) < 4 || e.Paren? {
      ParenReads(env, if e.Paren? then e.inner else e, rest);
    } else if e.Call? {
      CallReads(env, e, rest);
    } else {
      assert ts[1..] == rest && ts[0] == Toks(e, 4)[0];
    }
  }

  lemma {:induction false} ParenReads(env: Env, e: Expr, rest: seq<Token>)
    requires Tree(e)
    ensures ParsePrimary(env, [TOp(LParen)] + Toks(e, 0) + [TOp(RParen)] + rest) == Give(Denote(env, e), rest)
    decreases e, 0, 10
  {
    var ts := [TOp(LParen)] + Toks(e, 0) + [TOp(RParen)] + rest;
    var close := [TOp(RParen)] + rest;
    assert ts[0] == TOp(LParen) && ts[1..] == Toks(e, 0) + close && close[1..] == rest;
    OrReads(env, e, close);
  }

  lemma {:induction false} CallReads(env: Env, e: Expr, rest: seq<Token>)
    requires Tree(e) && e.Call?
    ensures ParsePrimary(env, Toks(e, 4) + rest) == Give(Denote(env, e), rest)
    decreases e, 0, 4
  {
    var ts := Toks(e, 4) + rest;
    var close := [TOp(RParen)] + rest;
    var comma := [TOp(Comma)] + (Toks(e.second, 0) + close);
    var open := [TOp(LParen)] + (Toks(e.first, 0) + comma);
    assert ts == [TWord(e.name)] + open;
    assert ts[1..] == open && open[1..] == Toks(e.first, 0) + comma;
    assert comma[1..] == Toks(e.second, 0) + close && close[1..] == rest;
    OrReads(env, e.first, comma);
    OrReads(env, e.second, close);
    ArgsRead(env, Denote(env, e.first), Denote(env, e.second), comma, close);
  }

  lemma ArgsRead(env: Env, x: Option<Value>, y: Option<Value>, comma: seq<Token>, close: seq<Token>)
    requires Head(comma) == TOp(Comma) && Head(close) == TOp(RParen)
    requires ParseOr(env, comma[1..]) == Give(y, close)
    ensures x.Some? ==>
      ArgsLoop(env, [x.value], comma) == if y.None? then None else Some(([x.value, y.value], close))
  {
    if x.Some? && y.Some? {
      assert [x.value] + [y.value] == [x.value, y.value];
      assert ArgsLoop(env, [x.value, y.value], close) == Some(([x.value, y.value], close));
    }
  }

  /** The evaluator computes the meaning of every tree, value or error. */
  lemma TreeEvaluates(env: Env, e: Expr)
    requires Tree(e)
    ensures EvalTokens(env, Toks(e, 0) + [TEnd]) == Denote(env, e)
  {
    OrReads(env, e, [TEnd]);
  }

  /** A written tree has one meaning: two trees with the same tokens agree in every context. */
  lemma WritingIsUnambiguous(env: Env, d: Expr, e: Expr)
    requires Tree(d) && Tree(e) && Toks(d, 0) == Toks(e, 0)
    ensures Denote(env, d) == Denote(env, e)
  {
    TreeEvaluates(env, d);
    TreeEvaluates(env, e);
  }

  // ---- Whatever is accepted is a tree ----

  /** The parsed part of `ts` is the writing of `e` at level `p`, and the value found is its meaning. */
  predicate Reads(env: Env, ts: seq<Token>, r: Outcome, e: Expr, p: nat) {
    r.Some? && Tree(e) && Prec(e) >= p && Denote(env, e) == Some(r.value.0) && ts == Toks(e, p) + r.value.1
  }

  lemma Joined(left: seq<Token>, ts: seq<Token>, right: seq<Token>, rest: seq<Token>)
    requires ts != [] && ts[1..] == right + rest
    ensures left + ts == left + [ts[0]] + right + rest
  {
    assert ts == [ts[0]] + (right + rest);
  }

  lemma {:induction false} OrSound(env: Env, ts: seq<Token>) returns (e: Expr)
    requires ParseOr(env, ts).Some?
    ensures Reads(env, ts, ParseOr(env, ts), e, 0)
    decreases |ts|, 8
  {
    var p := ParseAnd(env, ts).value;
    var l := AndSound(env, ts);
    SameToks(l, 0, 1);
    e := OrLoopSound(env, l, p.0, p.1);
  }

  lemma {:induction false} OrLoopSound(env: Env, l: Expr, v: Value, ts: seq<Token>) returns (e: Expr)
    requires Tree(l) && Denote(env, l) == Some(v) && OrLoop(env, v, ts).Some?
    ensures Reads(env, Toks(l, 0) + ts, OrLoop(env, v, ts), e, 0)
    decreases |ts|, 7
  {
    if Head(ts) != TOp(OrOr) { return l; }
    var p := ParseAnd(env, ts[1..]).value;
    var r := AndSound(env, ts[1..]);
    e := OrLoopSound(env, OrE(l, r), Either(v, p.0).value, p.1);
    Joined(Toks(l, 0), ts, Toks(r, 1), p.1);
  }

  lemma {:induction false} AndSound(env: Env, ts: seq<Token>) returns (e: Expr)
    requires ParseAnd(env, ts).Some?
    ensures Reads(env, ts, ParseAnd(env, ts), e, 1)
    decreases |ts|, 6
  {
    var p := ParseEquality(env, ts).value;
    var l := EqSound(env, ts);
    SameToks(l, 1, 2);
    e := AndLoopSound(env, l, p.0, p.1);
  }

  lemma {:induction false} AndLoopSound(env: Env, l: Expr, v: Value, ts: seq<Token>) returns (e: Expr)
    requires Tree(l) && Prec(l) >= 1 && Denote(env, l) == Some(v) && AndLoop(env, v, ts).Some?
    ensures Reads(env, Toks(l, 1) + ts, AndLoop(env, v, ts), e, 1)
    decreases |ts|, 5
  {
    if Head(ts) != TOp(AndAnd) { return l; }
    var p := ParseEquality(env, ts[1..]).value;
    var r := EqSound(env, ts[1..]);
    e := AndLoopSound(env, AndE(l, r), Both(v, p.0).value, p.1);
    Joined(Toks(l, 1), ts, Toks(r, 2), p.1);
  }

  lemma {:induction false} EqSound(env: Env, ts: seq<Token>) returns (e: Expr)
    requires ParseEquality(env, ts).Some?
    ensures Reads(env, ts, ParseEquality(env, ts), e, 2)
    decreases |ts|, 4
  {
    var p := ParseUnary(env, ts).value;
    var l := UnarySound(env, ts);
    SameToks(l, 2, 3);
    e := EqLoopSound(env, l, p.0, p.1);
  }

  lemma {:induction false} EqLoopSound(env: Env, l: Expr, v: Value, ts: seq<Token>) returns (e: Expr)
    requires Tree(l) && Prec(l) >= 2 && Denote(env, l) == Some(v) && EqLoop(env, v, ts).Some?
    ensures Reads(env, Toks(l, 2) + ts, EqLoop(env, v, ts), e, 2)
    decreases |ts|, 3
  {
    if !IsEqOp(Head(ts)) { return l; }
    var p := ParseUnary(env, ts[1..]).value;
    var r := UnarySound(env, ts[1..]);
    var next := EqE(ts[0].op, l, r);
    e := EqLoopSound(env, next, Compare(env, ts[0].op, v, p.0).value, p.1);
    Joined(Toks(l, 2), ts, Toks(r, 3), p.1);
  }

  lemma {:induction false} UnarySound(env: Env, ts: seq<Token>) returns (e: Expr)
    requires ParseUnary(env, ts).Some?
    ensures Reads(env, ts, ParseUnary(env, ts), e, 3)
    decreases |ts|, 2
  {
    if Head(ts) == TOp(Bang) {
      var a := UnarySound(env, ts[1..]);
      e := NotE(a);
      assert ts == [ts[0]] + ts[1..];
    } else {
      e := PrimarySound(env, ts);
      SameToks(e, 3, 4);
    }
  }

  lemma {:induction false} PrimarySound(env: Env, ts: seq<Token>) returns (e: Expr)
    requires ParsePrimary(env, ts).Some?
    ensures Reads(env, ts, ParsePrimary(env, ts), e, 4)
    decreases |ts|, 1
  {
    var rest := ParsePrimary(env, ts).value.1;
    assert ts == [ts[0]] + ts[1..];
    if Head(ts) == TOp(LParen) {
      var a := OrSound(env, ts[1..]);
      e := Paren(a);
      assert ts[1..] == Toks(a, 0) + ([TOp(RParen)] + rest);
    } else if Head(ts).TWord? {
      if Head(ts[1..]) == TOp(LParen) {
        e := CallSound(env, ts);
      } else {
        e := Path(ts[0].w);
      }
    } else {
      e := Leaf(ts[0]);
    }
  }

  lemma {:induction false} CallSound(env: Env, ts: seq<Token>) returns (e: Expr)
    requires |ts| > 1 && ts[0].TWord? && ParseCall(env, ts[0].w, ts[1..]).Some?
    ensures Reads(env, ts, ParseCall(env, ts[0].w, ts[1..]), e, 4)
    decreases |ts|, 0
  {
    var name, open := ts[0].w, ts[1..];
    var p := ParseOr(env, open[1..]).value;
    var a := OrSound(env, open[1..]);
    var q := ArgsLoop(env, [p.0], p.1).value;
    TwoArgs(env, p.0, p.1);
    var comma := p.1;
    var b := OrSound(env, comma[1..]);
    e := Call(name, a, b);
    var rest := q.1[1..];
    assert ts == [TWord(name), TOp(LParen)] + open[1..];
    assert q.1 == [TOp(RParen)] + rest && comma == [TOp(Comma)] + comma[1..];
    CallTokens(ts, name, Toks(a, 0), comma, Toks(b, 0), q.1, rest);
    assert Toks(e, 4) == [TWord(name), TOp(LParen)] + Toks(a, 0) + [TOp(Comma)] + Toks(b, 0) + [TOp(RParen)];
  }

  lemma CallTokens(ts: seq<Token>, name: string, a: seq<Token>, comma: seq<Token>, b: seq<Token>, close: seq<Token>,
      rest: seq<Token>)
    requires ts == [TWord(name), TOp(LParen)] + (a + comma)
    requires comma == [TOp(Comma)] + (b + close) && close == [TOp(RParen)] + rest
    ensures ts == [TWord(name), TOp(LParen)] + a + [TOp(Comma)] + b + [TOp(RParen)] + rest
  {
  }

  /** A call is only accepted with exactly one comma at its own level. */
  lemma TwoArgs(env: Env, x: Value, comma: seq<Token>)
    requires var q := ArgsLoop(env, [x], comma); q.Some? && |q.value.0| == 2
    ensures Head(comma) == TOp(Comma)
    ensures var q := ArgsLoop(env, [x], comma).value; ParseOr(env, comma[1..]) == Some((q.0[1], q.1)) && q.0[0] == x
  {
    var p := ParseOr(env, comma[1..]).value;
    assert [x] + [p.0] == [x, p.0];
    MoreArgs(env, [x, p.0], p.1);
  }

  lemma MoreArgs(env: Env, args: seq<Value>, ts: seq<Token>)
    ensures var q := ArgsLoop(env, args, ts); q.Some? && |q.value.0| == |args| ==> q == Some((args, ts))
  {
  }

  /** A token list evaluates to a value exactly when it is the writing of a tree with that value. */
  lemma AcceptsExactlyTheTrees(env: Env, ts: seq<Token>, v: Value)
    requires Ended(ts)
    ensures EvalTokens(env, ts) == Some(v)
       <==> exists e :: Tree(e) && Denote(env, e) == Some(v) && ts == Toks(e, 0) + [TEnd]
  {
    if EvalTokens(env, ts) == Some(v) {
      var e := OrSound(env, ts);
      var rest := ParseOr(env, ts).value.1;
      TreeHasNoEnd(e, 0);
      OnlyTheEnd(ts, Toks(e, 0), rest);
    }
    forall e | Tree(e) && Denote(env, e) == Some(v) && ts == Toks(e, 0) + [TEnd]
      ensures EvalTokens(env, ts) == Some(v)
    {
      TreeEvaluates(env, e);
    }
  }

  lemma {:induction false} TreeHasNoEnd(e: Expr, p: nat)
    requires Tree(e)
    ensures TEnd !in Toks(e, p)
    decreases e, Bump(e, p)
  {
    if Prec(e) < p { TreeHasNoEnd(e, 0); }
    else {
      match e {
        case Leaf(_) =>
        case Path(_) =>
        case Call(_, a, b) => TreeHasNoEnd(a, 0); TreeHasNoEnd(b, 0);
        case NotE(a) => TreeHasNoEnd(a, 3);
        case EqE(_, l, r) => TreeHasNoEnd(l, 2); TreeHasNoEnd(r, 3);
        case AndE(l, r) => TreeHasNoEnd(l, 1); TreeHasNoEnd(r, 2);
        case OrE(l, r) => TreeHasNoEnd(l, 0); TreeHasNoEnd(r, 1);
        case Paren(a) => TreeHasNoEnd(a, 0);
      }
    }
  }

  lemma OnlyTheEnd(ts: seq<Token>, a: seq<Token>, rest: seq<Token>)
    requires Ended(ts) && ts == a + rest && Head(rest) == TEnd && TEnd !in a
    ensures rest == [TEnd]
  {
    assert rest == [] ==> ts == a;
    if rest != [] { assert ts[|a|] == TEnd; }
  }

  // ---- From text to meaning ----

  /** The text of any tree, with any blanks between its tokens that keep them apart, evaluates to its meaning. */
  lemma TextEvaluates(env: Env, e: Expr, gaps: seq<string>)
    requires Tree(e) && |gaps| == |Toks(e, 0)| && Legible(Toks(e, 0), gaps)
    ensures Evaluate(env, Layout(Toks(e, 0), gaps)) == Denote(env, e)
  {
    LayoutReadsBack(Toks(e, 0), gaps);
    TreeEvaluates(env, e);
  }

  /** Any text that evaluates to a value holds the tokens of a tree with that value; nothing else gets one. */
  lemma TextMeansATree(env: Env, source: string, v: Value)
    ensures Evaluate(env, source) == Some(v)
       <==> exists e :: Tree(e) && Denote(env, e) == Some(v) && Lex(source) == Some(Toks(e, 0) + [TEnd])
  {
    if Lex(source).Some? {
      LexShape(source);
      AcceptsExactlyTheTrees(env, Lex(source).value, v);
    }
  }

  // ---- When an operand is missing ----

  /** An operand must follow: an operator other than a closing parenthesis. */
  predicate Opens(t: Token) { t.TOp? && t.op != RParen }

  /** Nothing stands before the end marker, or something that wants an operand. */
  predicate LacksOperand(ts: seq<Token>) { ts == [TEnd] || (|ts| >= 2 && Opens(ts[|ts| - 2])) }

  lemma LacksBehindOperator(ts: seq<Token>)
    requires ts != [] && Opens(ts[0]) && LacksOperand(ts[1..])
    ensures |ts| >= 2 && LacksOperand(ts)
  {
    assert ts == [ts[0]] + ts[1..];
  }

  lemma LacksBehind(ts: seq<Token>, front: seq<Token>, rest: seq<Token>)
    requires ts == front + rest && |rest| >= 2 && LacksOperand(rest)
    ensures LacksOperand(ts)
  {
  }

  lemma EndedBehind(ts: seq<Token>, front: seq<Token>, rest: seq<Token>)
    requires ts == front + rest && rest != [] && Ended(ts)
    ensures Ended(rest)
  {
    assert forall k :: 0 <= k < |rest| ==> rest[k] == ts[|front| + k];
  }

  lemma EndedNext(ts: seq<Token>)
    requires Ended(ts) && ts[0] != TEnd
    ensures Ended(ts[1..])
  {
    EndedBehind(ts, [ts[0]], ts[1..]);
  }

  lemma {:induction false} OrLacks(env: Env, ts: seq<Token>)
    requires Ended(ts) && OrMeetsEnd(env, ts)
    ensures LacksOperand(ts)
    decreases |ts|, 8
  {
    if AndMeetsEnd(env, ts) {
      AndLacks(env, ts);
    } else {
      var p := ParseAnd(env, ts).value;
      var e := AndSound(env, ts);
      EndedBehind(ts, Toks(e, 1), p.1);
      OrLoopLacks(env, p.0, p.1);
      LacksBehind(ts, Toks(e, 1), p.1);
    }
  }

  lemma {:induction false} OrLoopLacks(env: Env, v: Value, ts: seq<Token>)
    requires Ended(ts) && OrLoopMeetsEnd(env, v, ts)
    ensures |ts| >= 2 && LacksOperand(ts)
    decreases |ts|, 7
  {
    EndedNext(ts);
    if AndMeetsEnd(env, ts[1..]) {
      AndLacks(env, ts[1..]);
      LacksBehindOperator(ts);
    } else {
      var p := ParseAnd(env, ts[1..]).value;
      var e := AndSound(env, ts[1..]);
      EndedBehind(ts[1..], Toks(e, 1), p.1);
      OrLoopLacks(env, Either(v, p.0).value, p.1);
      assert ts == ([ts[0]] + Toks(e, 1)) + p.1;
      LacksBehind(ts, [ts[0]] + Toks(e, 1), p.1);
    }
  }

  lemma {:induction false} AndLacks(env: Env, ts: seq<Token>)
    requires Ended(ts) && AndMeetsEnd(env, ts)
    ensures LacksOperand(ts)
    decreases |ts|, 6
  {
    if EqMeetsEnd(env, ts) {
      EqLacks(env, ts);
    } else {
      var p := ParseEquality(env, ts).value;
      var e := EqSound(env, ts);
      EndedBehind(ts, Toks(e, 2), p.1);
      AndLoopLacks(env, p.0, p.1);
      LacksBehind(ts, Toks(e, 2), p.1);
    }
  }

  lemma {:induction false} AndLoopLacks(env: Env, v: Value, ts: seq<Token>)
    requires Ended(ts) && AndLoopMeetsEnd(env, v, ts)
    ensures |ts| >= 2 && LacksOperand(ts)
    decreases |ts|, 5
  {
    EndedNext(ts);
    if EqMeetsEnd(env, ts[1..]) {
      EqLacks(env, ts[1..]);
      LacksBehindOperator(ts);
    } else {
      var p := ParseEquality(env, ts[1..]).value;
      var e := EqSound(env, ts[1..]);
      EndedBehind(ts[1..], Toks(e, 2), p.1);
      AndLoopLacks(env, Both(v, p.0).value, p.1);
      assert ts == ([ts[0]] + Toks(e, 2)) + p.1;
      LacksBehind(ts, [ts[0]] + Toks(e, 2), p.1);
    }
  }

  lemma {:induction false} EqLacks(env: Env, ts: seq<Token>)
    requires Ended(ts) && EqMeetsEnd(env, ts)
    ensures LacksOperand(ts)
    decreases |ts|, 4
  {
    if UnaryMeetsEnd(env, ts) {
      UnaryLacks(env, ts);
    } else {
      var p := ParseUnary(env, ts).value;
      var e := UnarySound(env, ts);
      EndedBehind(ts, Toks(e, 3), p.1);
      EqLoopLacks(env, p.0, p.1);
      LacksBehind(ts, Toks(e, 3), p.1);
    }
  }

  lemma {:induction false} EqLoopLacks(env: Env, v: Value, ts: seq<Token>)
    requires Ended(ts) && EqLoopMeetsEnd(env, v, ts)
    ensures |ts| >= 2 && LacksOperand(ts)
    decreases |ts|, 3
  {
    EndedNext(ts);
    if UnaryMeetsEnd(env, ts[1..]) {
      UnaryLacks(env, ts[1..]);
      LacksBehindOperator(ts);
    } else {
      var p := ParseUnary(env, ts[1..]).value;
      var e := UnarySound(env, ts[1..]);
      EndedBehind(ts[1..], Toks(e, 3), p.1);
      EqLoopLacks(env, Compare(env, ts[0].op, v, p.0).value, p.1);
      assert ts == ([ts[0]] + Toks(e, 3)) + p.1;
      LacksBehind(ts, [ts[0]] + Toks(e, 3), p.1);
    }
  }

  lemma {:induction false} UnaryLacks(env: Env, ts: seq<Token>)
    requires Ended(ts) && UnaryMeetsEnd(env, ts)
    ensures LacksOperand(ts)
    decreases |ts|, 2
  {
    if Head(ts) == TOp(Bang) {
      EndedNext(ts);
      UnaryLacks(env, ts[1..]);
      LacksBehindOperator(ts);
    } else {
      PrimaryLacks(env, ts);
    }
  }

  lemma {:induction false} PrimaryLacks(env: Env, ts: seq<Token>)
    requires Ended(ts) && PrimaryMeetsEnd(env, ts)
    ensures LacksOperand(ts)
    decreases |ts|, 1
  {
    if Head(ts) == TOp(LParen) {
      EndedNext(ts);
      OrLacks(env, ts[1..]);
      LacksBehindOperator(ts);
    } else if Head(ts).TWord? {
      EndedNext(ts);
      CallLacks(env, ts[0].w, ts[1..]);
      LacksBehind(ts, [ts[0]], ts[1..]);
    }
  }

  lemma {:induction false} CallLacks(env: Env, name: string, ts: seq<Token>)
    requires Ended(ts) && CallMeetsEnd(env, name, ts)
    ensures |ts| >= 2 && LacksOperand(ts)
    decreases |ts|, 0
  {
    EndedNext(ts);
    if OrMeetsEnd(env, ts[1..]) {
      OrLacks(env, ts[1..]);
      LacksBehindOperator(ts);
    } else {
      var p := ParseOr(env, ts[1..]).value;
      var e := OrSound(env, ts[1..]);
      EndedBehind(ts[1..], Toks(e, 0), p.1);
      ArgsLack(env, [p.0], p.1);
      assert ts == ([ts[0]] + Toks(e, 0)) + p.1;
      LacksBehind(ts, [ts[0]] + Toks(e, 0), p.1);
    }
  }

  lemma {:induction false} ArgsLack(env: Env, args: seq<Value>, ts: seq<Token>)
    requires Ended(ts) && ArgsMeetEnd(env, args, ts)
    ensures |ts| >= 2 && LacksOperand(ts)
    decreases |ts|, 9
  {
    EndedNext(ts);
    if OrMeetsEnd(env, ts[1..]) {
      OrLacks(env, ts[1..]);
      LacksBehindOperator(ts);
    } else {
      var p := ParseOr(env, ts[1..]).value;
      var e := OrSound(env, ts[1..]);
      EndedBehind(ts[1..], Toks(e, 0), p.1);
      ArgsLack(env, args + [p.0], p.1);
      assert ts == ([ts[0]] + Toks(e, 0)) + p.1;
      LacksBehind(ts, [ts[0]] + Toks(e, 0), p.1);
    }
  }

  /** The end marker is taken only when the text is empty or ends in something that wants an operand; and such a text
      never has a value. */
  lemma OverrunNeedsOpenEnd(env: Env, ts: seq<Token>)
    requires Ended(ts)
    ensures OrMeetsEnd(env, ts) ==> LacksOperand(ts)
    ensures LacksOperand(ts) ==> EvalTokens(env, ts).None?
  {
    if OrMeetsEnd(env, ts) { OrLacks(env, ts); }
    if EvalTokens(env, ts).Some? {
      var e := OrSound(env, ts);
      var rest := ParseOr(env, ts).value.1;
      TreeHasNoEnd(e, 0);
      OnlyTheEnd(ts, Toks(e, 0), rest);
      TreeIsClosed(e, 0);
      ClosedLacksNothing(Toks(e, 0));
    }
  }

  predicate Closed(ts: seq<Token>) { ts != [] && !Opens(ts[|ts| - 1]) }

  lemma ClosedLacksNothing(front: seq<Token>)
    requires Closed(front)
    ensures !LacksOperand(front + [TEnd])
  {
    assert (front + [TEnd])[|front| - 1] == front[|front| - 1];
  }

  /** A tree's writing is not empty and does not end in an operator that wants an operand. */
  lemma {:induction false} TreeIsClosed(e: Expr, p: nat)
    requires Tree(e)
    ensures Closed(Toks(e, p))
    decreases e, Bump(e, p)
  {
    if Prec(e) >= p {
      match e {
        case NotE(a) =>
          TreeIsClosed(a, 3);
          EndsClosed([TOp(Bang)], Toks(a, 3));
        case EqE(op, l, r) =>
          TreeIsClosed(r, 3);
          EndsClosed(Toks(l, 2) + [TOp(op)], Toks(r, 3));
        case AndE(l, r) =>
          TreeIsClosed(r, 2);
          EndsClosed(Toks(l, 1) + [TOp(AndAnd)], Toks(r, 2));
        case OrE(l, r) =>
          TreeIsClosed(r, 1);
          EndsClosed(Toks(l, 0) + [TOp(OrOr)], Toks(r, 1));
        case _ =>
      }
    }
  }

  lemma EndsClosed(front: seq<Token>, tail: seq<Token>)
    requires Closed(tail)
    ensures Closed(front + tail)
  {
  }
}
