/** The evaluator for workflow expressions (internal/verify-opencode-gate.py, class Evaluator). */
module GateParser {
  import opened Strings
  import opened Wrappers
  import opened GateLexer
  import Lines

  datatype Value = VNull | VBool(b: bool) | VNum(n: real) | VStr(s: string) | VDict(entries: map<string, Value>)

  /** The context the expression reads, and Unicode case folding. */
  datatype Env = Env(context: Value, fold: string -> string)

  // ---- Operations on values; None stands for every exception ----

  function Truthy(v: Value): Option<bool> {
    match v
    case VNull => Some(false)
    case VBool(b) => Some(b)
    case VNum(n) => Some(n != 0.0)
    case VStr(s) => Some(s != "")
    case VDict(_) => None
  }

  /** Python's `==` on values that are not both strings. */
  predicate Same(l: Value, r: Value)
    decreases l
  {
    match (l, r)
    case (VBool(b), VNum(n)) => n == (if b then 1.0 else 0.0)
    case (VNum(n), VBool(b)) => n == (if b then 1.0 else 0.0)
    case (VDict(a), VDict(b)) =>
      a.Keys == b.Keys && forall k :: k in a.Keys ==> k in b.Keys && Same(a[k], b[k])
    case _ => l == r
  }

  function Equals(env: Env, l: Value, r: Value): Option<bool> {
    if l.VStr? && r.VStr? then Some(env.fold(l.s) == env.fold(r.s))
    else if l.VStr? || r.VStr? then None
    else Some(Same(l, r))
  }

  function Negate(v: Value): Option<Value> {
    var t := Truthy(v);
    if t.None? then None else Some(VBool(!t.value))
  }

  function Either(l: Value, r: Value): Option<Value> {
    var t := Truthy(l);
    if t.None? then None else Some(if t.value then l else r)
  }

  function Both(l: Value, r: Value): Option<Value> {
    var t := Truthy(l);
    if t.None? then None else Some(if t.value then r else l)
  }

  function Compare(env: Env, op: Op, l: Value, r: Value): Option<Value> {
    var e := Equals(env, l, r);
    if e.None? then None else Some(VBool(if op == EqEq then e.value else !e.value))
  }

  function Lower(s: string): (r: string)
    ensures |r| == |s|
  {
    seq(|s|, i requires 0 <= i < |s| => if 'A' <= s[i] <= 'Z' then (s[i] as int + 32) as char else s[i])
  }

  predicate Known(name: string) { Lower(name) == "contains" || Lower(name) == "startswith" }

  predicate Within(needle: string, hay: string) {
    exists k | 0 <= k <= |hay| :: needle <= hay[k..]
  }

  function Apply(env: Env, name: string, args: seq<Value>): Option<Value> {
    if !Known(name) || |args| != 2 || !args[0].VStr? || !args[1].VStr? then None
    else
      var l, r := env.fold(args[0].s), env.fold(args[1].s);
      Some(VBool(if Lower(name) == "contains" then Within(r, l) else r <= l))
  }

  function Resolve(v: Value, path: seq<string>): Option<Value>
    decreases |path|
  {
    if path == [] then Some(v)
    else if v.VDict? && path[0] in v.entries then Resolve(v.entries[path[0]], path[1..])
    else None
  }

  function Lookup(env: Env, path: string): Option<Value> { Resolve(env.context, Lines.Split(path, '.')) }

  function Digit(c: char): real { if IsDigit(c) then (c as int - '0' as int) as real else 0.0 }

  /** The value of a decimal: digits before the point, then digits scaled down. */
  function Decimal(s: string, scale: real, acc: real): real
    decreases |s|
  {
    if s == "" then acc
    else if s[0] == '.' then Decimal(s[1..], 0.1, acc)
    else if scale == 0.0 then Decimal(s[1..], 0.0, 10.0 * acc + Digit(s[0]))
    else Decimal(s[1..], scale / 10.0, acc + scale * Digit(s[0]))
  }

  function Literal(t: Token): Option<Value> {
    match t
    case TStr(s) => Some(VStr(s))
    case TNum(text) => Some(VNum(Decimal(text, 0.0, 0.0)))
    case TBool(b) => Some(VBool(b))
    case TNull => Some(VNull)
    case _ => None
  }

  // ---- The parser as functions: a value and the tokens left ----

  function Head(ts: seq<Token>): Token { if ts == [] then TEnd else ts[0] }

  function ParseOr(env: Env, ts: seq<Token>): (r: Option<(Value, seq<Token>)>)
    ensures r.Some? ==> |r.value.1| < |ts|
    decreases |ts|, 8
  {
    match ParseAnd(env, ts) case None => None case Some(p) => OrLoop(env, p.0, p.1)
  }

  function OrLoop(env: Env, v: Value, ts: seq<Token>): (r: Option<(Value, seq<Token>)>)
    ensures r.Some? ==> |r.value.1| <= |ts|
    decreases |ts|, 7
  {
    if Head(ts) != TOp(OrOr) then Some((v, ts))
    else match ParseAnd(env, ts[1..])
      case None => None
      case Some(p) => match Either(v, p.0) case None => None case Some(w) => OrLoop(env, w, p.1)
  }

  function ParseAnd(env: Env, ts: seq<Token>): (r: Option<(Value, seq<Token>)>)
    ensures r.Some? ==> |r.value.1| < |ts|
    decreases |ts|, 6
  {
    match ParseEquality(env, ts) case None => None case Some(p) => AndLoop(env, p.0, p.1)
  }

  function AndLoop(env: Env, v: Value, ts: seq<Token>): (r: Option<(Value, seq<Token>)>)
    ensures r.Some? ==> |r.value.1| <= |ts|
    decreases |ts|, 5
  {
    if Head(ts) != TOp(AndAnd) then Some((v, ts))
    else match ParseEquality(env, ts[1..])
      case None => None
      case Some(p) => match Both(v, p.0) case None => None case Some(w) => AndLoop(env, w, p.1)
  }

  predicate IsEqOp(t: Token) { t == TOp(EqEq) || t == TOp(NotEq) }

  function ParseEquality(env: Env, ts: seq<Token>): (r: Option<(Value, seq<Token>)>)
    ensures r.Some? ==> |r.value.1| < |ts|
    decreases |ts|, 4
  {
    match ParseUnary(env, ts) case None => None case Some(p) => EqLoop(env, p.0, p.1)
  }

  function EqLoop(env: Env, v: Value, ts: seq<Token>): (r: Option<(Value, seq<Token>)>)
    ensures r.Some? ==> |r.value.1| <= |ts|
    decreases |ts|, 3
  {
    if !IsEqOp(Head(ts)) then Some((v, ts))
    else match ParseUnary(env, ts[1..])
      case None => None
      case Some(p) => match Compare(env, ts[0].op, v, p.0) case None => None case Some(w) => EqLoop(env, w, p.1)
  }

  function ParseUnary(env: Env, ts: seq<Token>): (r: Option<(Value, seq<Token>)>)
    ensures r.Some? ==> |r.value.1| < |ts|
    decreases |ts|, 2
  {
    if Head(ts) != TOp(Bang) then ParsePrimary(env, ts)
    else match ParseUnary(env, ts[1..])
      case None => None
      case Some(p) => match Negate(p.0) case None => None case Some(w) => Some((w, p.1))
  }

  function ParsePrimary(env: Env, ts: seq<Token>): (r: Option<(Value, seq<Token>)>)
    ensures r.Some? ==> |r.value.1| < |ts|
    decreases |ts|, 1
  {
    if Head(ts) == TOp(LParen) then
      match ParseOr(env, ts[1..])
      case None => None
      case Some(p) => if Head(p.1) == TOp(RParen) then Some((p.0, p.1[1..])) else None
    else if Head(ts).TWord? then
      if Head(ts[1..]) == TOp(LParen) then ParseCall(env, ts[0].w, ts[1..])
      else match Lookup(env, ts[0].w) case None => None case Some(v) => Some((v, ts[1..]))
    else match Literal(Head(ts)) case None => None case Some(v) => Some((v, ts[1..]))
  }

  function ParseCall(env: Env, name: string, ts: seq<Token>): (r: Option<(Value, seq<Token>)>)
    requires ts != []
    ensures r.Some? ==> |r.value.1| < |ts|
    decreases |ts|, 0
  {
    if !Known(name) || ts[0] != TOp(LParen) then None
    else match ParseOr(env, ts[1..])
      case None => None
      case Some(p) => match ArgsLoop(env, [p.0], p.1)
        case None => None
        case Some(q) =>
          if Head(q.1) != TOp(RParen) then None
          else match Apply(env, name, q.0) case None => None case Some(v) => Some((v, q.1[1..]))
  }

  function ArgsLoop(env: Env, args: seq<Value>, ts: seq<Token>): (r: Option<(seq<Value>, seq<Token>)>)
    ensures r.Some? ==> |r.value.1| <= |ts| && |r.value.0| >= |args|
    decreases |ts|, 9
  {
    if Head(ts) != TOp(Comma) then Some((args, ts))
    else match ParseOr(env, ts[1..])
      case None => None
      case Some(p) => ArgsLoop(env, args + [p.0], p.1)
  }

  /** The value of a whole token list: nothing may be left but the end marker. */
  function EvalTokens(env: Env, ts: seq<Token>): Option<Value> {
    match ParseOr(env, ts) case None => None case Some(p) => if Head(p.1) == TEnd then Some(p.0) else None
  }

  function Evaluate(env: Env, source: string): Option<Value> {
    match Lex(source) case None => None case Some(ts) => EvalTokens(env, ts)
  }

  // ---- Running past the end ----

  /** Some primary of the parse finds the end marker: an operand is missing. It is the only way to take the marker. */
  ghost predicate OrMeetsEnd(env: Env, ts: seq<Token>)
    ensures OrMeetsEnd(env, ts) ==> ParseOr(env, ts).None?
    decreases |ts|, 8
  {
    AndMeetsEnd(env, ts) || match ParseAnd(env, ts) case None => false case Some(p) => OrLoopMeetsEnd(env, p.0, p.1)
  }

  ghost predicate OrLoopMeetsEnd(env: Env, v: Value, ts: seq<Token>)
    ensures OrLoopMeetsEnd(env, v, ts) ==> OrLoop(env, v, ts).None?
    decreases |ts|, 7
  {
    Head(ts) == TOp(OrOr) && (AndMeetsEnd(env, ts[1..]) || match ParseAnd(env, ts[1..])
      case None => false
      case Some(p) => match Either(v, p.0) case None => false case Some(w) => OrLoopMeetsEnd(env, w, p.1))
  }

  ghost predicate AndMeetsEnd(env: Env, ts: seq<Token>)
    ensures AndMeetsEnd(env, ts) ==> ParseAnd(env, ts).None?
    decreases |ts|, 6
  {
    EqMeetsEnd(env, ts) ||
    match ParseEquality(env, ts)
    case None => false
    case Some(p) => AndLoopMeetsEnd(env, p.0, p.1)
  }

  ghost predicate AndLoopMeetsEnd(env: Env, v: Value, ts: seq<Token>)
    ensures AndLoopMeetsEnd(env, v, ts) ==> AndLoop(env, v, ts).None?
    decreases |ts|, 5
  {
    Head(ts) == TOp(AndAnd) && (EqMeetsEnd(env, ts[1..]) || match ParseEquality(env, ts[1..])
      case None => false
      case Some(p) => match Both(v, p.0) case None => false case Some(w) => AndLoopMeetsEnd(env, w, p.1))
  }

  ghost predicate EqMeetsEnd(env: Env, ts: seq<Token>)
    ensures EqMeetsEnd(env, ts) ==> ParseEquality(env, ts).None?
    decreases |ts|, 4
  {
    UnaryMeetsEnd(env, ts) || match ParseUnary(env, ts) case None => false case Some(p) => EqLoopMeetsEnd(env, p.0, p.1)
  }

  ghost predicate EqLoopMeetsEnd(env: Env, v: Value, ts: seq<Token>)
    ensures EqLoopMeetsEnd(env, v, ts) ==> EqLoop(env, v, ts).None?
    decreases |ts|, 3
  {
    IsEqOp(Head(ts)) && (UnaryMeetsEnd(env, ts[1..]) || match ParseUnary(env, ts[1..])
      case None => false
      case Some(p) =>
        match Compare(env, ts[0].op, v, p.0) case None => false case Some(w) => EqLoopMeetsEnd(env, w, p.1))
  }

  ghost predicate UnaryMeetsEnd(env: Env, ts: seq<Token>)
    ensures UnaryMeetsEnd(env, ts) ==> ParseUnary(env, ts).None?
    decreases |ts|, 2
  {
    if Head(ts) == TOp(Bang) then UnaryMeetsEnd(env, ts[1..]) else PrimaryMeetsEnd(env, ts)
  }

  ghost predicate PrimaryMeetsEnd(env: Env, ts: seq<Token>)
    ensures PrimaryMeetsEnd(env, ts) ==> ParsePrimary(env, ts).None?
    decreases |ts|, 1
  {
    if Head(ts) == TOp(LParen) then OrMeetsEnd(env, ts[1..])
    else if Head(ts).TWord? then Head(ts[1..]) == TOp(LParen) && CallMeetsEnd(env, ts[0].w, ts[1..])
    else Head(ts) == TEnd
  }

  ghost predicate CallMeetsEnd(env: Env, name: string, ts: seq<Token>)
    requires ts != []
    ensures CallMeetsEnd(env, name, ts) ==> ParseCall(env, name, ts).None?
    decreases |ts|, 0
  {
    Known(name) && ts[0] == TOp(LParen) && (OrMeetsEnd(env, ts[1..]) || match ParseOr(env, ts[1..])
      case None => false
      case Some(p) => ArgsMeetEnd(env, [p.0], p.1))
  }

  ghost predicate ArgsMeetEnd(env: Env, args: seq<Value>, ts: seq<Token>)
    ensures ArgsMeetEnd(env, args, ts) ==> ArgsLoop(env, args, ts).None?
    decreases |ts|, 9
  {
    Head(ts) == TOp(Comma) && (OrMeetsEnd(env, ts[1..]) || match ParseOr(env, ts[1..])
      case None => false
      case Some(p) => ArgsMeetEnd(env, args + [p.0], p.1))
  }

  // ---- The class ----

  ghost predicate Ended(ts: seq<Token>) {
    |ts| > 0 && ts[|ts| - 1] == TEnd && forall k :: 0 <= k < |ts| - 1 ==> ts[k] != TEnd
  }

  /** A parsing method's outcome against the function it must compute. */
  ghost predicate Did(want: Option<(Value, seq<Token>)>, got: Option<Value>, left: seq<Token>) {
    match want case None => got.None? case Some(p) => got == Some(p.0) && left == p.1
  }

  class Evaluator {
    const env: Env
    var tokens: seq<Token>
    var index: nat

    constructor (env: Env)
      ensures this.env == env && tokens == [] && index == 0
    {
      this.env := env;
      tokens, index := [], 0;
    }

    /** The index is never further than one past the end marker. */
    ghost predicate Valid()
      reads this
    {
      Ended(tokens) && index <= |tokens|
    }

    /** There is a token to read. */
    ghost predicate Ready()
      reads this
    {
      Valid() && index < |tokens|
    }

    ghost function Left(): seq<Token>
      reads this
      requires Valid()
    {
      tokens[index..]
    }

    /** The value; with the tokens of the text, the index ends behind the end marker exactly when an operand is
        missing, and the evaluation has failed then. */
    method Eval(expression: string) returns (r: Option<Value>)
      modifies this
      ensures r == Evaluate(env, expression)
      ensures Lex(expression).None? ==> tokens == old(tokens) && index == old(index)
      ensures Lex(expression).Some? ==>
                && tokens == Lex(expression).value && index <= |tokens|
                && (index == |tokens| <==> OrMeetsEnd(env, tokens))
                && (r.Some? ==> index == |tokens| - 1)
    {
      var lexer := new Tokenizer(expression);
      var lexed := lexer.Tokenize();
      if lexed.None? { return None; }
      LexShape(expression);
      tokens, index := lexed.value, 0;
      assert tokens[0..] == tokens;
      r := Or();
      if r.None? { return; }
      var next := Peek();
      if next != TEnd { r := None; }
    }

    method Peek() returns (t: Token)
      requires Ready()
      ensures t == Head(Left())
    {
      t := tokens[index];
    }

    /** Takes any token, the end marker included. */
    method Next() returns (t: Token)
      requires Ready()
      modifies this`index
      ensures Valid() && index == old(index) + 1
      ensures t == old(Left())[0] && Left() == old(Left())[1..]
      ensures index == |tokens| <==> t == TEnd
    {
      t := tokens[index];
      index := index + 1;
    }

    /** Takes an expected operator, which the end marker is not. */
    method Accept(op: Op) returns (ok: bool)
      requires Ready()
      modifies this`index
      ensures Ready()
      ensures ok == (Head(old(Left())) == TOp(op))
      ensures Left() == if ok then old(Left())[1..] else old(Left())
      ensures index == old(index) + if ok then 1 else 0
    {
      var token := Peek();
      ok := token == TOp(op);
      if ok { index := index + 1; }
    }

    method Or() returns (r: Option<Value>)
      requires Ready()
      modifies this`index
      ensures Valid() && index >= old(index)
      ensures index == |tokens| <==> OrMeetsEnd(env, old(Left()))
      ensures Did(ParseOr(env, old(Left())), r, Left())
      decreases |tokens| - index, 8
    {
      ghost var start := Left();
      r := And();
      if r.None? { return; }
      var more := true;
      while more
        invariant Ready() && index > old(index) && r.Some?
        invariant more ==> ParseOr(env, start) == OrLoop(env, r.value, Left())
        invariant more ==> OrMeetsEnd(env, start) == OrLoopMeetsEnd(env, r.value, Left())
        invariant !more ==> ParseOr(env, start) == Some((r.value, Left()))
        decreases |tokens| - index, more
      {
        more := Accept(OrOr);
        if more {
          var right := And();
          if right.None? { return None; }
          r := Either(r.value, right.value);
          if r.None? { return; }
        }
      }
    }

    method And() returns (r: Option<Value>)
      requires Ready()
      modifies this`index
      ensures Valid() && index >= old(index)
      ensures r.Some? ==> index > old(index)
      ensures index == |tokens| <==> AndMeetsEnd(env, old(Left()))
      ensures Did(ParseAnd(env, old(Left())), r, Left())
      decreases |tokens| - index, 6
    {
      ghost var start := Left();
      r := Equality();
      if r.None? { return; }
      var more := true;
      while more
        invariant Ready() && index > old(index) && r.Some?
        invariant more ==> ParseAnd(env, start) == AndLoop(env, r.value, Left())
        invariant more ==> AndMeetsEnd(env, start) == AndLoopMeetsEnd(env, r.value, Left())
        invariant !more ==> ParseAnd(env, start) == Some((r.value, Left()))
        decreases |tokens| - index, more
      {
        more := Accept(AndAnd);
        if more {
          var right := Equality();
          if right.None? { return None; }
          r := Both(r.value, right.value);
          if r.None? { return; }
        }
      }
    }

    method Equality() returns (r: Option<Value>)
      requires Ready()
      modifies this`index
      ensures Valid() && index >= old(index)
      ensures r.Some? ==> index > old(index)
      ensures index == |tokens| <==> EqMeetsEnd(env, old(Left()))
      ensures Did(ParseEquality(env, old(Left())), r, Left())
      decreases |tokens| - index, 4
    {
      ghost var start := Left();
      r := Unary();
      if r.None? { return; }
      var more := true;
      while more
        invariant Ready() && index > old(index) && r.Some?
        invariant more ==> ParseEquality(env, start) == EqLoop(env, r.value, Left())
        invariant more ==> EqMeetsEnd(env, start) == EqLoopMeetsEnd(env, r.value, Left())
        invariant !more ==> ParseEquality(env, start) == Some((r.value, Left()))
        decreases |tokens| - index, more
      {
        var op := AcceptComparison();
        more := op.Some?;
        if more {
          var right := Unary();
          if right.None? { return None; }
          r := Compare(env, op.value, r.value, right.value);
          if r.None? { return; }
        }
      }
    }

    method AcceptComparison() returns (op: Option<Op>)
      requires Ready()
      modifies this`index
      ensures Ready()
      ensures op.Some? <==> IsEqOp(Head(old(Left())))
      ensures op.Some? ==> Head(old(Left())) == TOp(op.value) && Left() == old(Left())[1..] && index == old(index) + 1
      ensures op.None? ==> index == old(index)
    {
      var ok := Accept(EqEq);
      if ok { return Some(EqEq); }
      ok := Accept(NotEq);
      op := if ok then Some(NotEq) else None;
    }

    method Unary() returns (r: Option<Value>)
      requires Ready()
      modifies this`index
      ensures Valid() && index >= old(index)
      ensures r.Some? ==> index > old(index)
      ensures index == |tokens| <==> UnaryMeetsEnd(env, old(Left()))
      ensures Did(ParseUnary(env, old(Left())), r, Left())
      decreases |tokens| - index, 2
    {
      var bang := Accept(Bang);
      if bang {
        r := Unary();
        if r.Some? { r := Negate(r.value); }
      } else {
        r := Primary();
      }
    }

    /** The token is taken before its kind is looked at, so a missing operand takes the end marker and fails. */
    method Primary() returns (r: Option<Value>)
      requires Ready()
      modifies this`index
      ensures Valid() && index >= old(index)
      ensures r.Some? ==> index > old(index)
      ensures index == |tokens| <==> PrimaryMeetsEnd(env, old(Left()))
      ensures Did(ParsePrimary(env, old(Left())), r, Left())
      decreases |tokens| - index, 1
    {
      var open := Accept(LParen);
      if open {
        r := Or();
        if r.None? { return; }
        var close := Accept(RParen);
        if !close { r := None; }
        return;
      }
      var token := Next();
      if token.TWord? {
        var next := Peek();
        if next == TOp(LParen) {
          r := CallFunction(token.w);
        } else {
          r := Lookup(env, token.w);
        }
      } else {
        r := Literal(token);
      }
    }

    method CallFunction(name: string) returns (r: Option<Value>)
      requires Ready()
      modifies this`index
      ensures Valid() && index >= old(index)
      ensures index == |tokens| <==> CallMeetsEnd(env, name, old(Left()))
      ensures Did(ParseCall(env, name, old(Left())), r, Left())
      decreases |tokens| - index, 0
    {
      if !Known(name) { return None; }
      var open := Accept(LParen);
      if !open { return None; }
      var first := Or();
      if first.None? { return None; }
      var args := Arguments(first.value);
      if args.None? { return None; }
      var close := Accept(RParen);
      if !close { return None; }
      r := Apply(env, name, args.value);
    }

    /** The arguments behind the first one. */
    method Arguments(first: Value) returns (r: Option<seq<Value>>)
      requires Ready()
      modifies this`index
      ensures Valid() && index >= old(index)
      ensures index == |tokens| <==> ArgsMeetEnd(env, [first], old(Left()))
      ensures match ArgsLoop(env, [first], old(Left()))
              case None => r.None?
              case Some(p) => r == Some(p.0) && Left() == p.1
      decreases |tokens| - index, 9
    {
      var args := [first];
      ghost var start := Left();
      var more := true;
      while more
        invariant Ready() && index >= old(index) && args != []
        invariant more ==> ArgsLoop(env, [first], start) == ArgsLoop(env, args, Left())
        invariant more ==> ArgsMeetEnd(env, [first], start) == ArgsMeetEnd(env, args, Left())
        invariant !more ==> ArgsLoop(env, [first], start) == Some((args, Left()))
        decreases |tokens| - index, more
      {
        more := Accept(Comma);
        if more {
          var arg := Or();
          if arg.None? { return None; }
          args := args + [arg.value];
        }
      }
      r := Some(args);
    }
  }

  /** The empty expression: one token, which is taken, and no value. */
  lemma EmptyExpressionMeetsEnd(env: Env)
    ensures Lex("") == Some([TEnd]) && OrMeetsEnd(env, [TEnd]) && Evaluate(env, "") == None
  {
  }
}
