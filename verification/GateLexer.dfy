/** The tokenizer for workflow expressions (internal/verify-opencode-gate.py, class Tokenizer). */
module GateLexer {
  import opened Strings
  import opened Wrappers

  datatype Op = EqEq | NotEq | AndAnd | OrOr | Bang | LParen | RParen | Comma

  datatype Token =
    | TStr(s: string)
    | TNum(text: string)
    | TBool(b: bool)
    | TNull
    | TWord(w: string)
    | TOp(op: Op)
    | TEnd

  predicate IsBlank(c: char) { c == ' ' || c == '\t' || c == '\r' || c == '\n' }

  predicate WordStart(c: char) { 'a' <= c <= 'z' || 'A' <= c <= 'Z' || c == '_' }

  predicate WordChar(c: char) { WordStart(c) || IsDigit(c) || c == '.' }

  predicate NumChar(c: char) { IsDigit(c) || c == '.' }

  function OpText(op: Op): string {
    match op
    case EqEq => "==" case NotEq => "!=" case AndAnd => "&&" case OrOr => "||"
    case Bang => "!" case LParen => "(" case RParen => ")" case Comma => ","
  }

  // ---- Reading one token ----

  /** `s.startswith(operator)`. */
  predicate Starts(op: Op, s: string) {
    match op
    case EqEq => |s| >= 2 && s[0] == '=' && s[1] == '='
    case NotEq => |s| >= 2 && s[0] == '!' && s[1] == '='
    case AndAnd => |s| >= 2 && s[0] == '&' && s[1] == '&'
    case OrOr => |s| >= 2 && s[0] == '|' && s[1] == '|'
    case Bang => |s| >= 1 && s[0] == '!'
    case LParen => |s| >= 1 && s[0] == '('
    case RParen => |s| >= 1 && s[0] == ')'
    case Comma => |s| >= 1 && s[0] == ','
  }

  /** The operators are tried in their listed order, so `!=` wins over `!`. */
  function ReadOp(s: string): (r: Option<Op>)
    ensures r.Some? ==> Starts(r.value, s) && |OpText(r.value)| <= |s|
  {
    if Starts(EqEq, s) then Some(EqEq) else if Starts(NotEq, s) then Some(NotEq)
    else if Starts(AndAnd, s) then Some(AndAnd) else if Starts(OrOr, s) then Some(OrOr)
    else if Starts(Bang, s) then Some(Bang) else if Starts(LParen, s) then Some(LParen)
    else if Starts(RParen, s) then Some(RParen) else if Starts(Comma, s) then Some(Comma)
    else None
  }

  /** After the opening quote: the text and the rest; a doubled quote stands for one. */
  function ReadString(s: string): (r: Option<(string, string)>)
    ensures r.Some? ==> |r.value.1| < |s|
    decreases |s|
  {
    if s == "" then None
    else if s[0] == '\'' then
      if "''" <= s then
        match ReadString(s[2..]) case None => None case Some(p) => Some((['\''] + p.0, p.1))
      else Some(("", s[1..]))
    else match ReadString(s[1..]) case None => None case Some(p) => Some(([s[0]] + p.0, p.1))
  }

  function NumLength(s: string): (n: nat)
    ensures n <= |s|
  {
    if s != "" && NumChar(s[0]) then 1 + NumLength(s[1..]) else 0
  }

  function WordLength(s: string): (n: nat)
    ensures n <= |s|
  {
    if s != "" && WordChar(s[0]) then 1 + WordLength(s[1..]) else 0
  }

  function Dots(s: string): nat {
    if s == "" then 0 else (if s[0] == '.' then 1 else 0) + Dots(s[1..])
  }

  /** `float` accepts digits with at most one point. */
  predicate IsDecimal(s: string) {
    s != "" && IsDigit(s[0]) && Dots(s) <= 1 && forall k :: 0 <= k < |s| ==> NumChar(s[k])
  }

  function WordToken(w: string): Token {
    if w == "true" then TBool(true) else if w == "false" then TBool(false)
    else if w == "null" then TNull else TWord(w)
  }

  function Cons(t: Token, ts: Option<seq<Token>>): Option<seq<Token>> {
    if ts.None? then None else Some([t] + ts.value)
  }

  function Append(ts: seq<Token>, more: Option<seq<Token>>): Option<seq<Token>> {
    if more.None? then None else Some(ts + more.value)
  }

  datatype Piece = Blank | Tok(token: Token)

  /** What stands at the start of a non-empty text, and the rest; None for an unmodelled character, an
      open string or a malformed number. */
  function First(s: string): (r: Option<(Piece, string)>)
    requires s != ""
    ensures r.Some? ==> |r.value.1| < |s|
  {
    if IsBlank(s[0]) then Some((Blank, s[1..]))
    else if s[0] == '\'' then
      match ReadString(s[1..]) case None => None case Some(p) => Some((Tok(TStr(p.0)), p.1))
    else if ReadOp(s).Some? then Some((Tok(TOp(ReadOp(s).value)), s[|OpText(ReadOp(s).value)|..]))
    else if IsDigit(s[0]) then
      var n := NumLength(s);
      if IsDecimal(s[..n]) then Some((Tok(TNum(s[..n])), s[n..])) else None
    else if WordStart(s[0]) then Some((Tok(WordToken(s[..WordLength(s)])), s[WordLength(s)..]))
    else None
  }

  /** The tokens of `s` with the end marker. */
  function Lex(s: string): Option<seq<Token>>
    decreases |s|
  {
    if s == "" then Some([TEnd])
    else match First(s)
      case None => None
      case Some((Blank, rest)) => Lex(rest)
      case Some((Tok(t), rest)) => Cons(t, Lex(rest))
  }

  // ---- The class ----

  class Tokenizer {
    const source: string
    var pos: nat
    var tokens: seq<Token>

    constructor (source: string)
      ensures this.source == source && pos == 0 && tokens == []
    {
      this.source := source;
      pos, tokens := 0, [];
    }

    method Tokenize() returns (r: Option<seq<Token>>)
      requires pos == 0 && tokens == []
      modifies this
      ensures r == Lex(source)
    {
      assert source[0..] == source;
      assert forall ts: seq<Token> :: [] + ts == ts;
      while pos < |source|
        invariant pos <= |source|
        invariant Lex(source) == Append(tokens, Lex(source[pos..]))
      {
        var c := source[pos];
        ghost var was, start := tokens, pos;
        assert source[pos..][1..] == source[pos + 1..];
        if IsBlank(c) {
          pos := pos + 1;
          continue;
        }
        var token: Option<Token> := None;
        if c == '\'' {
          token := LexString();
        } else {
          var op := LexOperator();
          if op.Some? {
            token := Some(TOp(op.value));
          } else if IsDigit(c) {
            token := LexNumber();
          } else if WordStart(c) {
            token := LexWord();
          }
        }
        if token.None? {
          return None;
        }
        tokens := tokens + [token.value];
        AppendCons(was, token.value, Lex(source[pos..]));
      }
      assert source[pos..] == "";
      tokens := tokens + [TEnd];
      r := Some(tokens);
    }

    method LexOperator() returns (r: Option<Op>)
      requires pos < |source|
      modifies this`pos
      ensures r == ReadOp(old(source[pos..]))
      ensures r.None? ==> pos == old(pos)
      ensures r.Some? ==>
                pos == old(pos) + |OpText(r.value)| <= |source| &&
                source[pos..] == old(source[pos..])[|OpText(r.value)|..]
    {
      var all := [EqEq, NotEq, AndAnd, OrOr, Bang, LParen, RParen, Comma];
      ghost var s := source[pos..];
      for k := 0 to |all|
        invariant pos == old(pos)
        invariant forall i :: 0 <= i < k ==> !Starts(all[i], s)
      {
        if Starts(all[k], source[pos..]) {
          assert k > 3 ==> !Starts(all[0], s) && !Starts(all[1], s) && !Starts(all[2], s) && !Starts(all[3], s);
          assert k > 0 ==> !Starts(all[k - 1], s);
          assert k > 1 ==> !Starts(all[k - 2], s);
          assert k > 2 ==> !Starts(all[k - 3], s);
          pos := pos + |OpText(all[k])|;
          return Some(all[k]);
        }
      }
      assert !Starts(all[0], s) && !Starts(all[1], s) && !Starts(all[2], s) && !Starts(all[3], s)
          && !Starts(all[4], s) && !Starts(all[5], s) && !Starts(all[6], s) && !Starts(all[7], s);
      r := None;
    }

    method LexString() returns (r: Option<Token>)
      requires pos < |source|
      modifies this`pos
      ensures pos <= |source| && pos > old(pos)
      ensures var p := ReadString(old(source[pos..])[1..]);
              if p.None? then r.None? else r == Some(TStr(p.value.0)) && source[pos..] == p.value.1
    {
      ghost var s := source[pos..][1..];
      pos := pos + 1;
      var chars := "";
      assert ReadString(s).Some? ==> "" + ReadString(s).value.0 == ReadString(s).value.0;
      while pos < |source|
        invariant old(pos) < pos <= |source|
        invariant ReadString(s) == Prefixed(chars, ReadString(source[pos..]))
      {
        var c := source[pos];
        assert source[pos..][1..] == source[pos + 1..];
        if c == '\'' {
          if "''" <= source[pos..] {
            assert source[pos..][2..] == source[pos + 2..];
            PrefixedSnoc(chars, '\'', ReadString(source[pos + 2..]));
            chars := chars + ['\''];
            pos := pos + 2;
            continue;
          }
          pos := pos + 1;
          assert chars + "" == chars;
          return Some(TStr(chars));
        }
        PrefixedSnoc(chars, c, ReadString(source[pos + 1..]));
        chars := chars + [c];
        pos := pos + 1;
      }
      r := None;
    }

    method LexNumber() returns (r: Option<Token>)
      requires pos < |source| && IsDigit(source[pos])
      modifies this`pos
      ensures var s := old(source[pos..]); var n := NumLength(s);
              && n > 0 && pos == old(pos) + n <= |source| && source[pos..] == s[n..]
              && r == if IsDecimal(s[..n]) then Some(TNum(s[..n])) else None
    {
      var start := pos;
      while pos < |source| && NumChar(source[pos])
        invariant start <= pos <= |source|
        invariant NumLength(source[start..]) == pos - start + NumLength(source[pos..])
      {
        assert source[pos..][1..] == source[pos + 1..];
        pos := pos + 1;
      }
      var text := source[start..pos];
      assert text == source[start..][..pos - start];
      r := if IsDecimal(text) then Some(TNum(text)) else None;
    }

    method LexWord() returns (r: Option<Token>)
      requires pos < |source| && WordStart(source[pos])
      modifies this`pos
      ensures var s := old(source[pos..]); var n := WordLength(s);
              n > 0 && pos == old(pos) + n <= |source| && source[pos..] == s[n..] && r == Some(WordToken(s[..n]))
    {
      var start := pos;
      while pos < |source| && WordChar(source[pos])
        invariant start <= pos <= |source|
        invariant WordLength(source[start..]) == pos - start + WordLength(source[pos..])
      {
        assert source[pos..][1..] == source[pos + 1..];
        pos := pos + 1;
      }
      var word := source[start..pos];
      assert word == source[start..][..pos - start];
      r := Some(WordToken(word));
    }
  }

  function Prefixed(chars: string, r: Option<(string, string)>): Option<(string, string)> {
    if r.None? then None else Some((chars + r.value.0, r.value.1))
  }

  lemma PrefixedSnoc(chars: string, c: char, r: Option<(string, string)>)
    ensures Prefixed(chars + [c], r) == Prefixed(chars, if r.None? then None else Some(([c] + r.value.0, r.value.1)))
  {
    if r.Some? { assert chars + [c] + r.value.0 == chars + ([c] + r.value.0); }
  }

  lemma AppendCons(ts: seq<Token>, t: Token, more: Option<seq<Token>>)
    ensures Append(ts + [t], more) == Append(ts, Cons(t, more))
  {
    if more.Some? { assert ts + [t] + more.value == ts + ([t] + more.value); }
  }

  // ---- Writing tokens as text ----

  function DoubleQuotes(s: string): string {
    if s == "" then "" else (if s[0] == '\'' then "''" else [s[0]]) + DoubleQuotes(s[1..])
  }

  function TokenText(t: Token): string {
    match t
    case TStr(s) => "'" + DoubleQuotes(s) + "'"
    case TNum(text) => text
    case TBool(b) => if b then "true" else "false"
    case TNull => "null"
    case TWord(w) => w
    case TOp(op) => OpText(op)
    case TEnd => ""
  }

  /** The tokens that have a text of their own. */
  predicate Spellable(t: Token) {
    match t
    case TNum(text) => IsDecimal(text)
    case TWord(w) => IsWord(w) && WordToken(w) == TWord(w)
    case TEnd => false
    case _ => true
  }

  predicate IsWord(w: string) {
    w != "" && WordStart(w[0]) && forall k :: 0 <= k < |w| ==> WordChar(w[k])
  }

  /** The text after a token must not run into it. */
  predicate Apart(t: Token, rest: string) {
    rest == "" ||
    match t
    case TStr(_) => rest[0] != '\''
    case TNum(_) => !NumChar(rest[0])
    case TOp(op) => op == Bang ==> rest[0] != '='
    case TEnd => true
    case _ => !WordChar(rest[0])
  }

  /** Tokens with the blanks behind each of them. */
  function Layout(ts: seq<Token>, gaps: seq<string>): string
    requires |gaps| == |ts|
  {
    if ts == [] then "" else TokenText(ts[0]) + gaps[0] + Layout(ts[1..], gaps[1..])
  }

  /** Only blanks between the tokens, and some wherever two tokens would run together. */
  ghost predicate Legible(ts: seq<Token>, gaps: seq<string>)
    requires |gaps| == |ts|
  {
    ts == []
    || (&& Spellable(ts[0])
        && (forall k :: 0 <= k < |gaps[0]| ==> IsBlank(gaps[0][k]))
        && (gaps[0] == "" ==> Apart(ts[0], Layout(ts[1..], gaps[1..])))
        && Legible(ts[1..], gaps[1..]))
  }

  lemma {:induction false} StringReadsBack(s: string, rest: string)
    requires rest == "" || rest[0] != '\''
    ensures ReadString(DoubleQuotes(s) + "'" + rest) == Some((s, rest))
  {
    var t := DoubleQuotes(s) + "'" + rest;
    if s == "" {
      assert t == "'" + rest && t[1..] == rest;
    } else {
      StringReadsBack(s[1..], rest);
      var tail := DoubleQuotes(s[1..]) + "'" + rest;
      assert [s[0]] + s[1..] == s;
      if s[0] == '\'' {
        assert t == "''" + tail && t[2..] == tail;
      } else {
        assert t == [s[0]] + tail && t[1..] == tail;
      }
    }
  }

  lemma {:induction false} NumLengthOf(s: string, rest: string)
    requires (forall k :: 0 <= k < |s| ==> NumChar(s[k])) && (rest == "" || !NumChar(rest[0]))
    ensures NumLength(s + rest) == |s|
  {
    if s == "" { assert s + rest == rest; } else { assert (s + rest)[1..] == s[1..] + rest; NumLengthOf(s[1..], rest); }
  }

  lemma {:induction false} WordLengthOf(s: string, rest: string)
    requires (forall k :: 0 <= k < |s| ==> WordChar(s[k])) && (rest == "" || !WordChar(rest[0]))
    ensures WordLength(s + rest) == |s|
  {
    if s == "" {
      assert s + rest == rest;
    } else {
      assert (s + rest)[1..] == s[1..] + rest;
      WordLengthOf(s[1..], rest);
    }
  }

  lemma WordReadsBack(w: string, rest: string)
    requires IsWord(w) && (rest == "" || !WordChar(rest[0]))
    ensures First(w + rest) == Some((Tok(WordToken(w)), rest))
  {
    WordLengthOf(w, rest);
    assert (w + rest)[0] == w[0] && (w + rest)[..|w|] == w && (w + rest)[|w|..] == rest;
  }

  lemma OpReadsBack(op: Op, rest: string)
    requires op == Bang ==> rest == "" || rest[0] != '='
    ensures First(OpText(op) + rest) == Some((Tok(TOp(op)), rest))
  {
    var s := OpText(op) + rest;
    assert s[|OpText(op)|..] == rest && s[0] == OpText(op)[0];
    assert |OpText(op)| == 2 ==> s[1] == OpText(op)[1];
    assert |OpText(op)| == 1 && rest != "" ==> s[1] == rest[0];
  }

  lemma QuotedReadsBack(x: string, rest: string)
    requires rest == "" || rest[0] != '\''
    ensures First("'" + DoubleQuotes(x) + "'" + rest) == Some((Tok(TStr(x)), rest))
  {
    StringReadsBack(x, rest);
    assert ("'" + DoubleQuotes(x) + "'" + rest)[1..] == DoubleQuotes(x) + "'" + rest;
  }

  lemma NumberReadsBack(text: string, rest: string)
    requires IsDecimal(text) && (rest == "" || !NumChar(rest[0]))
    ensures First(text + rest) == Some((Tok(TNum(text)), rest))
  {
    var s := text + rest;
    NumLengthOf(text, rest);
    assert s[0] == text[0] && s[..|text|] == text && s[|text|..] == rest;
  }

  /** One token in front of any text that does not run into it. */
  lemma TokenReadsBack(t: Token, rest: string)
    requires Spellable(t) && Apart(t, rest)
    ensures TokenText(t) != "" && First(TokenText(t) + rest) == Some((Tok(t), rest))
  {
    var s := TokenText(t) + rest;
    match t {
      case TStr(x) => QuotedReadsBack(x, rest);
      case TNum(text) => NumberReadsBack(text, rest);
      case TBool(b) => WordReadsBack(TokenText(t), rest);
      case TNull => WordReadsBack("null", rest);
      case TWord(w) => WordReadsBack(w, rest);
      case TOp(op) => OpReadsBack(op, rest);
    }
  }

  lemma {:induction false} BlanksVanish(gap: string, rest: string)
    requires forall k :: 0 <= k < |gap| ==> IsBlank(gap[k])
    ensures Lex(gap + rest) == Lex(rest)
  {
    if gap == "" {
      assert gap + rest == rest;
    } else {
      assert (gap + rest)[1..] == gap[1..] + rest;
      BlanksVanish(gap[1..], rest);
    }
  }

  lemma LexStep(s: string, t: Token, rest: string)
    requires s != "" && First(s) == Some((Tok(t), rest))
    ensures Lex(s) == Cons(t, Lex(rest))
  {
  }

  lemma OneToken(t: Token, gap: string, rest: string)
    requires Spellable(t) && (forall k :: 0 <= k < |gap| ==> IsBlank(gap[k])) && (gap == "" ==> Apart(t, rest))
    ensures Lex(TokenText(t) + gap + rest) == Cons(t, Lex(rest))
  {
    BlanksVanish(gap, rest);
    GapKeepsApart(t, gap, rest);
    TokenThen(t, gap + rest);
    assert TokenText(t) + gap + rest == TokenText(t) + (gap + rest);
  }

  lemma GapKeepsApart(t: Token, gap: string, rest: string)
    requires (forall k :: 0 <= k < |gap| ==> IsBlank(gap[k])) && (gap == "" ==> Apart(t, rest))
    ensures Apart(t, gap + rest)
  {
    if gap == "" { assert gap + rest == rest; } else { assert (gap + rest)[0] == gap[0]; }
  }

  lemma TokenThen(t: Token, s: string)
    requires Spellable(t) && Apart(t, s)
    ensures Lex(TokenText(t) + s) == Cons(t, Lex(s))
  {
    TokenReadsBack(t, s);
    LexStep(TokenText(t) + s, t, s);
  }

  /** Every legible layout of a token list tokenizes back to it. */
  lemma {:induction false} LayoutReadsBack(ts: seq<Token>, gaps: seq<string>)
    requires |gaps| == |ts| && Legible(ts, gaps)
    ensures Lex(Layout(ts, gaps)) == Some(ts + [TEnd])
  {
    if ts == [] {
      assert ts + [TEnd] == [TEnd];
    } else {
      LayoutReadsBack(ts[1..], gaps[1..]);
      OneToken(ts[0], gaps[0], Layout(ts[1..], gaps[1..]));
      assert Layout(ts, gaps) == TokenText(ts[0]) + gaps[0] + Layout(ts[1..], gaps[1..]);
      assert [ts[0]] + (ts[1..] + [TEnd]) == ts + [TEnd];
    }
  }

  /** What the tokenizer accepts ends with the only end marker and holds spellable tokens before it. */
  lemma {:induction false} LexShape(s: string)
    requires Lex(s).Some?
    ensures var ts := Lex(s).value;
            |ts| > 0 && ts[|ts| - 1] == TEnd && forall k :: 0 <= k < |ts| - 1 ==> ts[k] != TEnd
    decreases |s|
  {
    if s != "" {
      LexShape(First(s).value.1);
      FirstIsNoEnd(s);
    }
  }

  lemma FirstIsNoEnd(s: string)
    requires s != "" && First(s).Some?
    ensures First(s).value.0 != Tok(TEnd)
  {
  }
}
