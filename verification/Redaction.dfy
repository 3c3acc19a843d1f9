/** Output redaction of iac-runner (iac-runner/internal/runs/redact.go): the token pass and the
    latch that masks the body of a PEM block. */
module Redaction {
  import opened Strings

  const REDACTED := "<redacted>"
  const PEM_HEADER := "-----BEGIN"
  const PEM_FOOTER := "-----END"
  const MAX_PEM_BODY_LINES := 256

  // ---- Tokens ----

  predicate IsDelim(c: char) {
    c == ' ' || c == '\t' || c == '"' || c == '\'' || c == '=' || c == ',' || c == '(' || c == ')' || c == '['
    || c == ']' || c == '{' || c == '}' || c == ':' || c == ';' || c == '@'
  }

  datatype Segment = Segment(text: string, delim: bool)

  /** Maximal runs of delimiters and of other characters. */
  function Split(s: string): (segs: seq<Segment>)
    ensures s == [] <==> segs == []
    ensures s != [] ==> segs[0].text != [] && segs[0].delim == IsDelim(s[0])
  {
    if s == [] then []
    else
      var rest := Split(s[1..]);
      if rest != [] && rest[0].delim == IsDelim(s[0])
      then [Segment([s[0]] + rest[0].text, rest[0].delim)] + rest[1..]
      else [Segment([s[0]], IsDelim(s[0]))] + rest
  }

  function Concat(segs: seq<Segment>): string {
    if segs == [] then [] else segs[0].text + Concat(segs[1..])
  }

  /** A non-empty run of one kind. */
  ghost predicate Run(g: Segment) {
    g.text != [] && forall k :: 0 <= k < |g.text| ==> IsDelim(g.text[k]) == g.delim
  }

  /** Every segment is a run of its own kind and neighbours differ in kind. */
  ghost predicate Alternating(segs: seq<Segment>) {
    segs == []
    || (Run(segs[0]) && (|segs| > 1 ==> segs[1].delim != segs[0].delim) && Alternating(segs[1..]))
  }

  /** The split is lossless and gives maximal runs. */
  lemma {:induction false} SplitLossless(s: string)
    ensures Concat(Split(s)) == s && Alternating(Split(s))
  {
    if s != [] {
      SplitLossless(s[1..]);
      var rest, segs := Split(s[1..]), Split(s);
      assert s == [s[0]] + s[1..];
      if rest != [] && rest[0].delim == IsDelim(s[0]) {
        assert segs[1..] == rest[1..];
        assert Run(segs[0]) by { assert Run(rest[0]); }
        assert [s[0]] + rest[0].text + Concat(rest[1..]) == [s[0]] + Concat(rest);
      } else {
        assert segs[1..] == rest;
      }
    }
  }

  /** A run in front of a string either starts the split or joins its first segment. */
  lemma {:induction false} SplitRun(t: string, d: bool, s: string)
    requires Run(Segment(t, d))
    ensures Split(t + s) == if s != [] && IsDelim(s[0]) == d
                            then [Segment(t + Split(s)[0].text, d)] + Split(s)[1..]
                            else [Segment(t, d)] + Split(s)
  {
    assert (t + s)[1..] == t[1..] + s;
    if |t| == 1 {
      assert t[1..] + s == s;
      assert t == [t[0]];
    } else {
      assert Run(Segment(t[1..], d)) by {
        assert forall k :: 0 <= k < |t[1..]| ==> t[1..][k] == t[k + 1];
      }
      SplitRun(t[1..], d, s);
      assert t == [t[0]] + t[1..];
      if s != [] && IsDelim(s[0]) == d {
        assert [t[0]] + (t[1..] + Split(s)[0].text) == t + Split(s)[0].text;
      }
    }
  }

  /** Cutting a line after a maximal run. */
  lemma SplitAt(line: string, start: nat, i: nat, d: bool)
    requires start < i <= |line| && Run(Segment(line[start..i], d))
    requires i < |line| ==> IsDelim(line[i]) != d
    ensures Split(line[start..]) == [Segment(line[start..i], d)] + Split(line[i..])
  {
    assert line[start..] == line[start..i] + line[i..];
    SplitCut(line[start..i], d, line[i..]);
  }

  lemma SplitCut(t: string, d: bool, s: string)
    requires Run(Segment(t, d)) && (s != [] ==> IsDelim(s[0]) != d)
    ensures Split(t + s) == [Segment(t, d)] + Split(s)
  {
    SplitRun(t, d, s);
  }

  lemma RunExtends(line: string, start: nat, i: nat)
    requires start <= i < |line| && (start < i ==> Run(Segment(line[start..i], IsDelim(line[i]))))
    ensures Run(Segment(line[start..i + 1], IsDelim(line[i])))
  {
    assert line[start..i + 1] == line[start..i] + [line[i]];
  }

  /** `splitTokens`: one walk over the line. */
  method SplitTokens(line: string) returns (segs: seq<Segment>)
    ensures segs == Split(line)
  {
    segs := [];
    var start := 0;
    var inDelim := false;
    if |line| > 0 {
      inDelim := IsDelim(line[0]);
    }
    assert line[0..] == line;
    for i := 0 to |line|
      invariant start <= i && (i == 0 || start < i)
      invariant i == 0 && |line| > 0 ==> inDelim == IsDelim(line[0])
      invariant start < i ==> Run(Segment(line[start..i], inDelim))
      invariant Split(line) == segs + Split(line[start..])
    {
      var isDelim := IsDelim(line[i]);
      if isDelim != inDelim {
        SplitMore(line, segs, start, i, inDelim);
        segs := segs + [Segment(line[start..i], inDelim)];
        start := i;
        inDelim := isDelim;
      }
      RunExtends(line, start, i);
    }
    if start < |line| {
      SplitLast(line, start, inDelim);
      segs := segs + [Segment(line[start..], inDelim)];
    }
  }

  lemma SplitMore(line: string, segs: seq<Segment>, start: nat, i: nat, d: bool)
    requires start < i < |line| && Run(Segment(line[start..i], d)) && IsDelim(line[i]) != d
    ensures segs + Split(line[start..]) == segs + [Segment(line[start..i], d)] + Split(line[i..])
  {
    SplitAt(line, start, i, d);
  }

  lemma SplitLast(line: string, start: nat, d: bool)
    requires start < |line| && Run(Segment(line[start..|line|], d))
    ensures Split(line[start..]) == [Segment(line[start..], d)]
  {
    assert line[start..|line|] == line[start..];
    SplitAt(line, start, |line|, d);
  }

  // ---- Credential shapes ----

  predicate All(s: string, p: char -> bool) {
    forall k :: 0 <= k < |s| ==> p(s[k])
  }

  predicate UpperAlnum(c: char) { 'A' <= c <= 'Z' || '0' <= c <= '9' }

  predicate Base64(c: char) { UpperAlnum(c) || 'a' <= c <= 'z' || c == '/' || c == '+' || c == '=' }

  predicate LowerHex(c: char) { '0' <= c <= '9' || 'a' <= c <= 'f' }

  predicate AwsSecret(t: string) { |t| == 40 && All(t, c => Base64(c)) }

  predicate Credential(t: string) {
    || (|t| == 20 && All(t, c => UpperAlnum(c)))
    || AwsSecret(t)
    || ((|t| == 32 || |t| == 64) && All(t, c => LowerHex(c)))
  }

  predicate IsEqualsRun(s: string) {
    s != [] && All(s, c => c == '=')
  }

  // ---- The token pass ----

  /** The token at the front of `segs` is masked together with its `=` padding. */
  predicate PaddedSecret(segs: seq<Segment>)
    requires |segs| > 0
  {
    && !segs[0].delim && |segs| > 1 && segs[1].delim && IsEqualsRun(segs[1].text)
    && AwsSecret(segs[0].text + segs[1].text)
  }

  predicate BareSecret(segs: seq<Segment>)
    requires |segs| > 0
  {
    !segs[0].delim && Credential(segs[0].text)
  }

  /** What the pass writes for a list of segments, and how many values it masks. */
  function Mask(segs: seq<Segment>): string {
    if segs == [] then []
    else if PaddedSecret(segs) then REDACTED + Mask(segs[2..])
    else if BareSecret(segs) then REDACTED + Mask(segs[1..])
    else segs[0].text + Mask(segs[1..])
  }

  function Masked(segs: seq<Segment>): nat {
    if segs == [] then 0
    else if PaddedSecret(segs) then 1 + Masked(segs[2..])
    else if BareSecret(segs) then 1 + Masked(segs[1..])
    else Masked(segs[1..])
  }

  /** `redactTokens` after its URL pre-pass. */
  method RedactSegments(segs: seq<Segment>) returns (out: string, count: nat)
    ensures out == Mask(segs) && count == Masked(segs)
  {
    out, count := "", 0;
    var i := 0;
    while i < |segs|
      invariant 0 <= i <= |segs|
      invariant out + Mask(segs[i..]) == Mask(segs)
      invariant count + Masked(segs[i..]) == Masked(segs)
    {
      var seg := segs[i];
      ghost var rest := segs[i..];
      ghost var was := out;
      assert rest[1..] == segs[i + 1..];
      assert i + 1 < |segs| ==> rest[1] == segs[i + 1] && rest[2..] == segs[i + 2..];
      if !seg.delim && i + 1 < |segs| && segs[i + 1].delim && IsEqualsRun(segs[i + 1].text)
         && AwsSecret(seg.text + segs[i + 1].text) {
        assert was + Mask(rest) == was + REDACTED + Mask(rest[2..]);
        out := out + REDACTED;
        count := count + 1;
        i := i + 2; // the padding goes with its token
      } else if !seg.delim && Credential(seg.text) {
        assert was + Mask(rest) == was + REDACTED + Mask(rest[1..]);
        out := out + REDACTED;
        count := count + 1;
        i := i + 1;
      } else {
        assert was + Mask(rest) == was + seg.text + Mask(rest[1..]);
        out := out + seg.text;
        i := i + 1;
      }
    }
  }

  /** No token of the line, bare or with its `=` padding, has the shape of a credential. */
  ghost predicate NoCredential(segs: seq<Segment>) {
    forall i :: 0 <= i < |segs| ==> !PaddedSecret(segs[i..]) && !BareSecret(segs[i..])
  }

  /** The count is zero exactly when no token has the shape of a credential, and then the line comes
      back unchanged. */
  lemma {:induction false} ZeroCount(segs: seq<Segment>)
    ensures Masked(segs) == 0 <==> NoCredential(segs)
    ensures Masked(segs) == 0 ==> Mask(segs) == Concat(segs)
  {
    if segs != [] {
      assert segs[0..] == segs;
      ZeroCount(segs[1..]);
      assert forall i :: 0 <= i < |segs| - 1 ==> segs[1..][i..] == segs[i + 1..];
      if NoCredential(segs[1..]) && !PaddedSecret(segs) && !BareSecret(segs) {
        forall i | 0 <= i < |segs| ensures !PaddedSecret(segs[i..]) && !BareSecret(segs[i..]) {
          if i > 0 { assert segs[1..][i - 1..] == segs[i..]; }
        }
      }
      if NoCredential(segs) {
        forall i | 0 <= i < |segs[1..]| ensures !PaddedSecret(segs[1..][i..]) && !BareSecret(segs[1..][i..]) {
          assert segs[1..][i..] == segs[i + 1..];
        }
      }
    }
  }

  lemma MarkerIsNoCredential(before: string, after: string)
    ensures !Credential(before + REDACTED + after) && !AwsSecret(before + REDACTED + after)
    ensures Run(Segment(REDACTED, false))
  {
    assert (before + REDACTED + after)[|before|] == '<';
  }

  /** The first character of the output keeps the kind of the first segment. */
  lemma {:induction false} MaskHead(segs: seq<Segment>)
    requires Alternating(segs) && segs != []
    ensures Mask(segs) != [] && IsDelim(Mask(segs)[0]) == segs[0].delim
  {
    assert Run(segs[0]);
    assert IsDelim('<') == false;
  }

  /** After the pass no token of the output, alone or with its padding, has the shape of a credential. */
  lemma {:induction false} MaskedIsClean(segs: seq<Segment>)
    requires Alternating(segs)
    ensures Masked(Split(Mask(segs))) == 0
    ensures segs != [] && segs[0].delim ==> Split(Mask(segs)) != [] && Split(Mask(segs))[0] == segs[0]
    decreases |segs|
  {
    if segs != [] {
      assert Run(segs[0]);
      var rest := segs[1..];
      MaskedIsClean(rest);
      if rest != [] { MaskHead(rest); }
      if PaddedSecret(segs) {
        MarkerBeforeToken(segs);
      } else if BareSecret(segs) {
        MarkerIsNoCredential("", "");
        assert "" + REDACTED + "" == REDACTED;
        SplitRun(REDACTED, false, Mask(rest));
        var out := Split(Mask(segs));
        assert out == [Segment(REDACTED, false)] + Split(Mask(rest));
        assert out[1..] == Split(Mask(rest));
        if |out| > 1 {
          MarkerIsNoCredential("", out[1].text);
          assert "" + REDACTED + out[1].text == REDACTED + out[1].text;
        }
      } else {
        SplitRun(segs[0].text, segs[0].delim, Mask(rest));
        var out := Split(Mask(segs));
        assert out == [segs[0]] + Split(Mask(rest));
        assert out[1..] == Split(Mask(rest));
        if rest != [] && !segs[0].delim { assert out[1] == segs[1]; }
      }
    }
  }

  /** A masked padded secret joins the marker to the token that follows the padding. */
  lemma {:induction false} MarkerBeforeToken(segs: seq<Segment>)
    requires Alternating(segs) && segs != [] && PaddedSecret(segs)
    ensures Masked(Split(Mask(segs))) == 0
    decreases |segs|, 0
  {
    var rest := segs[2..];
    assert segs[1..][1..] == rest;
    MaskedIsClean(rest);
    MarkerIsNoCredential("", "");
    assert "" + REDACTED + "" == REDACTED;
    SplitRun(REDACTED, false, Mask(rest));
    var out := Split(Mask(segs));
    if rest == [] {
      assert out == [Segment(REDACTED, false)];
    } else {
      MaskHead(rest);
      var inner := Split(Mask(rest));
      assert rest[0] == segs[2];
      assert out == [Segment(REDACTED + inner[0].text, false)] + inner[1..];
      MarkerThenClean(inner);
    }
  }

  /** The marker joined to the first token of a clean list. */
  lemma MarkerThenClean(inner: seq<Segment>)
    requires inner != [] && Masked(inner) == 0
    ensures Masked([Segment(REDACTED + inner[0].text, false)] + inner[1..]) == 0
  {
    var out := [Segment(REDACTED + inner[0].text, false)] + inner[1..];
    assert out[1..] == inner[1..];
    MarkerHides(out, inner[0].text);
    FirstIsClean(out);
    FirstIsClean(inner);
  }

  lemma MarkerHides(out: seq<Segment>, after: string)
    requires out != [] && out[0].text == REDACTED + after
    ensures !PaddedSecret(out) && !BareSecret(out)
  {
    MarkerIsNoCredential("", after);
    assert "" + REDACTED + after == REDACTED + after;
    if |out| > 1 {
      MarkerIsNoCredential("", after + out[1].text);
      assert "" + REDACTED + (after + out[1].text) == REDACTED + after + out[1].text;
    }
  }

  lemma FirstIsClean(segs: seq<Segment>)
    requires segs != []
    ensures Masked(segs) == 0 <==> !PaddedSecret(segs) && !BareSecret(segs) && Masked(segs[1..]) == 0
  {
  }

  /** The token pass over a line: no output token has the shape of a credential, so a second pass
      finds nothing and changes nothing. */
  lemma TokenPassIsFinal(line: string)
    ensures NoCredential(Split(Mask(Split(line))))
    ensures Mask(Split(Mask(Split(line)))) == Mask(Split(line)) && Masked(Split(Mask(Split(line)))) == 0
  {
    SplitLossless(line);
    MaskedIsClean(Split(line));
    ZeroCount(Split(Mask(Split(line))));
    SplitLossless(Mask(Split(line)));
  }

  /** A line without a credential-shaped token comes back identical with count zero, and only then is
      the count zero. */
  lemma CleanLineUnchanged(line: string)
    ensures Masked(Split(line)) == 0 <==> NoCredential(Split(line))
    ensures Masked(Split(line)) == 0 ==> Mask(Split(line)) == line
  {
    ZeroCount(Split(line));
    SplitLossless(line);
  }

  /** What becomes of segment `i`, judged at its own place: the marker for a credential, nothing for
      the `=` padding behind a padded secret, and otherwise the text itself. */
  function Shown(segs: seq<Segment>, i: nat): string
    requires i < |segs|
  {
    if i > 0 && PaddedSecret(segs[i - 1..]) then ""
    else if PaddedSecret(segs[i..]) || BareSecret(segs[i..]) then REDACTED
    else segs[i].text
  }

  function ShownFrom(segs: seq<Segment>, n: nat): string
    requires n <= |segs|
    decreases |segs| - n
  {
    if n == |segs| then "" else Shown(segs, n) + ShownFrom(segs, n + 1)
  }

  /** The pass masks exactly the credential-shaped values and keeps every other character in order. */
  lemma MaskIsPointwise(line: string)
    ensures Mask(Split(line)) == ShownFrom(Split(line), 0)
  {
    var segs := Split(line);
    assert segs[0..] == segs;
    MaskFrom(segs, 0);
  }

  lemma {:induction false} MaskFrom(segs: seq<Segment>, n: nat)
    requires n <= |segs| && (n > 0 ==> !PaddedSecret(segs[n - 1..]))
    ensures Mask(segs[n..]) == ShownFrom(segs, n)
    decreases |segs| - n
  {
    if n < |segs| {
      assert segs[n..][1..] == segs[n + 1..];
      if PaddedSecret(segs[n..]) {
        assert segs[n..][2..] == segs[n + 2..];
        assert segs[n..][1] == segs[n + 1] == segs[n + 1..][0];
        MaskFrom(segs, n + 2);
        assert ShownFrom(segs, n + 1) == "" + ShownFrom(segs, n + 2) == ShownFrom(segs, n + 2);
      } else {
        MaskFrom(segs, n + 1);
      }
    }
  }

  // ---- The PEM latch ----

  /** `unicode.IsSpace`. */
  predicate IsSpace(c: char) {
    || '\t' <= c <= '\r' || c == ' ' || c == '\U{85}' || c == '\U{a0}' || c == '\U{1680}'
    || '\U{2000}' <= c <= '\U{200a}' || c == '\U{2028}' || c == '\U{2029}' || c == '\U{202f}'
    || c == '\U{205f}' || c == '\U{3000}'
  }

  function TrimLeft(s: string): string {
    if s != [] && IsSpace(s[0]) then TrimLeft(s[1..]) else s
  }

  function TrimRight(s: string): string {
    if s != [] && IsSpace(s[|s| - 1]) then TrimRight(s[..|s| - 1]) else s
  }

  predicate IsPemBodyLine(line: string) {
    var t := TrimRight(TrimLeft(line));
    t == "" || All(t, c => Base64(c)) || "Proc-Type:" <= t || "DEK-Info:" <= t
  }

  datatype Latch = Latch(inPem: bool, lines: nat)

  const OPEN := Latch(false, 0)

  /** The latch after one redacted line, and whether the whole line is masked. */
  function LatchLine(l: Latch, s: string): (Latch, bool) {
    if Contains(s, PEM_HEADER) then (Latch(true, 0), true)
    else if !l.inPem then (l, false)
    else if Contains(s, PEM_FOOTER) then (Latch(false, l.lines + 1), true)
    else if IsPemBodyLine(s) && l.lines + 1 <= MAX_PEM_BODY_LINES then (Latch(true, l.lines + 1), true)
    else (Latch(false, l.lines + 1), false)
  }

  function LatchObserve(l: Latch, raw: string): Latch {
    if Contains(raw, PEM_HEADER) then Latch(true, 0)
    else if !l.inPem then l
    else Latch(!(Contains(raw, PEM_FOOTER) || l.lines + 1 > MAX_PEM_BODY_LINES), l.lines + 1)
  }

  /** The URL pre-pass: a rewritten line and the number of masked user-infos. */
  type PrePass = string -> (string, nat)

  function RedactText(pre: PrePass, s: string): string { Mask(Split(pre(s).0)) }

  function RedactCount(pre: PrePass, s: string): nat { pre(s).1 + Masked(Split(pre(s).0)) }

  /** The count of a line is zero exactly when the URL pass masked nothing and no token of its text has the shape of a
      credential; with a pass that rewrites only what it counts, the line is then unchanged. */
  lemma ZeroCountUnchanged(pre: PrePass, line: string)
    requires pre(line).1 == 0 ==> pre(line).0 == line
    ensures RedactCount(pre, line) == 0 <==> pre(line).1 == 0 && NoCredential(Split(line))
    ensures RedactCount(pre, line) == 0 ==> RedactText(pre, line) == line
  {
    CleanLineUnchanged(pre(line).0);
  }

  class Redactor {
    var inPem: bool
    var pemLines: nat

    constructor ()
      ensures State() == OPEN
    {
      inPem, pemLines := false, 0;
    }

    ghost function State(): Latch
      reads this
    {
      Latch(inPem, pemLines)
    }

    method Line(pre: PrePass, s: string) returns (out: string, n: nat)
      modifies this
      ensures State() == LatchLine(old(State()), s).0
      ensures LatchLine(old(State()), s).1 ==> out == REDACTED && n == 1
      ensures !LatchLine(old(State()), s).1 ==> out == RedactText(pre, s) && n == RedactCount(pre, s)
    {
      if Contains(s, PEM_HEADER) {
        inPem := true;
        pemLines := 0;
        return REDACTED, 1;
      } else if inPem {
        pemLines := pemLines + 1;
        if Contains(s, PEM_FOOTER) {
          inPem := false;
          return REDACTED, 1;
        }
        if IsPemBodyLine(s) && pemLines <= MAX_PEM_BODY_LINES {
          return REDACTED, 1;
        }
        inPem := false;
      }
      var pass := pre(s);
      var segs := SplitTokens(pass.0);
      var count;
      out, count := RedactSegments(segs);
      n := pass.1 + count;
    }

    method Observe(raw: string)
      modifies this
      ensures State() == LatchObserve(old(State()), raw)
    {
      if Contains(raw, PEM_HEADER) {
        inPem := true;
        pemLines := 0;
      } else if inPem {
        pemLines := pemLines + 1;
        if Contains(raw, PEM_FOOTER) || pemLines > MAX_PEM_BODY_LINES {
          inPem := false;
        }
      }
    }
  }
}
