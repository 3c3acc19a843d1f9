/** Which lines of an output log are masked as key material, and which tokens of the others, said about the lines
    themselves (iac-runner/internal/runs/redact.go, output.go). */
module OutputMasking {
  import opened Strings
  import opened Redaction
  import opened OutputPaging

  // ---- The lines of a key ----

  predicate Blank(s: string) { forall k :: 0 <= k < |s| ==> IsSpace(s[k]) }

  predicate Base64Only(s: string) {
    forall k :: 0 <= k < |s| ==>
      'A' <= s[k] <= 'Z' || 'a' <= s[k] <= 'z' || '0' <= s[k] <= '9' || s[k] == '+' || s[k] == '/' || s[k] == '='
  }

  ghost predicate Opening(s: string) { Holds(s, "-----BEGIN") }

  ghost predicate Closing(s: string) { Holds(s, "-----END") }

  /** Between blanks nothing, base64 characters only, or something that starts with one of the two header words. */
  ghost predicate KeyText(s: string) {
    exists x, t, y :: s == x + t + y && Blank(x) && Blank(y) && IsCore(t)
  }

  predicate IsCore(t: string) { Base64Only(t) || "Proc-Type:" <= t || "DEK-Info:" <= t }

  function Texts(decode: Decoder, raws: seq<string>): seq<string> {
    seq(|raws|, i requires 0 <= i < |raws| => Text(decode, raws[i]))
  }

  /** From the opening line `b` on up to line `k`, without it, everything belongs to the key. */
  ghost predicate KeyRuns(texts: seq<string>, b: int, k: int) {
    && 0 <= b < k <= |texts| && Opening(texts[b])
    && forall i :: b < i < k ==> !Opening(texts[i]) && !Closing(texts[i]) && KeyText(texts[i])
  }

  /** Line `k` is the opening line `b`, one of at most 256 body lines behind it, or the closing line behind those. */
  ghost predicate MaskedFrom(texts: seq<string>, b: int, k: int) {
    && 0 <= b <= k < |texts|
    && if b == k then Opening(texts[k])
       else KeyRuns(texts, b, k) && ((Closing(texts[k]) && k - b <= 257) || (KeyText(texts[k]) && k - b <= 256))
  }

  ghost predicate InKey(texts: seq<string>, k: int) { exists b :: MaskedFrom(texts, b, k) }

  // ---- The tests of the program ----

  lemma {:induction false} TrimLeftIs(s: string)
    ensures exists x :: s == x + TrimLeft(s) && Blank(x)
    ensures TrimLeft(s) != "" ==> !IsSpace(TrimLeft(s)[0])
  {
    if s != [] && IsSpace(s[0]) {
      TrimLeftIs(s[1..]);
      var x :| s[1..] == x + TrimLeft(s[1..]) && Blank(x);
      assert s == ([s[0]] + x) + TrimLeft(s) && Blank([s[0]] + x);
    } else {
      assert s == "" + TrimLeft(s) && Blank("");
    }
  }

  lemma BlankSnoc(y: string, c: char)
    requires Blank(y) && IsSpace(c)
    ensures Blank(y + [c])
  {
  }

  lemma {:induction false} TrimRightIs(s: string)
    ensures exists y :: s == TrimRight(s) + y && Blank(y)
    ensures TrimRight(s) != "" ==> !IsSpace(TrimRight(s)[|TrimRight(s)| - 1])
    decreases |s|
  {
    if s != [] && IsSpace(s[|s| - 1]) {
      var f := s[..|s| - 1];
      TrimRightIs(f);
      var y :| f == TrimRight(f) + y && Blank(y);
      BlankSnoc(y, s[|s| - 1]);
      assert s == f + [s[|s| - 1]] == TrimRight(s) + (y + [s[|s| - 1]]);
    } else {
      assert s == TrimRight(s) + "" && Blank("");
    }
  }

  lemma {:induction false} TrimLeftOff(x: string, t: string)
    requires Blank(x)
    ensures TrimLeft(x + t) == TrimLeft(t)
  {
    if x == "" {
      assert x + t == t;
    } else {
      assert (x + t)[0] == x[0] && (x + t)[1..] == x[1..] + t;
      TrimLeftOff(x[1..], t);
    }
  }

  lemma {:induction false} TrimRightOff(t: string, y: string)
    requires Blank(y)
    ensures TrimRight(t + y) == TrimRight(t)
    decreases |y|
  {
    if y == "" {
      assert t + y == t;
    } else {
      assert (t + y)[|t + y| - 1] == y[|y| - 1] && (t + y)[..|t + y| - 1] == t + y[..|y| - 1];
      TrimRightOff(t, y[..|y| - 1]);
    }
  }

  lemma {:induction false} TrimRightKeeps(p: string, s: string)
    requires p <= s && p != "" && !IsSpace(p[|p| - 1])
    ensures p <= TrimRight(s)
    decreases |s|
  {
    assert s[|p| - 1] == p[|p| - 1];
    if IsSpace(s[|s| - 1]) {
      TrimRightKeeps(p, s[..|s| - 1]);
    }
  }

  lemma BodyIsKeyText(s: string)
    ensures IsPemBodyLine(s) <==> KeyText(s)
  {
    var t := TrimRight(TrimLeft(s));
    TrimLeftIs(s);
    TrimRightIs(TrimLeft(s));
    var x :| s == x + TrimLeft(s) && Blank(x);
    var y :| TrimLeft(s) == t + y && Blank(y);
    assert s == x + t + y;
    if IsPemBodyLine(s) { assert IsCore(t); }
    if KeyText(s) { KeyTextIsBody(s); }
  }

  lemma KeyTextIsBody(s: string)
    requires KeyText(s)
    ensures IsPemBodyLine(s)
  {
    var x, t, y :| s == x + t + y && Blank(x) && Blank(y) && IsCore(t);
    assert s == x + (t + y);
    TrimLeftOff(x, t + y);
    if t == "" {
      assert t + y == y;
      TrimLeftOff(y, "");
      assert y + "" == y;
    } else {
      assert !IsSpace(t[0]) by { assert "Proc-Type:" <= t ==> t[0] == 'P'; assert "DEK-Info:" <= t ==> t[0] == 'D'; }
      assert (t + y)[0] == t[0];
      assert TrimLeft(t + y) == t + y;
      TrimRightOff(t, y);
      CoreStays(t);
    }
  }

  lemma CoreStays(t: string)
    requires t != "" && IsCore(t)
    ensures IsPemCore(TrimRight(t))
  {
    if Base64Only(t) {
      assert !IsSpace(t[|t| - 1]);
    } else if "Proc-Type:" <= t {
      TrimRightKeeps("Proc-Type:", t);
    } else {
      TrimRightKeeps("DEK-Info:", t);
    }
  }

  predicate IsPemCore(t: string) { t == "" || All(t, c => Base64(c)) || "Proc-Type:" <= t || "DEK-Info:" <= t }

  // ---- The latch knows the key it is in ----

  /** The latch behind the first `n` lines: it is set exactly inside a key, and counts its lines. */
  ghost predicate Knows(l: Latch, texts: seq<string>, n: nat) {
    if l.inPem then l.lines <= 256 && KeyRuns(texts, n - 1 - l.lines, n)
    else forall b :: KeyRuns(texts, b, n) ==> n - b > 257
  }

  lemma OneKey(texts: seq<string>, n: int, a: int, b: int)
    requires KeyRuns(texts, a, n) && KeyRuns(texts, b, n)
    ensures a == b
  {
  }

  lemma KeyGrows(texts: seq<string>, n: nat, m: nat)
    requires n < |texts| && m == n + 1
    ensures forall b :: KeyRuns(texts, b, m) <==> GoesOn(texts, b, n)
  {
    forall b ensures KeyRuns(texts, b, m) <==> GoesOn(texts, b, n) {
      if GoesOn(texts, b, n) && b != n {
        forall i | b < i < m ensures !Opening(texts[i]) && !Closing(texts[i]) && KeyText(texts[i]) {
          if i != n { assert KeyRuns(texts, b, n); }
        }
      }
    }
  }

  ghost predicate GoesOn(texts: seq<string>, b: int, n: nat)
    requires n < |texts|
  {
    if b == n then Opening(texts[n])
    else KeyRuns(texts, b, n) && !Opening(texts[n]) && !Closing(texts[n]) && KeyText(texts[n])
  }

  /** One line of the whole-file scan: the latch goes on knowing, and masks exactly the lines of a key. */
  lemma LineIsKnown(l: Latch, texts: seq<string>, n: nat)
    requires n < |texts| && Knows(l, texts, n)
    ensures Knows(LatchLine(l, texts[n]).0, texts, n + 1)
    ensures LatchLine(l, texts[n]).1 <==> InKey(texts, n)
  {
    LatchCases(l, texts[n]);
    var m := n + 1;
    KeyGrows(texts, n, m);
    if Opening(texts[n]) {
      assert MaskedFrom(texts, n, n);
    } else if l.inPem {
      KeyLineIsKnown(l, texts, n);
      KeyLineGoesOn(LatchLine(l, texts[n]).0, l, texts, n);
    } else {
      assert forall a :: KeyRuns(texts, a, m) ==> GoesOn(texts, a, n) && KeyRuns(texts, a, n);
    }
  }

  lemma LatchCases(l: Latch, s: string)
    ensures LatchLine(l, s) ==
              if Opening(s) then (Latch(true, 0), true)
              else if !l.inPem then (l, false)
              else if Closing(s) then (Latch(false, l.lines + 1), true)
              else if KeyText(s) && l.lines < 256 then (Latch(true, l.lines + 1), true)
              else (Latch(false, l.lines + 1), false)
  {
    ContainsIsHolds(s, "-----BEGIN");
    ContainsIsHolds(s, "-----END");
    BodyIsKeyText(s);
  }

  lemma KeyLineGoesOn(k: Latch, l: Latch, texts: seq<string>, n: nat)
    requires n < |texts| && Knows(l, texts, n) && l.inPem && !Opening(texts[n])
    requires k == Latch(!Closing(texts[n]) && KeyText(texts[n]) && l.lines < 256, l.lines + 1)
    ensures Knows(k, texts, n + 1)
  {
    var m := n + 1;
    KeyGrows(texts, n, m);
    KeyLineIsKnown(l, texts, n);
    if k.inPem {
      assert GoesOn(texts, n - k.lines, n);
    } else {
      assert forall a :: KeyRuns(texts, a, m) ==> GoesOn(texts, a, n) && KeyRuns(texts, a, n);
    }
  }

  lemma KeyLineIsKnown(l: Latch, texts: seq<string>, n: nat)
    requires n < |texts| && Knows(l, texts, n) && l.inPem && !Opening(texts[n])
    ensures InKey(texts, n) <==> Closing(texts[n]) || (KeyText(texts[n]) && l.lines < 256)
    ensures forall a :: KeyRuns(texts, a, n) ==> a == n - 1 - l.lines
  {
    var b := n - 1 - l.lines;
    forall a | KeyRuns(texts, a, n) ensures a == b { OneKey(texts, n, a, b); }
    assert InKey(texts, n) <==> MaskedFrom(texts, b, n);
  }

  lemma {:induction false} ScanKnows(end: nat, pre: PrePass, decode: Decoder, raws: seq<string>, texts: seq<string>)
    requires |raws| <= end && Texts(decode, raws) <= texts
    ensures Scanned(Collect(0, end, pre, decode, raws), pre, texts, |raws|)
    decreases |raws|
  {
    if raws != [] {
      var n := |raws| - 1;
      assert Texts(decode, raws[..n]) == Texts(decode, raws)[..n];
      ScanKnows(end, pre, decode, raws[..n], texts);
      assert texts[n] == Texts(decode, raws)[n] == Text(decode, raws[n]);
      ScanOneMore(Collect(0, end, pre, decode, raws[..n]), end, pre, decode, raws[n], texts, n);
    }
  }

  ghost predicate Scanned(c: Collected, pre: PrePass, texts: seq<string>, n: nat) {
    && c.total == |c.lines| == n <= |texts| && Knows(c.latch, texts, n)
    && forall k :: 0 <= k < n ==> c.lines[k] == ShownLine(pre, texts, k)
  }

  lemma ScanOneMore(c: Collected, end: nat, pre: PrePass, decode: Decoder, raw: string, texts: seq<string>, n: nat)
    requires Scanned(c, pre, texts, n) && n < end && n < |texts| && texts[n] == Text(decode, raw)
    ensures Scanned(AddLine(c, 0, end, pre, decode, raw), pre, texts, n + 1)
  {
    LineIsKnown(c.latch, texts, n);
    assert AddLine(c, 0, end, pre, decode, raw).lines == c.lines + [ShownLine(pre, texts, n)];
  }

  ghost function ShownLine(pre: PrePass, texts: seq<string>, k: nat): string
    requires k < |texts|
  {
    if InKey(texts, k) then "<redacted>" else RedactText(pre, texts[k])
  }

  /** The scan of a whole log masks exactly the lines of its keys; every other line is shown as its own redacted
      text. */
  lemma KeysAreMasked(pre: PrePass, decode: Decoder, raws: seq<string>, k: nat)
    requires k < |raws|
    ensures var c, texts := Collect(0, |raws|, pre, decode, raws), Texts(decode, raws);
            |c.lines| == |raws| && c.lines[k] == if InKey(texts, k) then "<redacted>" else RedactText(pre, texts[k])
  {
    ScanKnows(|raws|, pre, decode, raws, Texts(decode, raws));
  }

  /** Every page masks the lines of the keys, wherever it starts. */
  lemma PagesMaskKeys(lo: nat, hi: nat, pre: PrePass, decode: Decoder, raws: seq<string>, k: nat)
    requires lo <= k < hi && k < |raws| && InKey(Texts(decode, raws), k)
    requires forall i :: 0 <= i < |raws| ==> Faithful(decode, raws[i])
    ensures var c := Collect(lo, hi, pre, decode, raws); k - lo < |c.lines| && c.lines[k - lo] == "<redacted>"
  {
    KeysAreMasked(pre, decode, raws, k);
    PageTracksFile(lo, hi, |raws|, pre, decode, raws);
    var page, full := Collect(lo, hi, pre, decode, raws), Collect(0, |raws|, pre, decode, raws);
    assert page.lines[k - lo] in {full.lines[lo + (k - lo)], REDACTED};
  }

  // ---- Behind a key, and before the first ----

  /** Line `i` opens no key, and the lines before `from` leave none open. */
  ghost predicate Clear(texts: seq<string>, from: nat, k: nat) {
    && k <= |texts| && (forall i :: from <= i < k ==> !Opening(texts[i]))
    && (from > 0 ==> from <= |texts| && Closing(texts[from - 1]) && !Opening(texts[from - 1]))
  }

  lemma {:induction false} LatchIsOff(lo: nat, hi: nat, pre: PrePass, decode: Decoder, raws: seq<string>, from: nat)
    requires from <= |raws| && Clear(Texts(decode, raws), from, |raws|)
    requires forall i :: 0 <= i < |raws| ==> Faithful(decode, raws[i])
    ensures !Collect(lo, hi, pre, decode, raws).latch.inPem
    decreases |raws|
  {
    if raws != [] {
      var n := |raws| - 1;
      var before := Collect(lo, hi, pre, decode, raws[..n]);
      var texts := Texts(decode, raws);
      assert texts[n] == Text(decode, raws[n]) && Texts(decode, raws[..n]) == texts[..n];
      ContainsIsHolds(texts[n], "-----BEGIN");
      ContainsIsHolds(texts[n], "-----END");
      assert !Opening(texts[n]) && (from == |raws| ==> Closing(texts[n]));
      if from < |raws| { LatchIsOff(lo, hi, pre, decode, raws[..n], from); }
      OneLineOff(before, lo, hi, pre, decode, raws[n]);
    }
  }

  lemma OneLineOff(c: Collected, lo: nat, hi: nat, pre: PrePass, decode: Decoder, raw: string)
    requires Faithful(decode, raw) && !Contains(Text(decode, raw), "-----BEGIN")
    requires !c.latch.inPem || Contains(Text(decode, raw), "-----END")
    ensures !AddLine(c, lo, hi, pre, decode, raw).latch.inPem
  {
  }

  lemma {:induction false} LinesStay(lo: nat, hi: nat, pre: PrePass, decode: Decoder, raws: seq<string>, n: nat)
    requires n <= |raws|
    ensures var c := Collect(lo, hi, pre, decode, raws);
            && c.total == |raws| && |c.lines| == Seen(|raws|, lo, hi)
            && Collect(lo, hi, pre, decode, raws[..n]).lines <= c.lines
    decreases |raws|
  {
    if n == |raws| {
      assert raws[..n] == raws;
      WindowShows(lo, hi, pre, decode, raws);
    } else {
      assert raws[..|raws| - 1][..n] == raws[..n];
      LinesStay(lo, hi, pre, decode, raws[..|raws| - 1], n);
    }
  }

  /** On every page a line that opens no key is shown as its own redacted text, if no key was opened before it, or none
      since a closing line. */
  lemma PagesShowTheRest(lo: nat, hi: nat, pre: PrePass, decode: Decoder, raws: seq<string>, from: nat, k: nat)
    requires lo <= k < hi && from <= k < |raws| && Clear(Texts(decode, raws), from, k + 1)
    requires forall i :: 0 <= i < |raws| ==> Faithful(decode, raws[i])
    ensures var c := Collect(lo, hi, pre, decode, raws);
            k - lo < |c.lines| && c.lines[k - lo] == RedactText(pre, Text(decode, raws[k]))
  {
    var texts := Texts(decode, raws);
    assert Texts(decode, raws[..k]) == texts[..k];
    LatchIsOff(lo, hi, pre, decode, raws[..k], from);
    ContainsIsHolds(texts[k], "-----BEGIN");
    assert raws[..k + 1][..k] == raws[..k];
    LinesStay(lo, hi, pre, decode, raws[..k], k);
    LinesStay(lo, hi, pre, decode, raws, k + 1);
    assert Collect(lo, hi, pre, decode, raws[..k + 1]).lines[k - lo] == RedactText(pre, texts[k]);
  }

  // ---- Which tokens are masked ----

  predicate Capitals(s: string) { forall k :: 0 <= k < |s| ==> 'A' <= s[k] <= 'Z' || '0' <= s[k] <= '9' }

  predicate HexOnly(s: string) { forall k :: 0 <= k < |s| ==> '0' <= s[k] <= '9' || 'a' <= s[k] <= 'f' }

  predicate EqualsOnly(s: string) { s != "" && forall k :: 0 <= k < |s| ==> s[k] == '=' }

  /** Segment `i` is a token whose `=` run, the next segment, makes it 40 base64 characters. */
  predicate Padded(segs: seq<Segment>, i: int) {
    && 0 <= i < |segs| - 1 && !segs[i].delim && segs[i + 1].delim && EqualsOnly(segs[i + 1].text)
    && |segs[i].text + segs[i + 1].text| == 40 && Base64Only(segs[i].text + segs[i + 1].text)
  }

  /** Twenty capitals and digits, 40 base64 characters, or 32 or 64 lower-case hexadecimal digits. */
  predicate Secret(t: string) {
    || (|t| == 20 && Capitals(t)) || (|t| == 40 && Base64Only(t)) || ((|t| == 32 || |t| == 64) && HexOnly(t))
  }

  lemma ShapesAre(t: string)
    ensures AwsSecret(t) <==> |t| == 40 && Base64Only(t)
    ensures Credential(t) <==> Secret(t)
    ensures IsEqualsRun(t) <==> EqualsOnly(t)
  {
  }

  /** What the token pass makes of segment `i` of a line: nothing for the padding behind a padded secret, the marker for
      a secret, bare or padded, and otherwise the segment itself. */
  lemma ShownByShape(segs: seq<Segment>, i: nat)
    requires i < |segs|
    ensures Shown(segs, i) ==
              if Padded(segs, i - 1) then ""
              else if Padded(segs, i) || (!segs[i].delim && Secret(segs[i].text)) then "<redacted>"
              else segs[i].text
  {
    ShapesAre(segs[i].text);
    PaddedAre(segs, i);
    if i > 0 { PaddedAre(segs, i - 1); }
  }

  lemma PaddedAre(segs: seq<Segment>, i: nat)
    requires i < |segs|
    ensures PaddedSecret(segs[i..]) <==> Padded(segs, i)
    ensures BareSecret(segs[i..]) <==> !segs[i].delim && Credential(segs[i].text)
  {
    if i + 1 < |segs| {
      ShapesAre(segs[i + 1].text);
      ShapesAre(segs[i].text + segs[i + 1].text);
    }
  }

  /** The characters between tokens. */
  lemma DelimitersAre(c: char)
    ensures IsDelim(c) <==> c in " \t\"'=,()[]{}:;@"
  {
    var all := " \t\"'=,()[]{}:;@";
    assert all == [' ', '\t', '"', '\'', '=', ',', '(', ')', '[', ']', '{', '}', ':', ';', '@'];
  }
}
