/** The paginated, redacted read of a run's output log (iac-runner/internal/runs/output.go). */
module OutputPaging {
  import opened Strings
  import opened Redaction
  import Lines

  // ---- The log as written ----

  /** How the JSON encoder of the writer spells one character of a string (section 7 of RFC 8259, with
      the encoder's HTML-safe extras). */
  function Escape(c: char): string {
    if c == '"' then "\\\"" else if c == '\\' then "\\\\"
    else if c == '\n' then "\\n" else if c == '\r' then "\\r" else if c == '\t' then "\\t"
    else if c == '\U{8}' then "\\b" else if c == '\U{c}' then "\\f"
    else if c < ' ' || c == '<' || c == '>' || c == '&' then "\\u00" + [Hex(c as int / 16 % 16), Hex(c as int % 16)]
    else if c == '\U{2028}' then "\\u2028" else if c == '\U{2029}' then "\\u2029"
    else [c]
  }

  function EscapeAll(s: string): string {
    if s == [] then [] else Escape(s[0]) + EscapeAll(s[1..])
  }

  /** The record `WriteLine` appends, without its newline. */
  function Record(ts: string, stream: string, line: string): string {
    "{\"ts\":\"" + ts + "\",\"stream\":\"" + stream + "\",\"line\":\"" + EscapeAll(line) + "\"}"
  }

  /** The characters of an RFC 3339 time in UTC. */
  predicate Stamp(ts: string) {
    forall k :: 0 <= k < |ts| ==> '0' <= ts[k] <= '9' || ts[k] == '-' || ts[k] == ':' || ts[k] == 'T' || ts[k] == 'Z'
  }

  // ---- Markers survive the encoding ----

  predicate Marker(m: string) { m == PEM_HEADER || m == PEM_FOOTER }

  predicate MarkerChar(c: char) { c == '-' || 'A' <= c <= 'Z' }

  lemma EscapeOfOther(c: char)
    ensures MarkerChar(c) ==> Escape(c) == [c]
    ensures !MarkerChar(c) ==> Escape(c) != [] && forall k :: 0 <= k < |Escape(c)| ==> !MarkerChar(Escape(c)[k])
  {
  }

  /** Text in front of a string that ends outside the marker and misses one of its characters adds no
      occurrence of it. */
  lemma {:induction false} SkipFront(a: string, b: string, m: string, x: char)
    requires a != [] && a[|a| - 1] !in m && x in m && x !in a
    ensures Contains(a + b, m) == Contains(b, m)
  {
    assert (a + b)[1..] == a[1..] + b;
    var k :| 0 <= k < |m| && m[k] == x;
    if |m| <= |a| {
      assert (a + b)[k] == a[k];
    } else {
      assert (a + b)[|a| - 1] == a[|a| - 1] && m[|a| - 1] in m;
    }
    if |a| == 1 {
      assert a[1..] + b == b;
    } else {
      SkipFront(a[1..], b, m, x);
    }
  }

  lemma {:induction false} SkipBack(a: string, b: string, m: string)
    requires |m| > 0 && forall k :: 0 <= k < |b| ==> b[k] !in m
    ensures Contains(a + b, m) == Contains(a, m)
  {
    if a == [] {
      assert a + b == b;
      NoneInside(b, m);
    } else {
      assert (a + b)[1..] == a[1..] + b;
      SkipBack(a[1..], b, m);
      if |m| > |a| && b != [] {
        assert (a + b)[|a|] == b[0] && m[|a|] in m;
      }
      assert m <= a + b <==> m <= a;
    }
  }

  lemma {:induction false} NoneInside(b: string, m: string)
    requires |m| > 0 && forall k :: 0 <= k < |b| ==> b[k] !in m
    ensures !Contains(b, m)
  {
    if b != [] {
      NoneInside(b[1..], m);
      assert b[0] !in m && m[0] in m;
    }
  }

  lemma {:induction false} PrefixSurvives(s: string, m: string)
    requires forall k :: 0 <= k < |m| ==> MarkerChar(m[k])
    ensures m <= EscapeAll(s) <==> m <= s
  {
    if m != [] && s != [] {
      EscapeOfOther(s[0]);
      if MarkerChar(s[0]) {
        PrefixSurvives(s[1..], m[1..]);
        assert EscapeAll(s) == [s[0]] + EscapeAll(s[1..]);
        assert m <= EscapeAll(s) <==> m[0] == s[0] && m[1..] <= EscapeAll(s[1..]);
        assert m <= s <==> m[0] == s[0] && m[1..] <= s[1..];
      } else {
        assert EscapeAll(s)[0] == Escape(s[0])[0] && MarkerChar(m[0]);
      }
    }
  }

  lemma {:induction false} ContainsSurvives(s: string, m: string)
    requires |m| > 0 && forall k :: 0 <= k < |m| ==> MarkerChar(m[k])
    ensures Contains(EscapeAll(s), m) <==> Contains(s, m)
  {
    if s != [] {
      PrefixSurvives(s, m);
      ContainsSurvives(s[1..], m);
      EscapeOfOther(s[0]);
      if MarkerChar(s[0]) {
        assert EscapeAll(s)[1..] == EscapeAll(s[1..]);
      } else {
        SkipFront(Escape(s[0]), EscapeAll(s[1..]), m, m[0]);
        assert MarkerChar(m[0]);
      }
    }
  }

  /** A record holds a PEM marker exactly when the line it carries does. */
  lemma MarkersSurviveEncoding(ts: string, stream: string, line: string, m: string)
    requires Stamp(ts) && stream in {"stdout", "stderr"} && Marker(m)
    ensures Contains(Record(ts, stream, line), m) <==> Contains(line, m)
  {
    var front := "{\"ts\":\"" + ts + "\",\"stream\":\"" + stream + "\",\"line\":\"";
    assert forall k :: 0 <= k < |m| ==> MarkerChar(m[k]);
    assert m[5] == 'B' || m[6] == 'N';
    var x := if m == PEM_HEADER then 'B' else 'N';
    assert x in m && x !in front;
    assert Record(ts, stream, line) == front + (EscapeAll(line) + "\"}");
    SkipFront(front, EscapeAll(line) + "\"}", m, x);
    SkipBack(EscapeAll(line), "\"}", m);
    ContainsSurvives(line, m);
  }

  // ---- The collector ----

  /** `json.Unmarshal` of one physical line: the carried line, or nothing when it does not parse. */
  datatype Decoded = Line(text: string) | Unparsed

  type Decoder = string -> Decoded

  function Text(decode: Decoder, raw: string): string {
    match decode(raw) case Line(t) => t case Unparsed => raw
  }

  /** Decoding keeps the presence of both markers. */
  predicate Faithful(decode: Decoder, raw: string) {
    && (Contains(raw, PEM_HEADER) <==> Contains(Text(decode, raw), PEM_HEADER))
    && (Contains(raw, PEM_FOOTER) <==> Contains(Text(decode, raw), PEM_FOOTER))
  }

  /** Every record the writer produced, and every half-flushed one, is faithful for a decoder that
      inverts the encoder. */
  lemma WrittenIsFaithful(decode: Decoder, raw: string, ts: string, stream: string, line: string)
    requires Stamp(ts) && stream in {"stdout", "stderr"}
    requires decode(raw) == Unparsed || (raw == Record(ts, stream, line) && decode(raw) == Line(line))
    ensures Faithful(decode, raw)
  {
    MarkersSurviveEncoding(ts, stream, line, PEM_HEADER);
    MarkersSurviveEncoding(ts, stream, line, PEM_FOOTER);
  }

  datatype Collected = Collected(latch: Latch, lines: seq<string>, total: nat, redactions: nat)

  const NOTHING := Collected(OPEN, [], 0, 0)

  function AddLine(c: Collected, lo: int, hi: int, pre: PrePass, decode: Decoder, raw: string): Collected {
    if c.total < lo || c.total >= hi then
      Collected(LatchObserve(c.latch, raw), c.lines, c.total + 1, c.redactions)
    else
      var text := Text(decode, raw);
      var (latch, whole) := LatchLine(c.latch, text);
      Collected(latch,
                c.lines + [if whole then REDACTED else RedactText(pre, text)],
                c.total + 1,
                c.redactions + if whole then 1 else RedactCount(pre, text))
  }

  /** What a pass over the physical lines `raws` collects for the window [lo, hi). */
  function Collect(lo: int, hi: int, pre: PrePass, decode: Decoder, raws: seq<string>): Collected {
    if raws == [] then NOTHING
    else AddLine(Collect(lo, hi, pre, decode, raws[..|raws| - 1]), lo, hi, pre, decode, raws[|raws| - 1])
  }

  class WindowCollector {
    const lo: Int64
    const hi: Int64
    const pre: PrePass
    const decode: Decoder
    var lines: seq<string>
    var total: nat
    var redactions: nat
    var red: Redactor

    constructor (lo: Int64, hi: Int64, pre: PrePass, decode: Decoder)
      ensures this.lo == lo && this.hi == hi && this.pre == pre && this.decode == decode
      ensures fresh(red) && State() == NOTHING
    {
      this.lo, this.hi, this.pre, this.decode := lo, hi, pre, decode;
      lines, total, redactions := [], 0, 0;
      red := new Redactor();
    }

    ghost function State(): Collected
      reads this, red
    {
      Collected(red.State(), lines, total, redactions)
    }

    method Add(raw: string)
      modifies this`lines, this`total, this`redactions, red
      ensures State() == AddLine(old(State()), lo as int, hi as int, pre, decode, raw)
    {
      var i := total;
      total := total + 1;
      if i < lo as int || i >= hi as int {
        red.Observe(raw);
        return;
      }
      var text := raw;
      match decode(raw) {
        case Line(t) => text := t;
        case Unparsed =>
      }
      var redacted, n := red.Line(pre, text);
      redactions := redactions + n;
      lines := lines + [redacted];
    }

    method Reset()
      modifies this
      ensures State() == NOTHING && fresh(red)
    {
      lines, total, redactions := [], 0, 0;
      red := new Redactor();
    }

    /** `collectScanner`: it gives up at the first piece that does not fit its buffer. */
    method CollectScanner(pieces: seq<string>) returns (tooLong: bool)
      requires State() == NOTHING
      modifies this, red
      ensures red == old(red)
      ensures tooLong <==> HasLong(pieces)
      ensures !tooLong ==> State() == Collect(lo as int, hi as int, pre, decode, Map(pieces, ScanLine))
    {
      for k := 0 to |pieces|
        invariant red == old(red)
        invariant State() == Collect(lo as int, hi as int, pre, decode, Map(pieces[..k], ScanLine))
        invariant !HasLong(pieces[..k])
      {
        HasLongSnoc(pieces, k);
        if TooLong(pieces[k]) {
          return true;
        }
        AddPiece(pieces, k, ScanLine);
      }
      assert pieces[..|pieces|] == pieces;
      tooLong := false;
    }

    /** One piece, as a reader trims it. */
    method AddPiece(pieces: seq<string>, k: nat, trim: string -> string)
      requires k < |pieces| && State() == Collect(lo as int, hi as int, pre, decode, Map(pieces[..k], trim))
      modifies this, red
      ensures red == old(red)
      ensures State() == Collect(lo as int, hi as int, pre, decode, Map(pieces[..k + 1], trim))
    {
      Add(trim(pieces[k]));
      CollectSnoc(lo as int, hi as int, pre, decode, pieces, trim, k);
    }

    /** `collectReader`: no limit. */
    method CollectReader(pieces: seq<string>)
      requires State() == NOTHING
      modifies this, red
      ensures State() == Collect(lo as int, hi as int, pre, decode, Map(pieces, ReadLine))
    {
      for k := 0 to |pieces|
        invariant red == old(red)
        invariant State() == Collect(lo as int, hi as int, pre, decode, Map(pieces[..k], ReadLine))
      {
        AddPiece(pieces, k, ReadLine);
      }
      assert pieces[..|pieces|] == pieces;
    }

    /** A line that does not fit makes the pass start again with the other reader. */
    method CollectFile(content: string)
      requires State() == NOTHING
      modifies this, red
      ensures State() == Collect(lo as int, hi as int, pre, decode, FileLines(content))
    {
      var pieces := Pieces(content);
      var tooLong := CollectScanner(pieces);
      if tooLong {
        Reset();
        CollectReader(pieces);
      }
    }
  }

  /** Collecting one more line. */
  lemma CollectSnoc(lo: int, hi: int, pre: PrePass, decode: Decoder, pieces: seq<string>, f: string -> string, k: nat)
    requires k < |pieces|
    ensures Collect(lo, hi, pre, decode, Map(pieces[..k + 1], f))
         == AddLine(Collect(lo, hi, pre, decode, Map(pieces[..k], f)), lo, hi, pre, decode, f(pieces[k]))
  {
    MapSnoc(pieces, f, k);
  }

  // ---- Physical lines ----

  const MAX_SCAN_LINE := 8 * 1024 * 1024

  /** The buffer is counted in bytes. */
  predicate TooLong(piece: string) { Bytes(piece) >= MAX_SCAN_LINE }

  predicate HasLong(pieces: seq<string>) {
    exists k :: 0 <= k < |pieces| && TooLong(pieces[k])
  }

  lemma HasLongSnoc(pieces: seq<string>, k: nat)
    requires k < |pieces|
    ensures HasLong(pieces[..k + 1]) <==> HasLong(pieces[..k]) || TooLong(pieces[k])
    ensures TooLong(pieces[k]) ==> HasLong(pieces)
  {
    var more := pieces[..k + 1];
    if i :| 0 <= i < k && TooLong(pieces[..k][i]) { assert more[i] == pieces[..k][i]; }
    if i :| 0 <= i < k + 1 && TooLong(more[i]) { assert i < k ==> pieces[..k][i] == more[i]; }
    assert more[k] == pieces[k];
  }

  function Map(pieces: seq<string>, f: string -> string): seq<string> {
    seq(|pieces|, i requires 0 <= i < |pieces| => f(pieces[i]))
  }

  lemma MapSnoc(pieces: seq<string>, f: string -> string, k: nat)
    requires k < |pieces|
    ensures Map(pieces[..k + 1], f) == Map(pieces[..k], f) + [f(pieces[k])]
    ensures Map(pieces[..k + 1], f)[..k] == Map(pieces[..k], f)
  {
  }

  /** The newline-terminated pieces of the file; text after the last newline counts when there is any. */
  function Pieces(content: string): seq<string> {
    var all := Lines.Split(content, '\n');
    if all[|all| - 1] == [] then all[..|all| - 1] else all
  }

  /** `bufio.ScanLines` drops one trailing carriage return. */
  function ScanLine(piece: string): string {
    if piece != [] && piece[|piece| - 1] == '\r' then piece[..|piece| - 1] else piece
  }

  /** The fallback reader trims all of them. */
  function ReadLine(piece: string): string {
    if piece != [] && piece[|piece| - 1] == '\r' then ReadLine(piece[..|piece| - 1]) else piece
  }

  predicate EndsInTwoReturns(piece: string) {
    |piece| >= 2 && piece[|piece| - 1] == '\r' && piece[|piece| - 2] == '\r'
  }

  /** The scanner and the fallback reader see the same lines exactly when no line ends in two
      carriage returns. */
  lemma ReadersAgree(pieces: seq<string>)
    ensures Map(pieces, ScanLine) == Map(pieces, ReadLine)
            <==> forall k :: 0 <= k < |pieces| ==> !EndsInTwoReturns(pieces[k])
  {
    forall k | 0 <= k < |pieces| ensures ScanLine(pieces[k]) == ReadLine(pieces[k]) <==> !EndsInTwoReturns(pieces[k]) {
      ReadersAgreeOn(pieces[k]);
    }
    if Map(pieces, ScanLine) == Map(pieces, ReadLine) {
      forall k | 0 <= k < |pieces| ensures !EndsInTwoReturns(pieces[k]) {
        assert Map(pieces, ScanLine)[k] == Map(pieces, ReadLine)[k];
      }
    }
  }

  lemma {:induction false} ReadersAgreeOn(piece: string)
    ensures ScanLine(piece) == ReadLine(piece) <==> !EndsInTwoReturns(piece)
    ensures |ReadLine(piece)| <= |piece|
  {
    if piece != [] && piece[|piece| - 1] == '\r' {
      ReadersAgreeOn(piece[..|piece| - 1]);
      if EndsInTwoReturns(piece) {
        var shorter := piece[..|piece| - 1];
        assert ReadLine(piece) == ReadLine(shorter) == ReadLine(shorter[..|shorter| - 1]);
        ReadersAgreeOn(shorter[..|shorter| - 1]);
      }
    }
  }

  /** A written record has no line break in it, so for logs the writer produced both readers give the
      same lines. */
  lemma {:induction false} EscapeHasNoBreak(s: string)
    ensures '\n' !in EscapeAll(s) && '\r' !in EscapeAll(s)
  {
    if s != [] {
      EscapeHasNoBreak(s[1..]);
      CharHasNoBreak(s[0]);
    }
  }

  lemma CharHasNoBreak(c: char)
    ensures '\n' !in Escape(c) && '\r' !in Escape(c)
  {
    if MarkerChar(c) {
      EscapeOfOther(c);
    } else {
      assert forall k :: 0 <= k < |Escape(c)| ==> Escape(c)[k] >= ' ';
    }
  }

  lemma RecordHasNoBreak(ts: string, stream: string, line: string)
    requires Stamp(ts) && stream in {"stdout", "stderr"}
    ensures NoBreak(Record(ts, stream, line))
  {
    EscapeHasNoBreak(line);
  }

  predicate NoBreak(s: string) {
    '\n' !in s && '\r' !in s
  }

  /** A log made of written records, each with its newline, and a half-flushed rest reads back as those
      records, and the rest when there is one, with either reader and however long the lines are. */
  lemma WrittenLogReadsBack(records: seq<string>, rest: string)
    requires forall k :: 0 <= k < |records| ==> NoBreak(records[k])
    requires NoBreak(rest)
    ensures FileLines(Lines.Join(records + [rest], '\n')) == if rest == "" then records else records + [rest]
  {
    var all := records + [rest];
    var lines := if rest == "" then records else all;
    forall k | 0 <= k < |all| ensures NoBreak(all[k]) {}
    PiecesOfJoin(all);
    assert all[..|all| - 1] == records;
    PlainFileLines(Lines.Join(all, '\n'), lines);
  }

  lemma PlainFileLines(content: string, lines: seq<string>)
    requires Pieces(content) == lines && forall k :: 0 <= k < |lines| ==> NoBreak(lines[k])
    ensures FileLines(content) == lines
  {
    SameWithoutReturns(lines);
  }

  lemma PiecesOfJoin(all: seq<string>)
    requires |all| > 0 && forall k :: 0 <= k < |all| ==> NoBreak(all[k])
    ensures Pieces(Lines.Join(all, '\n')) == if all[|all| - 1] == "" then all[..|all| - 1] else all
  {
    forall k | 0 <= k < |all| ensures '\n' !in all[k] {
      assert NoBreak(all[k]);
    }
    Lines.SplitJoin(all, '\n');
  }

  lemma SameWithoutReturns(pieces: seq<string>)
    requires forall k :: 0 <= k < |pieces| ==> NoBreak(pieces[k])
    ensures Map(pieces, ScanLine) == pieces && Map(pieces, ReadLine) == pieces
  {
    forall k | 0 <= k < |pieces| ensures ScanLine(pieces[k]) == pieces[k] == ReadLine(pieces[k]) {
      assert NoBreak(pieces[k]);
    }
  }

  // ---- One page ----

  newtype Int64 = x: int | -0x8000_0000_0000_0000 <= x <= 0x7fff_ffff_ffff_ffff

  const MAX_INT: Int64 := 0x7fff_ffff_ffff_ffff
  const DEFAULT_PAGE_SIZE: Int64 := 100
  const MAX_PAGE_SIZE: Int64 := 1000

  datatype OutputPage = OutputPage(lines: seq<string>, page: Int64, pageSize: Int64, totalLines: nat, redactions: nat)

  function ClampPage(page: Int64): Int64 { if page < 1 then 1 else page }

  function ClampSize(pageSize: Int64): Int64 {
    if pageSize <= 0 then DEFAULT_PAGE_SIZE else if pageSize > MAX_PAGE_SIZE then MAX_PAGE_SIZE else pageSize
  }

  /** The lines a read of the file sees. */
  function FileLines(content: string): seq<string> {
    var pieces := Pieces(content);
    if HasLong(pieces) then Map(pieces, ReadLine) else Map(pieces, ScanLine)
  }

  lemma PageFits(page: int, size: int, max: int)
    requires 1 <= page && 1 <= size && page <= max / size
    ensures 0 <= (page - 1) * size <= page * size <= max
  {
    assert page * size <= (max / size) * size;
    assert (page - 1) * size == page * size - size;
    assert 0 <= (page - 1) * size;
  }

  /** The window of a page that passed the guard: no 64-bit operation overflows. */
  method Bounds(p: Int64, size: Int64) returns (lo: Int64, hi: Int64)
    requires 1 <= p && 1 <= size && p <= MAX_INT / size
    ensures lo as int == (p as int - 1) * (size as int) && hi as int == (p as int) * (size as int)
    ensures lo as int == Offset(p as int, size as int) && hi as int == lo as int + size as int
  {
    PageFits(p as int, size as int, MAX_INT as int);
    lo, hi := (p - 1) * size, p * size;
  }

  method CollectPage(content: string, p: Int64, size: Int64, pre: PrePass, decode: Decoder) returns (r: Collected)
    requires 1 <= p && 1 <= size && p <= MAX_INT / size
    ensures r == Page(FileLines(content), size as int, pre, decode, p as int)
  {
    var lo, hi := Bounds(p, size);
    r := CollectWindow(content, lo, hi, pre, decode);
  }

  method CollectWindow(content: string, lo: Int64, hi: Int64, pre: PrePass, decode: Decoder) returns (r: Collected)
    ensures r == Collect(lo as int, hi as int, pre, decode, FileLines(content))
  {
    var c := new WindowCollector(lo, hi, pre, decode);
    c.CollectFile(content);
    r := Collected(Latch(c.red.inPem, c.red.pemLines), c.lines, c.total, c.redactions);
  }

  /** `ReadOutput` after the run id check; `content` is empty when the file is missing. */
  method ReadOutput(content: string, page: Int64, pageSize: Int64, pre: PrePass, decode: Decoder)
    returns (r: OutputPage)
    ensures r.page == ClampPage(page) && r.pageSize == ClampSize(pageSize)
    ensures r.page > MAX_INT / r.pageSize ==> r.lines == [] && r.totalLines == 0 && r.redactions == 0
    ensures r.page <= MAX_INT / r.pageSize ==>
              var c := Page(FileLines(content), r.pageSize as int, pre, decode, r.page as int);
              r.lines == c.lines && r.totalLines == c.total && r.redactions == c.redactions
  {
    var p, size := page, pageSize;
    if p < 1 {
      p := 1;
    }
    if size <= 0 {
      size := DEFAULT_PAGE_SIZE;
    }
    if size > MAX_PAGE_SIZE {
      size := MAX_PAGE_SIZE;
    }
    if p > MAX_INT / size {
      return OutputPage([], p, size, 0, 0);
    }
    var c := CollectPage(content, p, size, pre, decode);
    r := OutputPage(c.lines, p, size, c.total, c.redactions);
  }

  // ---- A page never reveals what the whole-file scan masks ----

  /** How many of the first `n` lines lie in the window. */
  function Seen(n: nat, lo: nat, hi: nat): nat {
    if n <= lo || hi <= lo then 0 else if n < hi then n - lo else hi - lo
  }

  /** While the whole-file latch is set, the page's latch is set too, with the same line count. */
  predicate Simulates(full: Latch, page: Latch) {
    full.inPem ==> page.inPem && page.lines == full.lines
  }

  ghost predicate Tracks(full: Collected, page: Collected, n: nat, lo: nat, hi: nat) {
    && full.total == page.total == n == |full.lines|
    && |page.lines| == Seen(n, lo, hi)
    && Simulates(full.latch, page.latch)
    && (forall k :: 0 <= k < |page.lines| ==> page.lines[k] in {full.lines[lo + k], REDACTED})
  }

  lemma {:induction false} PageTracksFile(lo: nat, hi: nat, end: nat, pre: PrePass, decode: Decoder, raws: seq<string>)
    requires |raws| <= end
    requires forall k :: 0 <= k < |raws| ==> Faithful(decode, raws[k])
    ensures Tracks(Collect(0, end, pre, decode, raws), Collect(lo, hi, pre, decode, raws), |raws|, lo, hi)
  {
    if raws != [] {
      var n := |raws| - 1;
      PageTracksFile(lo, hi, end, pre, decode, raws[..n]);
      var full, page := Collect(0, end, pre, decode, raws[..n]), Collect(lo, hi, pre, decode, raws[..n]);
      LatchSimulates(full.latch, page.latch, decode, raws[n]);
      assert Collect(0, end, pre, decode, raws) == AddLine(full, 0, end, pre, decode, raws[n]);
      assert Collect(lo, hi, pre, decode, raws) == AddLine(page, lo, hi, pre, decode, raws[n]);
    }
  }

  /** One line keeps the simulation, redacted or only observed; and where the page redacts it, it masks
      the whole line whenever the file scan does. */
  lemma LatchSimulates(full: Latch, page: Latch, decode: Decoder, raw: string)
    requires Simulates(full, page) && Faithful(decode, raw)
    ensures Simulates(LatchLine(full, Text(decode, raw)).0, LatchLine(page, Text(decode, raw)).0)
    ensures Simulates(LatchLine(full, Text(decode, raw)).0, LatchObserve(page, raw))
    ensures LatchLine(full, Text(decode, raw)).1 ==> LatchLine(page, Text(decode, raw)).1
  {
  }

  /** For every log, page and page size: each line of the page is the line the whole-file redactor
      shows at that place, or it is the marker; and the page counts the whole file. */
  lemma PageNeverReveals(page: nat, size: nat, lo: nat, hi: nat, pre: PrePass, decode: Decoder, raws: seq<string>,
      k: nat)
    requires 1 <= page && 1 <= size && lo == (page - 1) * size && hi == page * size
    requires forall i :: 0 <= i < |raws| ==> Faithful(decode, raws[i])
    ensures var c, full := Collect(lo, hi, pre, decode, raws), Collect(0, |raws|, pre, decode, raws);
            && c.total == |raws| == |full.lines|
            && |c.lines| == Seen(|raws|, lo, hi)
            && (k < |c.lines| ==> lo + k < |raws| && c.lines[k] in {full.lines[lo + k], REDACTED})
  {
    PageTracksFile(lo, hi, |raws|, pre, decode, raws);
  }

  /** Neither decoder nor pre-pass touches the line. */
  predicate Untouched(pre: PrePass, decode: Decoder, s: string) {
    decode(s) == Unparsed && pre(s) == (s, 0)
  }

  /** A page can mask more than the whole-file scan: `observe` does not look at the shape of a body line. */
  lemma PageCanMaskMore(pre: PrePass, decode: Decoder, a: string, b: string, c: string)
    requires a == "-----BEGIN" && b == "a b" && c == "abc"
    requires Untouched(pre, decode, a) && Untouched(pre, decode, b) && Untouched(pre, decode, c)
    ensures Collect(0, 3, pre, decode, [a, b, c]).lines == [REDACTED, b, c]
    ensures Collect(2, 3, pre, decode, [a, b, c]).lines == [REDACTED]
  {
    Thrice(0, 3, pre, decode, [a, b, c]);
    Thrice(2, 3, pre, decode, [a, b, c]);
    WholeExample(pre, decode, a, b, c);
    PageExample(pre, decode, a, b, c);
  }

  lemma WholeExample(pre: PrePass, decode: Decoder, a: string, b: string, c: string)
    requires a == "-----BEGIN" && b == "a b" && c == "abc"
    requires Untouched(pre, decode, a) && Untouched(pre, decode, b) && Untouched(pre, decode, c)
    ensures var x := AddLine(NOTHING, 0, 3, pre, decode, a); var y := AddLine(x, 0, 3, pre, decode, b);
            AddLine(y, 0, 3, pre, decode, c).lines == [REDACTED, b, c]
  {
    ExampleLatch(a, b, c);
    PlainText(b);
    PlainText(c);
  }

  lemma PageExample(pre: PrePass, decode: Decoder, a: string, b: string, c: string)
    requires a == "-----BEGIN" && b == "a b" && c == "abc"
    requires Untouched(pre, decode, a) && Untouched(pre, decode, b) && Untouched(pre, decode, c)
    ensures var x := AddLine(NOTHING, 2, 3, pre, decode, a); var y := AddLine(x, 2, 3, pre, decode, b);
            AddLine(y, 2, 3, pre, decode, c).lines == [REDACTED]
  {
    ExampleLatch(a, b, c);
  }

  lemma Thrice(lo: int, hi: int, pre: PrePass, decode: Decoder, raws: seq<string>)
    requires |raws| == 3
    ensures Collect(lo, hi, pre, decode, raws)
            == AddLine(AddLine(AddLine(NOTHING, lo, hi, pre, decode, raws[0]), lo, hi, pre, decode, raws[1]),
                       lo, hi, pre, decode, raws[2])
  {
    assert raws[..2][..1] == raws[..1] && raws[..1][..0] == [];
    assert Collect(lo, hi, pre, decode, raws[..1]) == AddLine(NOTHING, lo, hi, pre, decode, raws[0]);
  }

  lemma ExampleLatch(a: string, b: string, c: string)
    requires a == "-----BEGIN" && b == "a b" && c == "abc"
    ensures LatchLine(OPEN, a) == (Latch(true, 0), true) && LatchObserve(OPEN, a) == Latch(true, 0)
    ensures LatchLine(Latch(true, 0), b) == (Latch(false, 1), false)
    ensures LatchObserve(Latch(true, 0), b) == Latch(true, 1)
    ensures LatchLine(Latch(false, 1), c) == (Latch(false, 1), false)
    ensures LatchLine(Latch(true, 1), c) == (Latch(true, 2), true)
  {
    NotThere(b);
    NotThere(c);
    assert TrimRight(TrimLeft(b)) == b && TrimRight(TrimLeft(c)) == c;
    assert b[1] == ' ';
  }

  lemma NotThere(s: string)
    requires |s| == 3 && forall k :: 0 <= k < 3 ==> !MarkerChar(s[k])
    ensures !Contains(s, PEM_HEADER) && !Contains(s, PEM_FOOTER)
  {
    assert forall m: string :: Marker(m) ==> m[0] == '-';
    forall k | 0 <= k < 3 ensures s[k] !in PEM_HEADER && s[k] !in PEM_FOOTER {
      assert forall i :: 0 <= i < |PEM_HEADER| ==> MarkerChar(PEM_HEADER[i]);
      assert forall i :: 0 <= i < |PEM_FOOTER| ==> MarkerChar(PEM_FOOTER[i]);
    }
    NoneInside(s, PEM_HEADER);
    NoneInside(s, PEM_FOOTER);
  }

  lemma PlainText(s: string)
    requires |s| < 20
    ensures Mask(Redaction.Split(s)) == s && Masked(Redaction.Split(s)) == 0
  {
    CleanLineUnchanged(s);
    ShortSegments(s);
  }

  lemma ShortSegments(s: string)
    requires |s| < 20
    ensures NoCredential(Redaction.Split(s))
  {
    var segs := Redaction.Split(s);
    SplitLossless(s);
    forall i | 0 <= i < |segs| ensures !PaddedSecret(segs[i..]) && !BareSecret(segs[i..]) {
      SegmentLength(segs, i);
      ShortSegment(segs[i..]);
    }
  }

  lemma ShortSegment(segs: seq<Segment>)
    requires |segs| > 0 && |segs[0].text| + (if |segs| > 1 then |segs[1].text| else 0) < 20
    ensures !PaddedSecret(segs) && !BareSecret(segs)
  {
  }

  lemma {:induction false} SegmentLength(segs: seq<Segment>, i: nat)
    requires i < |segs|
    ensures |segs[i].text| + (if i + 1 < |segs| then |segs[i + 1].text| else 0) <= |Concat(segs)|
  {
    if i > 0 {
      SegmentLength(segs[1..], i - 1);
    }
  }

  // ---- Paging tiles the log ----

  /** What may stand at the place of a physical line: the marker, or its text after the token pass. */
  predicate Shows(pre: PrePass, decode: Decoder, raw: string, shown: string) {
    shown == REDACTED || shown == RedactText(pre, Text(decode, raw))
  }

  predicate ShowsAt(pre: PrePass, decode: Decoder, raws: seq<string>, i: nat, shown: string) {
    i < |raws| && Shows(pre, decode, raws[i], shown)
  }

  /** The window holds the lines `lo`, `lo + 1`, ... of the file, each at its place, and counts all of them. */
  ghost predicate IsWindow(c: Collected, lo: nat, hi: nat, pre: PrePass, decode: Decoder, raws: seq<string>) {
    && c.total == |raws| && |c.lines| == Seen(|raws|, lo, hi)
    && forall k :: 0 <= k < |c.lines| ==> ShowsAt(pre, decode, raws, lo + k, c.lines[k])
  }

  lemma {:induction false} WindowShows(lo: nat, hi: nat, pre: PrePass, decode: Decoder, raws: seq<string>)
    ensures IsWindow(Collect(lo, hi, pre, decode, raws), lo, hi, pre, decode, raws)
    decreases |raws|
  {
    if raws != [] {
      var c := Collect(lo, hi, pre, decode, raws[..|raws| - 1]);
      WindowShows(lo, hi, pre, decode, raws[..|raws| - 1]);
      OneMoreShows(c, lo, hi, pre, decode, raws[|raws| - 1]);
      WindowGrows(c, Collect(lo, hi, pre, decode, raws), lo, hi, pre, decode, raws);
    }
  }

  lemma WindowGrows(c: Collected, d: Collected, lo: nat, hi: nat, pre: PrePass, decode: Decoder, raws: seq<string>)
    requires raws != [] && IsWindow(c, lo, hi, pre, decode, raws[..|raws| - 1])
    requires OneMore(c, d, lo, hi, pre, decode, raws[|raws| - 1])
    ensures IsWindow(d, lo, hi, pre, decode, raws)
  {
    forall k | 0 <= k < |d.lines| ensures ShowsAt(pre, decode, raws, lo + k, d.lines[k]) {
      if k < |c.lines| {
        assert d.lines[k] == d.lines[..|c.lines|][k];
        assert ShowsAt(pre, decode, raws[..|raws| - 1], lo + k, c.lines[k]);
      }
    }
  }

  ghost predicate OneMore(c: Collected, d: Collected, lo: nat, hi: nat, pre: PrePass, decode: Decoder, raw: string) {
    && d.total == c.total + 1
    && if lo <= c.total < hi
       then |d.lines| == |c.lines| + 1 && d.lines[..|c.lines|] == c.lines && Shows(pre, decode, raw, d.lines[|c.lines|])
       else d.lines == c.lines
  }

  lemma OneMoreShows(c: Collected, lo: nat, hi: nat, pre: PrePass, decode: Decoder, raw: string)
    ensures OneMore(c, AddLine(c, lo, hi, pre, decode, raw), lo, hi, pre, decode, raw)
  {
  }

  /** One page of the file. */
  function Page(raws: seq<string>, size: nat, pre: PrePass, decode: Decoder, page: nat): Collected
    requires 1 <= page
  {
    Collect(Offset(page, size), Offset(page, size) + size, pre, decode, raws)
  }

  /** How many lines stand on the pages before. */
  function Offset(page: nat, size: nat): nat
    requires 1 <= page
  {
    (page - 1) * size
  }

  /** The lines of the pages 1 to `pages`, one after the other. */
  function Pages(raws: seq<string>, size: nat, pre: PrePass, decode: Decoder, pages: nat): seq<string> {
    if pages == 0 then []
    else Pages(raws, size, pre, decode, pages - 1) + Page(raws, size, pre, decode, pages).lines
  }

  /** `shown` holds the first lines of the file in order, without a gap. */
  ghost predicate ShowsPrefix(pre: PrePass, decode: Decoder, raws: seq<string>, shown: seq<string>) {
    |shown| <= |raws| && forall i :: 0 <= i < |shown| ==> ShowsAt(pre, decode, raws, i, shown[i])
  }

  lemma PageAppends(raws: seq<string>, size: nat, lo: nat, pre: PrePass, decode: Decoder, shown: seq<string>)
    requires ShowsPrefix(pre, decode, raws, shown) && |shown| == if lo < |raws| then lo else |raws|
    ensures var more := shown + Collect(lo, lo + size, pre, decode, raws).lines;
            ShowsPrefix(pre, decode, raws, more) && |more| == if lo + size < |raws| then lo + size else |raws|
  {
    WindowShows(lo, lo + size, pre, decode, raws);
    var window := Collect(lo, lo + size, pre, decode, raws).lines;
    var more := shown + window;
    forall i | 0 <= i < |more| ensures ShowsAt(pre, decode, raws, i, more[i]) {
      if i >= |shown| { assert more[i] == window[i - lo] && ShowsAt(pre, decode, raws, lo + (i - lo), window[i - lo]); }
    }
  }

  lemma {:induction false} PagesShowPrefix(raws: seq<string>, size: nat, pre: PrePass, decode: Decoder, pages: nat)
    ensures var shown := Pages(raws, size, pre, decode, pages);
            ShowsPrefix(pre, decode, raws, shown) && |shown| == if pages * size < |raws| then pages * size else |raws|
  {
    if pages > 0 {
      PagesShowPrefix(raws, size, pre, decode, pages - 1);
      assert pages * size == (pages - 1) * size + size;
      PageAppends(raws, size, Offset(pages, size), pre, decode, Pages(raws, size, pre, decode, pages - 1));
    }
  }

  /** For every file and page size, pages 1 to ceil(total/size) one after the other show every line of the file once
      and at its place, as the marker or as its own redacted text; every page reports the same total, and exactly the
      later pages are empty. */
  lemma PagesTileTheLog(raws: seq<string>, size: nat, pre: PrePass, decode: Decoder, page: nat)
    requires size > 0 && 1 <= page
    ensures var shown := Pages(raws, size, pre, decode, LastPage(|raws|, size));
            |shown| == |raws| && forall i :: 0 <= i < |raws| ==> ShowsAt(pre, decode, raws, i, shown[i])
    ensures var c := Page(raws, size, pre, decode, page);
            c.total == |raws| && (c.lines == [] <==> page > LastPage(|raws|, size))
  {
    var last := LastPage(|raws|, size);
    LastPageCovers(|raws|, size, page);
    AllShown(raws, size, pre, decode, last, last * size);
    PageIsEmpty(raws, Offset(page, size), size, pre, decode);
  }

  lemma AllShown(raws: seq<string>, size: nat, pre: PrePass, decode: Decoder, pages: nat, reach: nat)
    requires reach == pages * size && reach >= |raws|
    ensures var shown := Pages(raws, size, pre, decode, pages);
            |shown| == |raws| && forall i :: 0 <= i < |raws| ==> ShowsAt(pre, decode, raws, i, shown[i])
  {
    PagesShowPrefix(raws, size, pre, decode, pages);
  }

  lemma PageIsEmpty(raws: seq<string>, lo: nat, size: nat, pre: PrePass, decode: Decoder)
    requires size > 0
    ensures var c := Collect(lo, lo + size, pre, decode, raws); c.total == |raws| && (c.lines == [] <==> lo >= |raws|)
  {
    WindowShows(lo, lo + size, pre, decode, raws);
  }

  /** The number of pages with lines on them: the length divided by the page size, rounded up. */
  function LastPage(total: nat, size: nat): nat
    requires size > 0
  {
    (total + size - 1) / size
  }

  lemma LastPageCovers(total: nat, size: nat, page: nat)
    requires size > 0 && 1 <= page
    ensures LastPage(total, size) * size >= total
    ensures page > LastPage(total, size) <==> Offset(page, size) >= total
  {
    var last := LastPage(total, size);
    assert total + size - 1 == last * size + (total + size - 1) % size;
    if page > last {
      assert (page - 1) * size >= last * size;
    } else {
      assert (page - 1) * size <= (last - 1) * size;
      assert (last - 1) * size == last * size - size;
    }
  }
}
