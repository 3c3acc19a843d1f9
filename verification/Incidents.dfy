/** The bounded backward scan of a host log for its last incident lines (haos-monitor/app/incidents.py). */
module Incidents {
  import opened Strings
  import opened Lines

  type Byte = x: int | 0 <= x < 256

  const NEWLINE: Byte := 10

  /** ` INCIDENT ` with both spaces. */
  const MARKER: seq<Byte> := [32, 73, 78, 67, 73, 68, 69, 78, 84, 32]

  /** Control characters other than tab. */
  predicate IsControl(c: char) {
    c != '\t' && (c < ' ' || '\U{7f}' <= c <= '\U{9f}')
  }

  function DropControls(s: string): string {
    if s == [] then [] else (if IsControl(s[0]) then [] else [s[0]]) + DropControls(s[1..])
  }

  /** `_clean` after decoding; `decode` is the replacing UTF-8 decoder. A negative `maxLine` cuts from
      the end, as a Python slice does. */
  function Clean(decode: seq<Byte> -> string, raw: seq<Byte>, maxLine: int): string {
    var text := decode(raw);
    var line := DropControls(if text != [] && text[|text| - 1] == '\r' then text[..|text| - 1] else text);
    var end := if maxLine >= 0 then maxLine else if |line| + maxLine >= 0 then |line| + maxLine else 0;
    if end <= |line| then line[..end] else line
  }

  // ---- What cleaning and marking mean ----

  /** Character by character, tabs and everything but control characters stay. */
  lemma {:induction false} DropControlsIs(s: string, c: char, t: string)
    ensures DropControls(s + [c] + t)
         == DropControls(s) + (if c == '\t' || ' ' <= c < '\U{7f}' || c > '\U{9f}' then [c] else "") + DropControls(t)
  {
    if s == "" {
      assert ("" + [c] + t)[1..] == t;
    } else {
      assert (s + [c] + t)[1..] == s[1..] + [c] + t;
      DropControlsIs(s[1..], c, t);
    }
  }

  /** A cleaned line is its decoded text without one final carriage return and without control characters other than
      tabs, cut after `maxLine` characters. */
  lemma CleanIs(decode: seq<Byte> -> string, raw: seq<Byte>, maxLine: nat, text: string)
    requires decode(raw) == text + "\r" || (decode(raw) == text && (text == "" || text[|text| - 1] != '\r'))
    ensures var line := DropControls(text);
            Clean(decode, raw, maxLine) == if |line| <= maxLine then line else line[..maxLine]
  {
    if decode(raw) == text + "\r" { assert decode(raw)[..|text|] == text; }
  }

  /** The bytes of ` INCIDENT ` stand somewhere in the line. */
  lemma MarkedIs(line: seq<Byte>)
    ensures IsMarked(line) <==> Holds(line, [32, 73, 78, 67, 73, 68, 69, 78, 84, 32])
  {
    ContainsIsHolds(line, MARKER);
  }

  // ---- The simple forward definition ----

  /** The cleaned marked lines among `lines`, in order. */
  function Marked(decode: seq<Byte> -> string, lines: seq<seq<Byte>>, maxLine: int): seq<string> {
    if lines == [] then []
    else (if Contains(lines[0], MARKER) then [Clean(decode, lines[0], maxLine)] else [])
         + Marked(decode, lines[1..], maxLine)
  }

  function Last<T>(s: seq<T>, n: int): seq<T> {
    if n <= 0 then [] else if n < |s| then s[|s| - n..] else s
  }

  function Floor(size: nat, maxScan: int): nat {
    if size - maxScan > 0 then size - maxScan else 0
  }

  /** The lines within the scan cap; the first piece is cut off somewhere unless the cap does not bite. */
  function ScannedLines(content: seq<Byte>, maxScan: int): seq<seq<Byte>> {
    var floor := Floor(|content|, maxScan);
    var pieces := Split(if floor <= |content| then content[floor..] else [], NEWLINE);
    if floor > 0 then pieces[1..] else pieces
  }

  /** The last `limit` marked lines of the scanned part, oldest first. */
  function Newest(decode: seq<Byte> -> string, content: seq<Byte>, limit: int, maxLine: int,
      maxScan: int): seq<string>
  {
    Last(Marked(decode, ScannedLines(content, maxScan), maxLine), limit)
  }

  // ---- Lemmas for the loop ----

  function Reverse<T>(s: seq<T>): seq<T> {
    if s == [] then [] else Reverse(s[1..]) + [s[0]]
  }

  lemma {:induction false} ReverseConcat<T>(a: seq<T>, b: seq<T>)
    ensures Reverse(a + b) == Reverse(b) + Reverse(a)
    ensures |Reverse(a)| == |a|
  {
    if a == [] {
      assert a + b == b;
    } else {
      assert (a + b)[1..] == a[1..] + b;
      ReverseConcat(a[1..], b);
    }
  }

  lemma {:induction false} ReverseTwice<T>(s: seq<T>)
    ensures Reverse(Reverse(s)) == s
  {
    if s != [] {
      ReverseTwice(s[1..]);
      ReverseConcat(Reverse(s[1..]), [s[0]]);
      assert [s[0]][1..] == [] && [s[0]] + s[1..] == s;
    }
  }

  lemma {:induction false} MarkedConcat(decode: seq<Byte> -> string, a: seq<seq<Byte>>, b: seq<seq<Byte>>, maxLine: int)
    ensures Marked(decode, a + b, maxLine) == Marked(decode, a, maxLine) + Marked(decode, b, maxLine)
  {
    if a == [] {
      assert a + b == b;
    } else {
      assert (a + b)[1..] == a[1..] + b;
      MarkedConcat(decode, a[1..], b, maxLine);
    }
  }

  /** What has been found: the newest hits of `lines`, newest first, at most `limit` of them. */
  ghost predicate Collected(found: seq<string>, decode: seq<Byte> -> string, lines: seq<seq<Byte>>, maxLine: int,
      limit: int)
  {
    Reverse(found) == Last(Marked(decode, lines, maxLine), limit)
  }

  /** One more line in front. */
  lemma CollectOne(found: seq<string>, decode: seq<Byte> -> string, line: seq<Byte>, lines: seq<seq<Byte>>,
      maxLine: int, limit: int)
    requires Collected(found, decode, lines, maxLine, limit) && |found| < limit
    ensures Collected(if Contains(line, MARKER) then found + [Clean(decode, line, maxLine)] else found,
                      decode, [line] + lines, maxLine, limit)
  {
    assert ([line] + lines)[1..] == lines;
    ReverseConcat(found, [Clean(decode, line, maxLine)]);
    assert Reverse([Clean(decode, line, maxLine)]) == [Clean(decode, line, maxLine)];
  }

  /** Enough is found: more lines in front change nothing. */
  lemma CollectEnough(found: seq<string>, decode: seq<Byte> -> string, front: seq<seq<Byte>>, lines: seq<seq<Byte>>,
      maxLine: int, limit: int)
    requires Collected(found, decode, lines, maxLine, limit) && |found| >= limit
    ensures Collected(found, decode, front + lines, maxLine, limit)
  {
    MarkedConcat(decode, front, lines, maxLine);
    ReverseConcat(found, []);
    var all := Marked(decode, front, maxLine) + Marked(decode, lines, maxLine);
    assert limit > 0 ==> Last(all, limit) == Last(Marked(decode, lines, maxLine), limit);
  }

  /** One more block in front: only the partial line at the seam is split anew. */
  lemma BlockInFront(content: seq<Byte>, lo: nat, hi: nat, tail: seq<Byte>, done: seq<seq<Byte>>)
    requires lo <= hi <= |content| && Split(content[hi..], NEWLINE) == [tail] + done
    ensures Split(content[lo..], NEWLINE) == Split(content[lo..hi] + tail, NEWLINE) + done
  {
    assert content[lo..] == content[lo..hi] + content[hi..];
    assert ([tail] + done)[1..] == done;
    SplitConcat(content[lo..hi], content[hi..], NEWLINE);
  }

  lemma NextBlock(content: seq<Byte>, lo: nat, hi: nat, tail: seq<Byte>, done: seq<seq<Byte>>)
    requires lo <= hi <= |content| && Split(content[hi..], NEWLINE) == [tail] + done
    ensures var lines := Split(content[lo..hi] + tail, NEWLINE);
            |lines| > 0 && Split(content[lo..], NEWLINE) == [lines[0]] + (lines[1..] + done)
  {
    BlockInFront(content, lo, hi, tail, done);
    var lines := Split(content[lo..hi] + tail, NEWLINE);
    assert lines + done == [lines[0]] + (lines[1..] + done);
  }

  /** The scanned lines are some front, still to be read, and what has been read. */
  lemma ScannedFrom(content: seq<Byte>, maxScan: int, pos: nat, tail: seq<Byte>, done: seq<seq<Byte>>)
    returns (front: seq<seq<Byte>>)
    requires Floor(|content|, maxScan) <= pos <= |content|
    requires Split(content[pos..], NEWLINE) == [tail] + done
    ensures ScannedLines(content, maxScan) == front + done
    ensures pos == Floor(|content|, maxScan) ==> front == if pos > 0 then [] else [tail]
  {
    var floor := Floor(|content|, maxScan);
    BlockInFront(content, floor, pos, tail, done);
    var pieces := Split(content[floor..pos] + tail, NEWLINE);
    front := if floor > 0 then pieces[1..] else pieces;
    assert (pieces + done)[1..] == pieces[1..] + done;
    if pos == floor {
      assert content[floor..pos] == [] && [] + tail == tail;
      SplitPiece(content[pos..], NEWLINE);
      assert pieces == [tail];
    }
  }

  // ---- The scan ----

  lemma LineInFront(lines: seq<seq<Byte>>, k: nat, done: seq<seq<Byte>>)
    requires 1 <= k < |lines|
    ensures [lines[k]] + (lines[k + 1..] + done) == lines[k..] + done
    ensures lines[1..k] + (lines[k..] + done) == lines[1..] + done
  {
  }

  /** The whole lines of one block, newest first, until enough is found. */
  method ScanBlock(decode: seq<Byte> -> string, lines: seq<seq<Byte>>, already: seq<string>, limit: int, maxLine: int,
      ghost done: seq<seq<Byte>>)
    returns (found: seq<string>)
    requires |already| < limit && |lines| > 0 && Collected(already, decode, done, maxLine, limit)
    ensures Collected(found, decode, lines[1..] + done, maxLine, limit)
  {
    found := already;
    var k := |lines|;
    assert lines[k..] + done == done;
    while k > 1
      invariant 1 <= k <= |lines| && |found| < limit
      invariant Collected(found, decode, lines[k..] + done, maxLine, limit)
    {
      k := k - 1;
      CollectOne(found, decode, lines[k], lines[k + 1..] + done, maxLine, limit);
      LineInFront(lines, k, done);
      if Contains(lines[k], MARKER) {
        found := found + [Clean(decode, lines[k], maxLine)];
        if |found| >= limit {
          CollectEnough(found, decode, lines[1..k], lines[k..] + done, maxLine, limit);
          return;
        }
      }
    }
  }

  /** `last_incidents` on a readable file: for every block size it is the forward definition. */
  method LastIncidents(decode: seq<Byte> -> string, content: seq<Byte>, limit: int, maxLine: int, block: int,
      maxScan: int)
    returns (found: seq<string>)
    requires block >= 1
    ensures found == Newest(decode, content, limit, maxLine, maxScan)
  {
    found := [];
    var pos := |content|;
    var floor := Floor(pos, maxScan);
    var tail: seq<Byte> := [];
    ghost var done: seq<seq<Byte>> := []; // the whole lines read so far
    assert content[pos..] == [];
    while pos > floor && |found| < limit
      invariant 0 <= pos <= |content|
      invariant pos >= floor || (pos == |content| && tail == [] && found == [])
      invariant Split(content[pos..], NEWLINE) == [tail] + done
      invariant Collected(found, decode, done, maxLine, limit)
      decreases pos
    {
      var size := if block < pos - floor then block else pos - floor;
      NextBlock(content, pos - size, pos, tail, done);
      pos := pos - size;
      var data := content[pos..pos + size] + tail;
      var lines := Split(data, NEWLINE);
      tail := lines[0];
      found := ScanBlock(decode, lines, found, limit, maxLine, done);
      done := lines[1..] + done;
    }
    AfterScan(decode, content, limit, maxLine, maxScan, pos, tail, done, found);
    // At the very start of the file the tail has no line break in front of it.
    if pos == 0 && |found| < limit && Contains(tail, MARKER) {
      found := found + [Clean(decode, tail, maxLine)];
    }
    ReverseTwice(found);
    found := Reverse(found);
  }

  /** After the loop only the remaining tail is missing, and it counts at the start of the file only. */
  lemma AfterScan(decode: seq<Byte> -> string, content: seq<Byte>, limit: int, maxLine: int, maxScan: int,
      pos: nat, tail: seq<Byte>, done: seq<seq<Byte>>, found: seq<string>)
    requires pos <= |content| && Split(content[pos..], NEWLINE) == [tail] + done &&
             Collected(found, decode, done, maxLine, limit)
    requires pos >= Floor(|content|, maxScan) || (pos == |content| && tail == [] && found == [])
    requires pos <= Floor(|content|, maxScan) || |found| >= limit
    ensures Collected(if pos == 0 && |found| < limit && Contains(tail, MARKER)
                      then found + [Clean(decode, tail, maxLine)] else found,
                      decode, ScannedLines(content, maxScan), maxLine, limit)
  {
    if pos >= Floor(|content|, maxScan) {
      var front := ScannedFrom(content, maxScan, pos, tail, done);
      if |found| >= limit {
        CollectEnough(found, decode, front, done, maxLine, limit);
      } else {
        CollectOne(found, decode, tail, done, maxLine, limit);
        assert [] + done == done;
      }
    }
  }

  /** So the result does not depend on the block size. */
  method SameForEveryBlock(decode: seq<Byte> -> string, content: seq<Byte>, limit: int, maxLine: int, maxScan: int,
      block: int, other: int)
    returns (a: seq<string>, b: seq<string>)
    requires block >= 1 && other >= 1
    ensures a == b
  {
    a := LastIncidents(decode, content, limit, maxLine, block, maxScan);
    b := LastIncidents(decode, content, limit, maxLine, other, maxScan);
  }

  predicate IsMarked(line: seq<Byte>) { Contains(line, MARKER) }

  /** Where the marked lines are, counted from `base`. */
  ghost function Places(lines: seq<seq<Byte>>, base: nat): seq<nat> {
    if lines == [] then []
    else (if IsMarked(lines[0]) then [base] else []) + Places(lines[1..], base + 1)
  }

  ghost predicate Increasing(at: seq<nat>) { forall i, j :: 0 <= i < j < |at| ==> at[i] < at[j] }

  ghost predicate MarkedAt(decode: seq<Byte> -> string, lines: seq<seq<Byte>>, maxLine: int, i: int, x: string) {
    0 <= i < |lines| && IsMarked(lines[i]) && x == Clean(decode, lines[i], maxLine)
  }

  /** The place is before the others, and these are enough. */
  ghost predicate PassedOver(at: seq<nat>, limit: int, i: nat) { |at| >= limit && (at != [] ==> i < at[0]) }

  /** The result is made of the lines at these places, in the order of the file: of all marked lines the last ones, and
      none is passed over. */
  ghost predicate NewestAt(decode: seq<Byte> -> string, lines: seq<seq<Byte>>, limit: int, maxLine: int,
      r: seq<string>, at: seq<nat>)
  {
    && |r| == |at| <= (if limit > 0 then limit else 0) && Increasing(at)
    && (forall j :: 0 <= j < |at| ==> MarkedAt(decode, lines, maxLine, at[j], r[j]))
    && (forall i :: 0 <= i < |lines| && IsMarked(lines[i]) && i !in at ==> PassedOver(at, limit, i))
  }

  lemma PlacesStep(decode: seq<Byte> -> string, lines: seq<seq<Byte>>, maxLine: int, base: nat)
    requires lines != []
    ensures var at, r := Places(lines[1..], base + 1), Marked(decode, lines[1..], maxLine);
            if IsMarked(lines[0])
            then Places(lines, base) == [base] + at &&
                 Marked(decode, lines, maxLine) == [Clean(decode, lines[0], maxLine)] + r
            else Places(lines, base) == at && Marked(decode, lines, maxLine) == r
  {
  }

  lemma {:induction false} PlacesInOrder(decode: seq<Byte> -> string, lines: seq<seq<Byte>>, maxLine: int, base: nat)
    ensures var at := Places(lines, base);
            && |Marked(decode, lines, maxLine)| == |at| && Increasing(at)
            && forall j :: 0 <= j < |at| ==> base <= at[j] < base + |lines|
  {
    if lines != [] {
      PlacesInOrder(decode, lines[1..], maxLine, base + 1);
      PlacesStep(decode, lines, maxLine, base);
    }
  }

  lemma {:induction false} PlacesShow(decode: seq<Byte> -> string, lines: seq<seq<Byte>>, maxLine: int, base: nat,
      j: nat)
    requires j < |Places(lines, base)|
    ensures |Marked(decode, lines, maxLine)| == |Places(lines, base)|
    ensures MarkedAt(decode, lines, maxLine, Places(lines, base)[j] - base, Marked(decode, lines, maxLine)[j])
  {
    PlacesInOrder(decode, lines, maxLine, base);
    PlacesStep(decode, lines, maxLine, base);
    var own := if IsMarked(lines[0]) then 1 else 0;
    if j >= own {
      var at, x := Places(lines[1..], base + 1)[j - own], Marked(decode, lines[1..], maxLine)[j - own];
      PlacesShow(decode, lines[1..], maxLine, base + 1, j - own);
      MarkedInTail(decode, lines, maxLine, at - base - 1, x);
      assert Places(lines, base)[j] == at && Marked(decode, lines, maxLine)[j] == x;
    }
  }

  lemma MarkedInTail(decode: seq<Byte> -> string, lines: seq<seq<Byte>>, maxLine: int, i: int, x: string)
    requires lines != [] && MarkedAt(decode, lines[1..], maxLine, i, x)
    ensures MarkedAt(decode, lines, maxLine, i + 1, x)
  {
  }

  lemma {:induction false} PlacesMissNone(lines: seq<seq<Byte>>, base: nat, i: nat)
    requires i < |lines| && IsMarked(lines[i])
    ensures base + i in Places(lines, base)
  {
    if i > 0 {
      PlacesMissNone(lines[1..], base + 1, i - 1);
      assert base + 1 + (i - 1) in Places(lines[1..], base + 1);
    }
  }

  /** All marked lines with their places. */
  ghost predicate Lists(decode: seq<Byte> -> string, lines: seq<seq<Byte>>, maxLine: int, r: seq<string>,
      at: seq<nat>)
  {
    && |r| == |at| && Increasing(at)
    && (forall j :: 0 <= j < |at| ==> MarkedAt(decode, lines, maxLine, at[j], r[j]))
    && (forall i :: 0 <= i < |lines| && IsMarked(lines[i]) ==> i in at)
  }

  lemma PlacesList(decode: seq<Byte> -> string, lines: seq<seq<Byte>>, maxLine: int)
    ensures Lists(decode, lines, maxLine, Marked(decode, lines, maxLine), Places(lines, 0))
  {
    var all, marked := Places(lines, 0), Marked(decode, lines, maxLine);
    PlacesInOrder(decode, lines, maxLine, 0);
    forall j | 0 <= j < |all| ensures MarkedAt(decode, lines, maxLine, all[j], marked[j]) {
      PlacesShow(decode, lines, maxLine, 0, j);
    }
    forall i | 0 <= i < |lines| && IsMarked(lines[i]) ensures i in all { PlacesMissNone(lines, 0, i); }
  }

  lemma NotAmongLast(all: seq<nat>, limit: int, i: nat)
    requires Increasing(all) && i in all && i !in Last(all, limit)
    ensures PassedOver(Last(all, limit), limit, i)
  {
    var at, cut := Last(all, limit), |all| - |Last(all, limit)|;
    assert forall j :: cut <= j < |all| ==> all[j] == at[j - cut] && all[j] in at;
    var j :| 0 <= j < |all| && all[j] == i;
  }

  lemma LastAre<T>(all: seq<nat>, r: seq<T>, limit: int)
    requires |r| == |all| && Increasing(all)
    ensures var at, cut := Last(all, limit), |all| - |Last(all, limit)|;
            && |Last(r, limit)| == |at| <= (if limit > 0 then limit else 0) && Increasing(at) && cut >= 0
            && forall j :: 0 <= j < |at| ==> at[j] == all[cut + j] && Last(r, limit)[j] == r[cut + j]
    ensures forall i: nat :: i in all && i !in Last(all, limit) ==> PassedOver(Last(all, limit), limit, i)
  {
    forall i: nat | i in all && i !in Last(all, limit) ensures PassedOver(Last(all, limit), limit, i) {
      NotAmongLast(all, limit, i);
    }
  }

  /** What the forward definition means: the cleaned forms of the last `limit` marked lines of the scanned part, or of
      all of them while there is room, each at its place. */
  lemma NewestMeaning(decode: seq<Byte> -> string, content: seq<Byte>, limit: int, maxLine: int, maxScan: int)
    ensures var r, lines := Newest(decode, content, limit, maxLine, maxScan), ScannedLines(content, maxScan);
            exists at :: NewestAt(decode, lines, limit, maxLine, r, at)
  {
    var lines := ScannedLines(content, maxScan);
    var all, marked := Places(lines, 0), Marked(decode, lines, maxLine);
    var r, at := Last(marked, limit), Last(all, limit);
    PlacesList(decode, lines, maxLine);
    LastAre(all, marked, limit);
    assert NewestAt(decode, lines, limit, maxLine, r, at);
    assert r == Newest(decode, content, limit, maxLine, maxScan);
  }
}
