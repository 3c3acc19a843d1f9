/** Splitting a sequence at a separator, as `bytes.split` and the line readers do. */
module Lines {

  /** All pieces between separators; always at least one piece. */
  function Split<T(==)>(s: seq<T>, sep: T): (r: seq<seq<T>>)
    ensures |r| > 0
  {
    if s == [] then [[]]
    else
      var rest := Split(s[1..], sep);
      if s[0] == sep then [[]] + rest else [[s[0]] + rest[0]] + rest[1..]
  }

  /** Splitting a concatenation: only the piece at the seam is new. */
  lemma {:induction false} SplitConcat<T>(a: seq<T>, b: seq<T>, sep: T)
    ensures Split(a + b, sep) == Split(a + Split(b, sep)[0], sep) + Split(b, sep)[1..]
  {
    var bs := Split(b, sep);
    if a == [] {
      assert a + b == b && a + bs[0] == bs[0];
      SplitPiece(b, sep);
    } else {
      assert (a + b)[1..] == a[1..] + b;
      assert (a + bs[0])[1..] == a[1..] + bs[0];
      SplitConcat(a[1..], b, sep);
    }
  }

  /** The first piece has no separator. */
  lemma {:induction false} SplitPiece<T>(s: seq<T>, sep: T)
    ensures Split(Split(s, sep)[0], sep) == [Split(s, sep)[0]]
    ensures sep !in Split(s, sep)[0]
  {
    if s != [] && s[0] != sep {
      SplitPiece(s[1..], sep);
      assert Split(s, sep)[0][1..] == Split(s[1..], sep)[0];
    }
  }

  lemma {:induction false} SplitWhole<T>(s: seq<T>, sep: T)
    requires sep !in s
    ensures Split(s, sep) == [s]
  {
    if s != [] {
      SplitWhole(s[1..], sep);
      assert [s[0]] + s[1..] == s;
    }
  }

  /** Joining pieces with the separator between them. */
  function Join<T>(pieces: seq<seq<T>>, sep: T): seq<T>
    requires |pieces| > 0
  {
    if |pieces| == 1 then pieces[0] else pieces[0] + [sep] + Join(pieces[1..], sep)
  }

  /** Splitting undoes joining when no piece holds the separator. */
  lemma {:induction false} SplitJoin<T>(pieces: seq<seq<T>>, sep: T)
    requires |pieces| > 0 && forall i :: 0 <= i < |pieces| ==> sep !in pieces[i]
    ensures Split(Join(pieces, sep), sep) == pieces
  {
    if |pieces| == 1 {
      SplitWhole(pieces[0], sep);
    } else {
      SplitJoin(pieces[1..], sep);
      var tail := Join(pieces[1..], sep);
      assert Join(pieces, sep) == pieces[0] + ([sep] + tail);
      SplitConcat(pieces[0], [sep] + tail, sep);
      assert ([sep] + tail)[1..] == tail;
      SplitWhole(pieces[0], sep);
      assert pieces[0] + [] == pieces[0];
    }
  }

  /** Joining undoes splitting. */
  lemma {:induction false} JoinSplit<T>(s: seq<T>, sep: T)
    ensures Join(Split(s, sep), sep) == s
  {
    if s != [] {
      JoinSplit(s[1..], sep);
      var rest := Split(s[1..], sep);
      assert [s[0]] + s[1..] == s;
      if s[0] == sep {
        assert ([[]] + rest)[1..] == rest;
        assert [] + [sep] + Join(rest, sep) == [s[0]] + s[1..];
      } else {
        JoinHead(s[0], rest, sep);
      }
    }
  }

  lemma JoinHead<T>(c: T, pieces: seq<seq<T>>, sep: T)
    requires |pieces| > 0
    ensures Join([[c] + pieces[0]] + pieces[1..], sep) == [c] + Join(pieces, sep)
  {
    var more := [[c] + pieces[0]] + pieces[1..];
    assert more[0] == [c] + pieces[0] && more[1..] == pieces[1..];
    if |pieces| > 1 {
      JoinStep(more, sep);
      JoinStep(pieces, sep);
      Regroup([c], pieces[0], [sep], Join(pieces[1..], sep));
    }
  }

  lemma JoinStep<T>(pieces: seq<seq<T>>, sep: T)
    requires |pieces| > 1
    ensures Join(pieces, sep) == pieces[0] + [sep] + Join(pieces[1..], sep)
  {
  }

  lemma Regroup<T>(a: seq<T>, b: seq<T>, c: seq<T>, d: seq<T>)
    ensures (a + b) + c + d == a + (b + c + d)
  {
  }

  /** No piece holds the separator. */
  lemma {:induction false} SplitHasNone<T>(s: seq<T>, sep: T)
    ensures forall i :: 0 <= i < |Split(s, sep)| ==> sep !in Split(s, sep)[i]
  {
    if s != [] { SplitHasNone(s[1..], sep); }
  }
}
