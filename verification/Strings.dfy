/** Characters and substrings, as several of the programs look at them. */
module Strings {

  predicate IsDigit(c: char) { '0' <= c <= '9' }

  predicate IsDigits(s: string) { s != "" && forall i :: 0 <= i < |s| ==> IsDigit(s[i]) }

  /** The digits are lower-case. */
  function Hex(n: nat): char
    requires n < 16
  {
    "0123456789abcdef"[n]
  }

  /** `strings.Contains`, and `in` on byte strings. */
  predicate Contains<T(==)>(s: seq<T>, m: seq<T>) {
    m <= s || (s != [] && Contains(s[1..], m))
  }

  ghost predicate Holds<T(!new)>(s: seq<T>, m: seq<T>) { exists x, y :: s == x + m + y }

  lemma {:induction false} ContainsIsHolds<T(!new)>(s: seq<T>, m: seq<T>)
    ensures Contains(s, m) <==> Holds(s, m)
  {
    if s != [] {
      ContainsIsHolds(s[1..], m);
      HoldsStep(s, m);
    } else {
      HoldsNothing(m);
    }
  }

  lemma HoldsNothing<T(!new)>(m: seq<T>)
    ensures Holds([], m) <==> m == []
  {
    var e: seq<T> := [];
    assert e == e + e + e;
  }

  lemma HoldsStep<T(!new)>(s: seq<T>, m: seq<T>)
    requires s != []
    ensures Holds(s, m) <==> m <= s || Holds(s[1..], m)
  {
    if m <= s { assert s == [] + m + s[|m|..]; }
    if Holds(s[1..], m) {
      var x, y :| s[1..] == x + m + y;
      assert s == [s[0]] + s[1..] == ([s[0]] + x) + m + y;
    }
    if Holds(s, m) {
      var x, y :| s == x + m + y;
      SumSplits(s, x, m, y);
    }
  }

  lemma SumSplits<T(!new)>(s: seq<T>, x: seq<T>, m: seq<T>, y: seq<T>)
    requires s == x + m + y
    ensures x == [] ==> m <= s
    ensures x != [] ==> Holds(s[1..], m)
  {
    if x != [] { assert s[1..] == x[1..] + m + y; }
  }

  /** The length of the UTF-8 encoding. */
  function Bytes(s: string): nat {
    if s == "" then 0
    else
      var first := if s[0] < '\U{80}' then 1 else if s[0] < '\U{800}' then 2 else if s[0] < '\U{10000}' then 3 else 4;
      first + Bytes(s[1..])
  }

  function Pow10(n: nat): (p: nat)
    ensures p > 0
  {
    if n == 0 then 1 else 10 * Pow10(n - 1)
  }

  /** Each digit times the power of ten of its place. */
  function Whole(s: string): nat {
    if s == "" then 0 else (if IsDigit(s[0]) then s[0] as int - '0' as int else 0) * Pow10(|s| - 1) + Whole(s[1..])
  }
}
