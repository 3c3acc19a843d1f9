/** The printed export reads back as it was: for every document, exactly when its keys are unique and no key is one the
    printer leaves plain, or implicit, although it must not. */
module YamlRoundTrip {
  import opened Strings
  import opened Wrappers
  import opened Lines
  import opened YamlExport

  // ---- What the reader makes of a document ----

  /** A plain key is resolved like any plain word, so some keys come back as another scalar. */
  function ReadBackKey(key: Scalar): Scalar {
    match key case Str(s) => if IsIdent(s) then Resolve(s) else key case _ => key
  }

  function ReadBack(n: Node): Node
    decreases n, 0
  {
    match n
    case Map(entries) => Map(ReadBackEntries(entries))
    case List(items) => List(ReadBackItems(items))
    case Leaf(_) => n
  }

  function ReadBackEntry(e: Entry): Entry
    decreases e, 0
  {
    Entry(ReadBackKey(e.key), ReadBack(e.value))
  }

  function ReadBackEntries(entries: seq<Entry>): seq<Entry>
    decreases entries, 1
  {
    if entries == [] then [] else [ReadBackEntry(entries[0])] + ReadBackEntries(entries[1..])
  }

  function ReadBackItems(items: seq<Node>): seq<Node>
    decreases items, 1
  {
    if items == [] then [] else [ReadBack(items[0])] + ReadBackItems(items[1..])
  }

  /** A word that the core schema resolves to null or a boolean. */
  predicate IsReserved(s: string) {
    s == "null" || s == "Null" || s == "NULL" || s == "true" || s == "True" || s == "TRUE"
    || s == "false" || s == "False" || s == "FALSE"
  }

  /** Each rule asks for more than the one before: no word with a final line break, no key too long to be implicit,
      no word of the core schema. */
  datatype Rule = AnyString | NotBroken | Readable | Safe

  predicate KeyObeys(rule: Rule, key: Scalar) {
    && key.Str?
    && (rule != AnyString ==> !IsBrokenKey(key.s))
    && (rule == Readable || rule == Safe ==> |KeyText(key)| <= MAX_IMPLICIT_KEY)
    && (rule == Safe ==> !IsReserved(key.s))
  }

  predicate Stricter(a: Rule, b: Rule) { b == AnyString || a == Safe || a == b || (a == Readable && b == NotBroken) }

  /** All keys at any depth are strings that obey the rule. */
  predicate Keys(rule: Rule, n: Node)
    decreases n, 0
  {
    match n
    case Map(entries) => EntriesKeys(rule, entries)
    case List(items) => ItemsKeys(rule, items)
    case Leaf(_) => true
  }

  predicate EntryKeys(rule: Rule, e: Entry)
    decreases e, 0
  {
    KeyObeys(rule, e.key) && Keys(rule, e.value)
  }

  predicate EntriesKeys(rule: Rule, entries: seq<Entry>)
    decreases entries, 1
  {
    entries == [] || (EntryKeys(rule, entries[0]) && EntriesKeys(rule, entries[1..]))
  }

  predicate ItemsKeys(rule: Rule, items: seq<Node>)
    decreases items, 1
  {
    items == [] || (Keys(rule, items[0]) && ItemsKeys(rule, items[1..]))
  }

  /** In every mapping, at any depth, no key occurs twice. */
  predicate Unique(n: Node)
    decreases n, 0
  {
    match n
    case Map(entries) => DistinctKeys(entries) && ValuesUnique(entries)
    case List(items) => ItemsUnique(items)
    case Leaf(_) => true
  }

  predicate ValueUnique(e: Entry)
    decreases e, 0
  {
    Unique(e.value)
  }

  predicate ValuesUnique(entries: seq<Entry>)
    decreases entries, 1
  {
    entries == [] || (ValueUnique(entries[0]) && ValuesUnique(entries[1..]))
  }

  predicate ItemsUnique(items: seq<Node>)
    decreases items, 1
  {
    items == [] || (Unique(items[0]) && ItemsUnique(items[1..]))
  }

  lemma {:induction false} Weaken(a: Rule, b: Rule, n: Node)
    requires Stricter(a, b)
    ensures Keys(a, n) ==> Keys(b, n)
    decreases n, 0
  {
    match n {
      case Map(entries) => WeakenEntries(a, b, entries);
      case List(items) => WeakenItems(a, b, items);
      case Leaf(_) =>
    }
  }

  lemma {:induction false} WeakenEntry(a: Rule, b: Rule, e: Entry)
    requires Stricter(a, b)
    ensures EntryKeys(a, e) ==> EntryKeys(b, e)
    decreases e, 0
  {
    Weaken(a, b, e.value);
  }

  lemma {:induction false} WeakenEntries(a: Rule, b: Rule, entries: seq<Entry>)
    requires Stricter(a, b)
    ensures EntriesKeys(a, entries) ==> EntriesKeys(b, entries)
    decreases entries, 1
  {
    if entries != [] {
      WeakenEntry(a, b, entries[0]);
      WeakenEntries(a, b, entries[1..]);
    }
  }

  lemma {:induction false} WeakenItems(a: Rule, b: Rule, items: seq<Node>)
    requires Stricter(a, b)
    ensures ItemsKeys(a, items) ==> ItemsKeys(b, items)
    decreases items, 1
  {
    if items != [] {
      Weaken(a, b, items[0]);
      WeakenItems(a, b, items[1..]);
    }
  }

  // ---- Scalars read back ----

  lemma EscapeReadsBack(c: char, r: string)
    ensures JsonChar(c) != ""
    ensures JsonChar(c)[0] == '\\' ==>
              Unescape((JsonChar(c) + r)[1..]) == Some((c, |JsonChar(c)| - 1))
    ensures JsonChar(c)[0] != '\\' ==> JsonChar(c) == [c] && c != '"'
    ensures '\n' !in JsonChar(c)
  {
    if c < ' ' && c != '\n' && c != '\r' && c != '\t' && c != '\U{8}' && c != '\U{c}' {
      HexReadsBack(c, r);
    } else if JsonChar(c)[0] == '\\' {
      assert (JsonChar(c) + r)[1..][0] == JsonChar(c)[1];
    }
  }

  lemma HexReadsBack(c: char, r: string)
    requires c < ' '
    ensures var e := "\\u00" + [Hex(c as int / 16), Hex(c as int % 16)];
            Unescape((e + r)[1..]) == Some((c, |e| - 1)) && '\n' !in e
  {
    var h, l := c as int / 16, c as int % 16;
    var t := ("\\u00" + [Hex(h), Hex(l)] + r)[1..];
    assert t[0] == 'u' && t[1] == '0' && t[2] == '0' && t[3] == Hex(h) && t[4] == Hex(l);
    assert HexValue(Hex(h)) == Some(h) && HexValue(Hex(l)) == Some(l);
  }

  lemma {:induction false} StringReadsBack(s: string, r: string)
    ensures Quoted(JsonBody(s) + "\"" + r) == Some((s, r))
    ensures '\n' !in JsonBody(s)
  {
    var t := JsonBody(s) + "\"" + r;
    if s == "" {
      assert t[1..] == r;
    } else {
      var tail := JsonBody(s[1..]) + "\"" + r;
      assert t == JsonChar(s[0]) + tail;
      StringReadsBack(s[1..], r);
      CharReadsBack(s[0], tail);
      assert [s[0]] + s[1..] == s;
    }
  }

  lemma CharReadsBack(c: char, tail: string)
    requires Quoted(tail).Some?
    ensures Quoted(JsonChar(c) + tail) == Some(([c] + Quoted(tail).value.0, Quoted(tail).value.1))
    ensures '\n' !in JsonChar(c)
  {
    var t := JsonChar(c) + tail;
    EscapeReadsBack(c, tail);
    if JsonChar(c)[0] == '\\' {
      assert t[1 + (|JsonChar(c)| - 1)..] == tail;
    } else {
      assert t[1..] == tail;
    }
  }

  lemma {:induction false} NatReadsBack(n: nat)
    ensures IsDigits(NatText(n)) && NatValue(NatText(n)) == n
  {
    if n >= 10 {
      NatReadsBack(n / 10);
      assert NatText(n)[..|NatText(n)| - 1] == NatText(n / 10);
    } else {
      assert NatText(n)[..0] == "";
    }
  }

  lemma {:induction false} IdentLengthOf(s: string, r: string)
    requires forall k :: 0 <= k < |s| ==> IdentChar(s[k])
    requires r != "" ==> !IdentChar(r[0])
    ensures IdentLength(s + r) == |s|
  {
    if s == "" {
      assert s + r == r;
    } else {
      assert (s + r)[1..] == s[1..] + r;
      IdentLengthOf(s[1..], r);
    }
  }

  /** A key followed by a colon reads back, and its line is no dash. */
  predicate KeyLine(s: string, r: string) {
    var t := KeyText(Str(s)) + r;
    ReadKey(t) == Some((ReadBackKey(Str(s)), r)) && !IsDash(t) && Inked(t)
  }

  /** Begins with something that is neither a blank nor a line break. */
  predicate Inked(t: string) {
    t != "" && t[0] > ' '
  }

  lemma KeyReadsBack(s: string, r: string)
    requires !IsBrokenKey(s) && (r == ":" || ": " <= r)
    ensures KeyLine(s, r) && IsKeyed(KeyText(Str(s)) + r)
    ensures IsEntry(KeyText(Str(s)) + r) <==> |KeyText(Str(s))| <= MAX_IMPLICIT_KEY
    ensures '\n' !in KeyText(Str(s))
  {
    if IsIdent(s) { PlainKeyReadsBack(s, r); } else { QuotedKeyReadsBack(s, r); }
  }

  lemma PlainKeyReadsBack(s: string, r: string)
    requires IsIdent(s) && (r == ":" || ": " <= r)
    ensures KeyLine(s, r) && '\n' !in s
  {
    IdentLengthOf(s, r);
    assert (s + r)[..|s|] == s && (s + r)[|s|..] == r;
  }

  lemma QuotedKeyReadsBack(s: string, r: string)
    requires !IsPlainKey(s) && (r == ":" || ": " <= r)
    ensures KeyLine(s, r) && '\n' !in JsonString(s)
  {
    StringReadsBack(s, r);
    QuotedFirst(JsonBody(s), r);
    QuotedIsKey(JsonString(s) + r, s, r);
    QuotedKeyText(s);
    NoBreakInside(JsonBody(s));
  }

  lemma QuotedFirst(body: string, r: string)
    ensures var t := "\"" + body + "\"" + r; t[0] == '"' && t[1..] == body + "\"" + r
  {
  }

  lemma QuotedKeyText(s: string)
    requires !IsPlainKey(s)
    ensures KeyText(Str(s)) == JsonString(s) && ReadBackKey(Str(s)) == Str(s)
  {
  }

  lemma NoBreakInside(body: string)
    requires '\n' !in body
    ensures '\n' !in "\"" + body + "\""
  {
  }

  lemma QuotedIsKey(t: string, s: string, r: string)
    requires t != "" && t[0] == '"' && Quoted(t[1..]) == Some((s, r))
    ensures ReadKey(t) == Some((Str(s), r)) && !IsDash(t) && Inked(t)
  {
  }

  predicate InlineLine(t: string) {
    !IsDash(t) && !IsEntry(t) && '\n' !in t
  }

  /** A value printed on one line reads back and does not look like a nested block. */
  lemma InlineReadsBack(n: Node)
    requires !IsBlock(n)
    ensures ReadInline(Inline(n)) == Some(ReadBack(n)) && InlineLine(Inline(n)) && Unique(ReadBack(n))
  {
    match n {
      case Map(_) =>
        assert ReadBackEntries([]) == [] && Inline(n)[0] == '{';
      case List(_) =>
        assert ReadBackItems([]) == [] && Inline(n)[0] == '[';
      case Leaf(Null) =>
        WordReadsBack("null");
      case Leaf(Bool(b)) =>
        WordReadsBack(if b then "true" else "false");
      case Leaf(Int(i)) =>
        IntReadsBack(i);
      case Leaf(Str(s)) =>
        InlineStringReadsBack(s);
    }
  }

  lemma IntReadsBack(i: int)
    ensures ReadInline(ScalarText(Int(i))) == Some(Leaf(Int(i))) && InlineLine(ScalarText(Int(i)))
  {
    var m: nat := if i < 0 then -i else i;
    NatReadsBack(m);
    if i < 0 {
      assert ("-" + NatText(m))[1..] == NatText(m);
      DashedDigits("-" + NatText(m));
    } else {
      PlainDigits(NatText(m));
    }
  }

  lemma PlainDigits(t: string)
    requires IsDigits(t)
    ensures ReadInline(t) == Some(Leaf(Int(NatValue(t)))) && InlineLine(t)
  {
    assert '0' <= t[0] <= '9';
  }

  lemma DashedDigits(t: string)
    requires t != "" && t[0] == '-' && IsDigits(t[1..])
    ensures ReadInline(t) == Some(Leaf(Int(0 - NatValue(t[1..])))) && InlineLine(t)
  {
    assert t[1] == t[1..][0];
    assert forall k :: 1 <= k < |t| ==> t[k] == t[1..][k - 1];
  }

  lemma InlineStringReadsBack(s: string)
    ensures ReadInline(JsonString(s)) == Some(Leaf(Str(s))) && InlineLine(JsonString(s))
  {
    StringReadsBack(s, "");
    assert JsonString(s)[1..] == JsonBody(s) + "\"" + "";
  }

  lemma WordReadsBack(s: string)
    requires s == "null" || s == "true" || s == "false"
    ensures ReadInline(s) == Some(Leaf(Resolve(s))) && InlineLine(s)
  {
    assert IsIdent(s);
    IdentLengthOf(s, "");
    assert s + "" == s;
  }

  // ---- The printed lines as columns and texts ----

  function LinesOf(n: Node, col: nat): seq<Line>
    decreases n, 0
  {
    match n
    case Map(entries) => EntriesLines(entries, col)
    case List(items) => ItemsLines(items, col)
    case Leaf(_) => []
  }

  function EntryLines(e: Entry, col: nat): seq<Line>
    decreases e, 1
  {
    if IsBlock(e.value) then [Line(col, KeyText(e.key) + ":")] + LinesOf(e.value, col + 2)
    else [Line(col, KeyText(e.key) + ": " + Inline(e.value))]
  }

  function EntriesLines(entries: seq<Entry>, col: nat): seq<Line>
    decreases entries, 2
  {
    if entries == [] then [] else EntryLines(entries[0], col) + EntriesLines(entries[1..], col)
  }

  function HangLines(col: nat, inner: seq<Line>): seq<Line> {
    if inner == [] then [] else [Line(col, "- " + inner[0].text)] + inner[1..]
  }

  function ItemLines(item: Node, col: nat): seq<Line>
    decreases item, 1
  {
    if IsBlock(item) then HangLines(col, LinesOf(item, col + 2)) else [Line(col, "- " + Inline(item))]
  }

  function ItemsLines(items: seq<Node>, col: nat): seq<Line>
    decreases items, 2
  {
    if items == [] then [] else ItemLines(items[0], col) + ItemsLines(items[1..], col)
  }

  /** The first line of a block is at its column and starts a block. */
  lemma {:induction false} FirstLine(n: Node, col: nat)
    requires IsBlock(n) && Keys(NotBroken, n)
    ensures LinesOf(n, col) != [] && LinesOf(n, col)[0].col == col
    ensures var t := LinesOf(n, col)[0].text;
            Inked(t) && (n.Map? ==> (Keys(Readable, n) ==> IsEntry(t)) && !IsDash(t)) && (n.List? ==> IsDash(t))
    decreases n
  {
    if n.Map? {
      FirstKey(NotBroken, n);
      FirstKey(Readable, n);
      FirstEntryLine(n.entries[0], col);
      assert EntryLines(n.entries[0], col)[0] == EntriesLines(n.entries, col)[0];
    } else {
      var item := n.items[0];
      if IsBlock(item) { FirstLine(item, col + 2); }
      assert ItemLines(item, col)[0] == ItemsLines(n.items, col)[0];
    }
  }

  lemma FirstEntryLine(e: Entry, col: nat)
    requires EntryKeys(NotBroken, e)
    ensures EntryLines(e, col) != [] && EntryLines(e, col)[0].col == col
    ensures var t := EntryLines(e, col)[0].text; Inked(t) && !IsDash(t) && (EntryKeys(Readable, e) ==> IsEntry(t))
  {
    KeyReadsBack(e.key.s, ":");
    KeyReadsBack(e.key.s, ": " + Inline(e.value));
    assert KeyText(e.key) + ": " + Inline(e.value) == KeyText(e.key) + (": " + Inline(e.value));
  }

  lemma FirstKey(rule: Rule, n: Node)
    requires IsBlock(n) && n.Map?
    ensures Keys(rule, n) ==> EntryKeys(rule, n.entries[0])
  {
    assert Keys(rule, n) ==> EntriesKeys(rule, n.entries);
  }

  // ---- The reader undoes the printer ----

  predicate Outside(rest: seq<Line>, col: nat) {
    rest == [] || rest[0].col < col
  }

  /** What the reader gives when the keys it has read are unique, and otherwise. */
  function Got<T>(unique: bool, v: T, rest: seq<Line>): Option<(T, seq<Line>)> {
    if unique then Some((v, rest)) else None
  }

  /** One more value in front of what the reader makes of the other lines. */
  function Prepended<T>(unique: bool, v: T, r: Option<(seq<T>, seq<Line>)>): Option<(seq<T>, seq<Line>)> {
    if !unique || r.None? then None else Some(([v] + r.value.0, r.value.1))
  }

  /** The reader gives back every printed block, whatever follows further out. */
  lemma {:induction false} BlockReadsBack(n: Node, col: nat, rest: seq<Line>)
    requires IsBlock(n) && Keys(Readable, n) && Outside(rest, col)
    ensures ReadBlock(LinesOf(n, col) + rest, col) == Got(Unique(ReadBack(n)), ReadBack(n), rest)
    decreases n, 1
  {
    Weaken(Readable, NotBroken, n);
    FirstLine(n, col);
    assert (LinesOf(n, col) + rest)[0] == LinesOf(n, col)[0];
    if n.Map? { EntriesReadBack(n.entries, col, rest); } else { ItemsReadBack(n.items, col, rest); }
  }

  lemma {:induction false} EntriesReadBack(entries: seq<Entry>, col: nat, rest: seq<Line>)
    requires EntriesKeys(Readable, entries) && Outside(rest, col)
    ensures var back := ReadBackEntries(entries);
            ReadEntries(EntriesLines(entries, col) + rest, col) == Got(ValuesUnique(back), back, rest)
    decreases entries, 3
  {
    if entries == [] {
      assert [] + rest == rest;
    } else {
      EntriesReadBack(entries[1..], col, rest);
      EntriesLinesStep(entries, col, rest);
      EntriesStart(entries[1..], col, rest);
      EntryReadsBack(entries[0], col, EntriesLines(entries[1..], col) + rest);
    }
  }

  lemma EntriesLinesStep(entries: seq<Entry>, col: nat, rest: seq<Line>)
    requires entries != []
    ensures EntriesLines(entries, col) + rest == EntryLines(entries[0], col) + (EntriesLines(entries[1..], col) + rest)
    ensures ReadBackEntries(entries) == [ReadBackEntry(entries[0])] + ReadBackEntries(entries[1..])
    ensures ValuesUnique(ReadBackEntries(entries)) <==>
              Unique(ReadBack(entries[0].value)) && ValuesUnique(ReadBackEntries(entries[1..]))
  {
    var back := ReadBackEntries(entries);
    assert back[1..] == ReadBackEntries(entries[1..]);
  }

  lemma {:induction false} EntryReadsBack(e: Entry, col: nat, more: seq<Line>)
    requires EntryKeys(Readable, e) && Outside(more, col + 1)
    ensures ReadEntries(EntryLines(e, col) + more, col) ==
              Prepended(Unique(ReadBack(e.value)), ReadBackEntry(e), ReadEntries(more, col))
    decreases e, 2
  {
    if IsBlock(e.value) {
      BlockReadsBack(e.value, col + 2, more);
      NestedEntry(e, col, more);
    } else {
      InlineEntry(e, col, more);
    }
  }

  lemma NestedEntry(e: Entry, col: nat, more: seq<Line>)
    requires IsBlock(e.value) && EntryKeys(Readable, e)
    requires var v := ReadBack(e.value); ReadBlock(LinesOf(e.value, col + 2) + more, col + 2) == Got(Unique(v), v, more)
    ensures ReadEntries(EntryLines(e, col) + more, col) ==
              Prepended(Unique(ReadBack(e.value)), ReadBackEntry(e), ReadEntries(more, col))
  {
    Weaken(Readable, NotBroken, e.value);
    FirstLine(e.value, col + 2);
    KeyReadsBack(e.key.s, ":");
    var inner := LinesOf(e.value, col + 2);
    HeadAndTail(Line(col, KeyText(e.key) + ":"), inner, more);
    ReadNested([Line(col, KeyText(e.key) + ":")] + inner + more, col,
               ReadBackKey(e.key), Unique(ReadBack(e.value)), ReadBack(e.value), more);
  }

  lemma HeadAndTail(head: Line, inner: seq<Line>, more: seq<Line>)
    requires inner != []
    ensures var ls := [head] + inner + more;
            |ls| >= 2 && ls[0] == head && ls[1] == inner[0] && ls[1..] == inner + more
  {
  }

  lemma ReadNested(ls: seq<Line>, col: nat, key: Scalar, unique: bool, n: Node, more: seq<Line>)
    requires |ls| >= 2 && ls[0].col == col && ls[1].col == col + 2
    requires IsEntry(ls[0].text) && ReadKey(ls[0].text) == Some((key, ":"))
    requires ReadBlock(ls[1..], col + 2) == Got(unique, n, more)
    ensures ReadEntries(ls, col) == Prepended(unique, Entry(key, n), ReadEntries(more, col))
  {
  }

  lemma InlineEntry(e: Entry, col: nat, more: seq<Line>)
    requires !IsBlock(e.value) && EntryKeys(Readable, e)
    ensures ReadEntries(EntryLines(e, col) + more, col) ==
              Prepended(Unique(ReadBack(e.value)), ReadBackEntry(e), ReadEntries(more, col))
  {
    var t := ": " + Inline(e.value);
    KeyReadsBack(e.key.s, t);
    InlineReadsBack(e.value);
    ColonText(KeyText(e.key), Inline(e.value));
    assert t[2..] == Inline(e.value);
    ReadOneLine(Line(col, KeyText(e.key) + t), col, ReadBackKey(e.key), t, ReadBack(e.value), more);
  }

  lemma ReadOneLine(line: Line, col: nat, key: Scalar, t: string, n: Node, more: seq<Line>)
    requires line.col == col && IsEntry(line.text) && ReadKey(line.text) == Some((key, t))
    requires ": " <= t && ReadInline(t[2..]) == Some(n)
    ensures ReadEntries([line] + more, col) == Prepended(true, Entry(key, n), ReadEntries(more, col))
  {
    assert ([line] + more)[1..] == more;
  }

  lemma EntriesStart(entries: seq<Entry>, col: nat, rest: seq<Line>)
    requires Outside(rest, col)
    ensures Outside(EntriesLines(entries, col) + rest, col + 1)
  {
    if entries != [] { assert EntryLines(entries[0], col)[0].col == col; }
  }

  lemma {:induction false} ItemsReadBack(items: seq<Node>, col: nat, rest: seq<Line>)
    requires ItemsKeys(Readable, items) && Outside(rest, col)
    ensures var back := ReadBackItems(items);
            ReadItems(ItemsLines(items, col) + rest, col) == Got(ItemsUnique(back), back, rest)
    decreases items, 3
  {
    if items == [] {
      assert [] + rest == rest;
    } else {
      ItemsReadBack(items[1..], col, rest);
      ItemsLinesStep(items, col, rest);
      ItemsStart(items[1..], col, rest);
      ItemReadsBack(items[0], col, ItemsLines(items[1..], col) + rest);
    }
  }

  lemma ItemsLinesStep(items: seq<Node>, col: nat, rest: seq<Line>)
    requires items != []
    ensures ItemsLines(items, col) + rest == ItemLines(items[0], col) + (ItemsLines(items[1..], col) + rest)
    ensures ReadBackItems(items) == [ReadBack(items[0])] + ReadBackItems(items[1..])
    ensures ItemsUnique(ReadBackItems(items)) <==>
              Unique(ReadBack(items[0])) && ItemsUnique(ReadBackItems(items[1..]))
  {
    var back := ReadBackItems(items);
    assert back[1..] == ReadBackItems(items[1..]);
  }

  lemma {:induction false} ItemReadsBack(item: Node, col: nat, more: seq<Line>)
    requires Keys(Readable, item) && Outside(more, col + 1)
    ensures ReadItems(ItemLines(item, col) + more, col) ==
              Prepended(Unique(ReadBack(item)), ReadBack(item), ReadItems(more, col))
    decreases item, 2
  {
    if IsBlock(item) {
      BlockReadsBack(item, col + 2, more);
      NestedItem(item, col, more);
    } else {
      InlineItem(item, col, more);
    }
  }

  lemma NestedItem(item: Node, col: nat, more: seq<Line>)
    requires IsBlock(item) && Keys(Readable, item)
    requires var v := ReadBack(item); ReadBlock(LinesOf(item, col + 2) + more, col + 2) == Got(Unique(v), v, more)
    ensures ReadItems(ItemLines(item, col) + more, col) ==
              Prepended(Unique(ReadBack(item)), ReadBack(item), ReadItems(more, col))
  {
    var ls := ItemLines(item, col) + more;
    Weaken(Readable, NotBroken, item);
    FirstLine(item, col + 2);
    var inner := LinesOf(item, col + 2);
    assert ls == HangLines(col, inner) + more;
    HangUnhang(inner, col, more);
  }

  /** Taking the dash off a hung block gives the block back. */
  lemma HangUnhang(inner: seq<Line>, col: nat, more: seq<Line>)
    requires inner != [] && inner[0].col == col + 2
    ensures var ls := HangLines(col, inner) + more;
            ls != [] && ls[0] == Line(col, "- " + inner[0].text) && ls[0].text[2..] == inner[0].text
            && [Line(col + 2, inner[0].text)] + ls[1..] == inner + more
  {
  }

  lemma InlineItem(item: Node, col: nat, more: seq<Line>)
    requires !IsBlock(item)
    ensures ReadItems(ItemLines(item, col) + more, col) ==
              Prepended(Unique(ReadBack(item)), ReadBack(item), ReadItems(more, col))
  {
    var ls := ItemLines(item, col) + more;
    InlineReadsBack(item);
    assert ls[0] == Line(col, "- " + Inline(item));
    assert ls[0].text[2..] == Inline(item);
    assert ls[1..] == more;
  }

  lemma ItemsStart(items: seq<Node>, col: nat, rest: seq<Line>)
    requires Outside(rest, col) && ItemsKeys(Readable, items)
    ensures Outside(ItemsLines(items, col) + rest, col + 1)
  {
    if items != [] {
      if IsBlock(items[0]) {
        Weaken(Readable, NotBroken, items[0]);
        FirstLine(items[0], col + 2);
      }
      assert ItemLines(items[0], col)[0].col == col;
    }
  }

  // ---- From lines to text ----

  lemma {:induction false} IndentOf(c: nat, t: string)
    requires Inked(t)
    ensures Blanks(Spaces(c) + t) == c && ToLine(Spaces(c) + t) == Line(c, t)
    ensures Lstrip(Spaces(c) + t) == t
  {
    var s := Spaces(c) + t;
    if c == 0 {
      assert s == t;
    } else {
      assert s[1..] == Spaces(c - 1) + t;
      IndentOf(c - 1, t);
      assert s[c..] == t;
    }
  }

  lemma ToLinesConcat(a: seq<string>, b: seq<string>)
    ensures ToLines(a + b) == ToLines(a) + ToLines(b)
  {
  }

  predicate OneLiners(lines: seq<string>) {
    forall i :: 0 <= i < |lines| ==> '\n' !in lines[i]
  }

  /** What `_emit` prints is the lines above, each with its indentation in front. */
  ghost predicate Prints(lines: seq<string>, ls: seq<Line>) {
    ToLines(lines) == ls && OneLiners(lines)
  }

  lemma PrintsOne(c: nat, t: string)
    requires Inked(t) && '\n' !in t
    ensures Prints([Spaces(c) + t], [Line(c, t)])
  {
    IndentOf(c, t);
  }

  lemma PrintsConcat(a: seq<string>, la: seq<Line>, b: seq<string>, lb: seq<Line>)
    requires Prints(a, la) && Prints(b, lb)
    ensures Prints(a + b, la + lb)
  {
    ToLinesConcat(a, b);
  }

  lemma {:induction false} EmitPrints(n: Node, k: nat)
    requires Keys(NotBroken, n)
    ensures Prints(Emit(n, k), LinesOf(n, 2 * k))
    decreases n, 1
  {
    match n {
      case Map(entries) => EntriesPrint(entries, k);
      case List(items) => ItemsPrint(items, k);
      case Leaf(_) =>
    }
  }

  lemma {:induction false} EntriesPrint(entries: seq<Entry>, k: nat)
    requires EntriesKeys(NotBroken, entries)
    ensures Prints(EmitEntries(entries, k), EntriesLines(entries, 2 * k))
    decreases entries, 3
  {
    if entries != [] {
      EntryPrints(entries[0], k);
      EntriesPrint(entries[1..], k);
      PrintsConcat(EmitEntry(entries[0], k), EntryLines(entries[0], 2 * k),
                   EmitEntries(entries[1..], k), EntriesLines(entries[1..], 2 * k));
    }
  }

  lemma {:induction false} EntryPrints(e: Entry, k: nat)
    requires EntryKeys(NotBroken, e)
    ensures Prints(EmitEntry(e, k), EntryLines(e, 2 * k))
    decreases e, 2
  {
    if IsBlock(e.value) {
      EmitPrints(e.value, k + 1);
      KeyPrints(e.key.s, ":", 2 * k);
      PrintsConcat([Spaces(2 * k) + KeyText(e.key) + ":"], [Line(2 * k, KeyText(e.key) + ":")],
                   Emit(e.value, k + 1), LinesOf(e.value, 2 * k + 2));
    } else {
      InlineReadsBack(e.value);
      KeyPrints(e.key.s, ": " + Inline(e.value), 2 * k);
      ColonText(Spaces(2 * k) + KeyText(e.key), Inline(e.value));
      ColonText(KeyText(e.key), Inline(e.value));
    }
  }

  lemma ColonText(a: string, b: string)
    ensures a + ": " + b == a + (": " + b)
  {
  }

  lemma KeyPrints(s: string, r: string, col: nat)
    requires !IsBrokenKey(s) && (r == ":" || ": " <= r) && '\n' !in r
    ensures Prints([Spaces(col) + KeyText(Str(s)) + r], [Line(col, KeyText(Str(s)) + r)])
  {
    KeyReadsBack(s, r);
    PrintsOne(col, KeyText(Str(s)) + r);
    assert Spaces(col) + KeyText(Str(s)) + r == Spaces(col) + (KeyText(Str(s)) + r);
  }

  lemma {:induction false} ItemsPrint(items: seq<Node>, k: nat)
    requires ItemsKeys(NotBroken, items)
    ensures Prints(EmitItems(items, k), ItemsLines(items, 2 * k))
    decreases items, 3
  {
    if items != [] {
      ItemPrints(items[0], k);
      ItemsPrint(items[1..], k);
      PrintsConcat(EmitItem(items[0], k), ItemLines(items[0], 2 * k),
                   EmitItems(items[1..], k), ItemsLines(items[1..], 2 * k));
    }
  }

  lemma {:induction false} ItemPrints(item: Node, k: nat)
    requires Keys(NotBroken, item)
    ensures Prints(EmitItem(item, k), ItemLines(item, 2 * k))
    decreases item, 2
  {
    var pad := Spaces(2 * k);
    if IsBlock(item) {
      EmitPrints(item, k + 1);
      FirstLine(item, 2 * k + 2);
      HangPrints(k, Emit(item, k + 1), LinesOf(item, 2 * k + 2));
    } else {
      InlineReadsBack(item);
      PrintsOne(2 * k, "- " + Inline(item));
      assert pad + "- " + Inline(item) == pad + ("- " + Inline(item));
    }
  }

  /** The compact form of a nested block: the dash stands where its first two blanks would. */
  lemma HangPrints(k: nat, inner: seq<string>, ls: seq<Line>)
    requires Prints(inner, ls) && ls != [] && Inked(ls[0].text)
    ensures Prints(Hang(Spaces(2 * k), inner), HangLines(2 * k, ls))
  {
    var pad, t := Spaces(2 * k), ls[0].text;
    assert ToLines(inner)[0] == ToLine(inner[0]) == ls[0];
    LstripIsText(inner[0]);
    assert forall i :: 0 <= i < |t| ==> t[i] == inner[0][Blanks(inner[0]) + i];
    PrintsOne(2 * k, "- " + t);
    assert pad + "- " + t == pad + ("- " + t);
    assert ToLines(inner[1..]) == ls[1..];
    PrintsConcat([pad + "- " + t], [Line(2 * k, "- " + t)], inner[1..], ls[1..]);
  }

  lemma {:induction false} LstripIsText(s: string)
    requires Inked(s[Blanks(s)..])
    ensures Lstrip(s) == s[Blanks(s)..]
  {
    if s[0] == ' ' {
      assert s[Blanks(s)..] == s[1..][Blanks(s[1..])..];
      LstripIsText(s[1..]);
    } else {
      assert s[0..] == s;
    }
  }

  lemma {:induction false} JoinNewline(lines: seq<string>)
    requires lines != []
    ensures Join(lines + [""], '\n') == Join(lines, '\n') + "\n"
  {
    assert (lines + [""])[1..] == lines[1..] + [""];
    if |lines| == 1 {
      assert lines[1..] + [""] == [""];
      assert Join(lines + [""], '\n') == lines[0] + ['\n'] + "";
    } else {
      JoinNewline(lines[1..]);
      assert Join(lines + [""], '\n') == lines[0] + ['\n'] + (Join(lines[1..], '\n') + "\n");
    }
  }

  /** A text of plain lines is read line by line. */
  lemma ReadOfLines(lines: seq<string>)
    requires lines != [] && OneLiners(lines)
    ensures var ls := ToLines(lines);
            Read(Join(lines, '\n') + "\n") == match ReadBlock(ls, ls[0].col)
                                               case None => None
                                               case Some(b) => if b.1 == [] then Some(b.0) else None
  {
    JoinNewline(lines);
    SplitJoin(lines + [""], '\n');
    assert (lines + [""])[..|lines|] == lines;
  }

  /** Reading a printed document is reading its lines. */
  lemma ReadOfPrinted(n: Node)
    requires IsBlock(n) && Keys(NotBroken, n)
    ensures Read(ToYaml(n)) == match ReadBlock(LinesOf(n, 0), 0)
                               case None => None
                               case Some(b) => if b.1 == [] then Some(b.0) else None
  {
    var lines := Emit(n, 0);
    EmitPrints(n, 0);
    EmitNonempty(n, 0);
    ReadOfLines(lines);
    FirstLine(n, 0);
  }

  /** Every document whose keys are neither broken nor too long reads back with its plain keys resolved, unless two keys
      of one mapping resolve to the same. */
  lemma PrintedReadsBack(n: Node)
    requires IsBlock(n) && Keys(Readable, n)
    ensures Read(ToYaml(n)) == if Unique(ReadBack(n)) then Some(ReadBack(n)) else None
  {
    Weaken(Readable, NotBroken, n);
    ReadOfPrinted(n);
    BlockReadsBack(n, 0, []);
    assert LinesOf(n, 0) + [] == LinesOf(n, 0);
  }

  // ---- Which keys come back ----

  lemma ReservedWords(s: string)
    ensures IsReserved(s) <==> Resolve(s) != Str(s)
    ensures IsReserved(s) ==> IsIdent(s)
  {
  }

  lemma {:induction false} SafeReadsBack(n: Node)
    requires Keys(Readable, n)
    ensures ReadBack(n) == n <==> Keys(Safe, n)
    decreases n, 0
  {
    match n {
      case Map(entries) => SafeEntries(entries);
      case List(items) => SafeItems(items);
      case Leaf(_) =>
    }
  }

  lemma {:induction false} SafeEntry(e: Entry)
    requires EntryKeys(Readable, e)
    ensures ReadBackEntry(e) == e <==> EntryKeys(Safe, e)
    decreases e, 0
  {
    ReservedWords(e.key.s);
    SafeReadsBack(e.value);
  }

  lemma {:induction false} SafeEntries(entries: seq<Entry>)
    requires EntriesKeys(Readable, entries)
    ensures ReadBackEntries(entries) == entries <==> EntriesKeys(Safe, entries)
    decreases entries, 1
  {
    if entries != [] {
      SafeEntry(entries[0]);
      SafeEntries(entries[1..]);
      assert [entries[0]] + entries[1..] == entries;
      assert ReadBackEntries(entries)[0] == ReadBackEntry(entries[0]);
      assert ReadBackEntries(entries)[1..] == ReadBackEntries(entries[1..]);
    }
  }

  lemma {:induction false} SafeItems(items: seq<Node>)
    requires ItemsKeys(Readable, items)
    ensures ReadBackItems(items) == items <==> ItemsKeys(Safe, items)
    decreases items, 1
  {
    if items != [] {
      SafeReadsBack(items[0]);
      SafeItems(items[1..]);
      assert [items[0]] + items[1..] == items;
      assert ReadBackItems(items)[0] == ReadBack(items[0]);
      assert ReadBackItems(items)[1..] == ReadBackItems(items[1..]);
    }
  }

  // ---- A broken key never comes back ----

  /** A key character, a line break and a colon in a row, the break at `i`. */
  predicate BreaksAt(s: string, i: nat) {
    0 < i < |s| - 1 && IdentChar(s[i - 1]) && s[i] == '\n' && s[i + 1] == ':'
  }

  ghost predicate Breaks(s: string) {
    exists i: nat :: BreaksAt(s, i)
  }

  ghost predicate SomeBreaks(lines: seq<string>) {
    exists k :: 0 <= k < |lines| && Breaks(lines[k])
  }

  lemma BreaksInside(a: string, s: string, b: string)
    requires Breaks(s)
    ensures Breaks(a + s + b)
  {
    var i: nat :| BreaksAt(s, i);
    assert BreaksAt(a + s + b, |a| + i);
  }

  lemma {:induction false} BreaksLstrip(s: string)
    requires Breaks(s)
    ensures Breaks(Lstrip(s))
  {
    var i: nat :| BreaksAt(s, i);
    if s[0] == ' ' || '\t' <= s[0] <= '\r' {
      assert BreaksAt(s[1..], i - 1);
      BreaksLstrip(s[1..]);
    }
  }

  lemma SomeBreaksConcat(a: seq<string>, b: seq<string>)
    requires SomeBreaks(a) || SomeBreaks(b)
    ensures SomeBreaks(a + b)
  {
    if SomeBreaks(a) {
      var k :| 0 <= k < |a| && Breaks(a[k]);
      assert (a + b)[k] == a[k];
    } else {
      var k :| 0 <= k < |b| && Breaks(b[k]);
      assert (a + b)[|a| + k] == b[k];
    }
  }

  lemma {:induction false} BrokenEmits(n: Node, k: nat)
    requires Keys(AnyString, n) && !Keys(NotBroken, n)
    ensures SomeBreaks(Emit(n, k))
    decreases n, 1
  {
    match n {
      case Map(entries) => BrokenEntries(entries, k);
      case List(items) => BrokenItems(items, k);
    }
  }

  lemma {:induction false} BrokenEntries(entries: seq<Entry>, k: nat)
    requires EntriesKeys(AnyString, entries) && !EntriesKeys(NotBroken, entries)
    ensures SomeBreaks(EmitEntries(entries, k))
    decreases entries, 3
  {
    if !EntryKeys(NotBroken, entries[0]) { BrokenEntry(entries[0], k); } else { BrokenEntries(entries[1..], k); }
    SomeBreaksConcat(EmitEntry(entries[0], k), EmitEntries(entries[1..], k));
  }

  lemma {:induction false} BrokenEntry(e: Entry, k: nat)
    requires EntryKeys(AnyString, e) && !EntryKeys(NotBroken, e)
    ensures SomeBreaks(EmitEntry(e, k))
    decreases e, 2
  {
    var pad, key := Spaces(2 * k), e.key.s;
    if IsBrokenKey(key) {
      BrokenKeyBreaks(key);
      if IsBlock(e.value) {
        BreaksInside(pad, key + ":", "");
        assert pad + (key + ":") + "" == pad + KeyText(e.key) + ":" == EmitEntry(e, k)[0];
      } else {
        BreaksInside(pad, key + ":", " " + Inline(e.value));
        assert pad + (key + ":") + (" " + Inline(e.value)) == pad + KeyText(e.key) + ": " + Inline(e.value);
        assert pad + KeyText(e.key) + ": " + Inline(e.value) == EmitEntry(e, k)[0];
      }
    } else {
      BrokenIsBlock(e.value);
      BrokenEmits(e.value, k + 1);
      SomeBreaksConcat([pad + KeyText(e.key) + ":"], Emit(e.value, k + 1));
    }
  }

  lemma BrokenKeyBreaks(key: string)
    requires IsBrokenKey(key)
    ensures Breaks(key + ":")
  {
    var i := |key| - 1;
    assert key[i - 1] == key[..i][i - 1];
    assert BreaksAt(key + ":", i);
  }

  lemma BrokenIsBlock(n: Node)
    requires Keys(AnyString, n) && !Keys(NotBroken, n)
    ensures IsBlock(n)
  {
  }

  lemma {:induction false} BrokenItems(items: seq<Node>, k: nat)
    requires ItemsKeys(AnyString, items) && !ItemsKeys(NotBroken, items)
    ensures SomeBreaks(EmitItems(items, k))
    decreases items, 3
  {
    if !Keys(NotBroken, items[0]) { BrokenItem(items[0], k); } else { BrokenItems(items[1..], k); }
    SomeBreaksConcat(EmitItem(items[0], k), EmitItems(items[1..], k));
  }

  lemma {:induction false} BrokenItem(item: Node, k: nat)
    requires Keys(AnyString, item) && !Keys(NotBroken, item)
    ensures SomeBreaks(EmitItem(item, k))
    decreases item, 2
  {
    BrokenIsBlock(item);
    BrokenEmits(item, k + 1);
    HangBreaks(Spaces(2 * k), Emit(item, k + 1));
  }

  lemma HangBreaks(pad: string, inner: seq<string>)
    requires SomeBreaks(inner)
    ensures SomeBreaks(Hang(pad, inner))
  {
    var j :| 0 <= j < |inner| && Breaks(inner[j]);
    if j == 0 {
      BreaksLstrip(inner[0]);
      BreaksInside(pad + "- ", Lstrip(inner[0]), "");
      assert pad + "- " + Lstrip(inner[0]) + "" == Hang(pad, inner)[0];
    } else {
      assert Hang(pad, inner)[j] == inner[j];
    }
  }

  lemma {:induction false} JoinBreaks(lines: seq<string>)
    requires SomeBreaks(lines)
    ensures Breaks(Join(lines, '\n'))
  {
    var k :| 0 <= k < |lines| && Breaks(lines[k]);
    var t := Join(lines, '\n');
    if |lines| > 1 {
      var tail := Join(lines[1..], '\n');
      if k == 0 {
        BreaksInside("", lines[0], "\n" + tail);
        assert "" + lines[0] + ("\n" + tail) == t;
      } else {
        assert lines[1..][k - 1] == lines[k];
        JoinBreaks(lines[1..]);
        BreaksInside(lines[0] + "\n", tail, "");
        assert lines[0] + "\n" + tail + "" == t;
      }
    }
  }

  /** The break puts a colon at the start of a line. */
  lemma {:induction false} BreakStartsLine(s: string, i: nat)
    requires i < |s| - 1 && s[i] == '\n' && s[i + 1] == ':'
    ensures exists k :: 0 < k < |Split(s, '\n')| && StartsWithColon(Split(s, '\n')[k])
  {
    var rest := Split(s[1..], '\n');
    if i == 0 {
      assert s[1..][0] == ':';
      assert Split(s, '\n')[1] == rest[0];
    } else {
      BreakStartsLine(s[1..], i - 1);
      var k :| 0 < k < |rest| && StartsWithColon(rest[k]);
      assert StartsWithColon(Split(s, '\n')[if s[0] == '\n' then k + 1 else k]);
    }
  }

  predicate StartsWithColon(t: string) {
    t != "" && t[0] == ':'
  }

  /** Behind any number of dashes, a key that is too long to be implicit. */
  predicate IsStuck(t: string)
    decreases |t|
  {
    if IsDash(t) then IsStuck(t[2..]) else IsKeyed(t) && KeyLength(t) > MAX_IMPLICIT_KEY
  }

  /** What the reader has consumed: a prefix of the lines, none of which is further out or has a key too long. */
  ghost predicate Consumed(ls: seq<Line>, rest: seq<Line>, n: nat, col: nat) {
    n <= |ls| && rest == ls[n..] && forall i :: 0 <= i < n ==> ls[i].col >= col && !IsStuck(ls[i].text)
  }

  lemma ConsumedMore(ls: seq<Line>, mid: seq<Line>, rest: seq<Line>, n: nat, m: nat, inner: nat, col: nat)
    requires Consumed(ls, mid, n, inner) && Consumed(mid, rest, m, col) && inner >= col
    ensures Consumed(ls, rest, n + m, col)
  {
    assert forall i :: n <= i < n + m ==> ls[i] == mid[i - n];
  }

  lemma {:induction false} BlockConsumes(ls: seq<Line>, col: nat) returns (n: nat)
    requires ReadBlock(ls, col).Some?
    ensures n > 0 && Consumed(ls, ReadBlock(ls, col).value.1, n, col)
    decreases Size(ls), 1
  {
    if IsDash(ls[0].text) {
      n := ItemsConsume(ls, col);
    } else if IsEntry(ls[0].text) {
      n := EntriesConsume(ls, col);
    } else {
      InlineIsNotStuck(ls[0].text);
      n := 1;
    }
  }

  lemma UnhungConsumed(ls: seq<Line>, nested: seq<Line>, mid: seq<Line>, k: nat, col: nat)
    requires k > 0 && Consumed(nested, mid, k, col + 2) && |nested| == |ls| && nested[1..] == ls[1..]
    requires IsDash(ls[0].text) && ls[0].col == col && nested[0].text == ls[0].text[2..]
    ensures Consumed(ls, mid, k, col) && forall i :: 1 <= i < k ==> ls[i].col > col
  {
    assert nested[k..] == ls[k..];
    forall i | 1 <= i < k ensures ls[i] == nested[i] { assert ls[i] == ls[1..][i - 1]; }
  }

  lemma {:induction false} ItemsConsume(ls: seq<Line>, col: nat) returns (n: nat)
    requires ReadItems(ls, col).Some?
    ensures Consumed(ls, ReadItems(ls, col).value.1, n, col)
    ensures ls != [] && ls[0].col == col && IsDash(ls[0].text) ==> n > 0
    decreases Size(ls), 0
  {
    if ls == [] || ls[0].col != col || !IsDash(ls[0].text) {
      n := 0;
    } else {
      var t := ls[0].text[2..];
      if IsDash(t) || IsEntry(t) {
        var nested := [Line(col + 2, t)] + ls[1..];
        assert nested[1..] == ls[1..];
        var k := BlockConsumes(nested, col + 2);
        var mid := ReadBlock(nested, col + 2).value.1;
        UnhungConsumed(ls, nested, mid, k, col);
        var m := ItemsConsume(mid, col);
        ConsumedMore(ls, mid, ReadItems(mid, col).value.1, k, m, col, col);
        n := k + m;
      } else {
        InlineItemConsumed(ls);
        var m := ItemsConsume(ls[1..], col);
        ConsumedMore(ls, ls[1..], ReadItems(ls[1..], col).value.1, 1, m, col, col);
        n := 1 + m;
      }
    }
  }

  lemma InlineItemConsumed(ls: seq<Line>)
    requires ls != [] && IsDash(ls[0].text) && !IsDash(ls[0].text[2..]) && ReadInline(ls[0].text[2..]).Some?
    ensures Consumed(ls, ls[1..], 1, ls[0].col)
  {
    InlineIsNotStuck(ls[0].text[2..]);
  }

  lemma InlineIsNotStuck(t: string)
    requires ReadInline(t).Some? && !IsDash(t)
    ensures !IsStuck(t)
  {
    if IsIdent(t) {
      IdentLengthOf(t, "");
      assert t + "" == t;
    }
  }

  lemma EntryConsumed(ls: seq<Line>)
    requires ls != [] && IsEntry(ls[0].text)
    ensures Consumed(ls, ls[1..], 1, ls[0].col)
  {
  }

  lemma {:induction false} EntriesConsume(ls: seq<Line>, col: nat) returns (n: nat)
    requires ReadEntries(ls, col).Some?
    ensures Consumed(ls, ReadEntries(ls, col).value.1, n, col)
    ensures ls != [] && ls[0].col == col && IsEntry(ls[0].text) ==> n > 0
    decreases Size(ls), 0
  {
    if ls == [] || ls[0].col != col || !IsEntry(ls[0].text) {
      n := 0;
    } else {
      EntryConsumed(ls);
      var t := ReadKey(ls[0].text).value.1;
      if t == ":" {
        var k := BlockConsumes(ls[1..], ls[1].col);
        var mid := ReadBlock(ls[1..], ls[1].col).value.1;
        var m := EntriesConsume(mid, col);
        ConsumedMore(ls[1..], mid, ReadEntries(mid, col).value.1, k, m, ls[1].col, col);
        ConsumedMore(ls, ls[1..], ReadEntries(mid, col).value.1, 1, k + m, col, col);
        n := 1 + k + m;
      } else {
        var m := EntriesConsume(ls[1..], col);
        ConsumedMore(ls, ls[1..], ReadEntries(ls[1..], col).value.1, 1, m, col, col);
        n := 1 + m;
      }
    }
  }

  /** A line that starts with a colon, in the first column. */
  predicate IsColonLine(line: Line) { line.col == 0 && StartsWithColon(line.text) }

  predicate HasNullKey(entries: seq<Entry>) { exists i :: 0 <= i < |entries| && entries[i].key == Null }

  lemma NullKeyBehind(e: Entry, entries: seq<Entry>)
    requires e.key == Null || HasNullKey(entries)
    ensures HasNullKey([e] + entries)
  {
    if e.key == Null {
      assert ([e] + entries)[0].key == Null;
    } else {
      var i :| 0 <= i < |entries| && entries[i].key == Null;
      assert ([e] + entries)[i + 1].key == Null;
    }
  }

  /** The first entry, the lines of its value, which are further in, and the others. */
  lemma FirstEntry(ls: seq<Line>) returns (e: Entry, k: nat)
    requires ReadEntries(ls, 0).Some? && ls != [] && ls[0].col == 0 && IsEntry(ls[0].text)
    ensures 0 < k <= |ls| && (forall i :: 1 <= i < k ==> ls[i].col > 0) && Size(ls[k..]) < Size(ls)
    ensures ReadEntries(ls, 0) == Prepended(true, e, ReadEntries(ls[k..], 0))
    ensures e.key == ReadKey(ls[0].text).value.0
  {
    var (key, t) := ReadKey(ls[0].text).value;
    if t == ":" {
      var n := BlockConsumes(ls[1..], ls[1].col);
      var b := ReadBlock(ls[1..], ls[1].col).value;
      k, e := n + 1, Entry(key, b.0);
      assert b.1 == ls[k..];
      assert forall i :: 1 <= i < k ==> ls[i] == ls[1..][i - 1];
    } else {
      k, e := 1, Entry(key, ReadInline(t[2..]).value);
    }
  }

  /** Such a line among the consumed ones is an entry with an empty key. */
  lemma {:induction false} ColonInEntries(ls: seq<Line>, j: nat)
    requires ReadEntries(ls, 0).Some? && j + |ReadEntries(ls, 0).value.1| < |ls| && IsColonLine(ls[j])
    ensures HasNullKey(ReadEntries(ls, 0).value.0)
    decreases Size(ls)
  {
    var e, k := FirstEntry(ls);
    if j > 0 {
      assert j >= k && ls[k..][j - k] == ls[j];
      ColonInEntries(ls[k..], j - k);
    }
    NullKeyBehind(e, ReadEntries(ls[k..], 0).value.0);
  }

  /** A sequence consumes none. */
  lemma {:induction false} NoColonInItems(ls: seq<Line>, j: nat)
    requires ReadItems(ls, 0).Some? && j < |ls| && IsColonLine(ls[j])
    ensures j + |ReadItems(ls, 0).value.1| >= |ls|
    decreases Size(ls)
  {
    if ls[0].col == 0 && IsDash(ls[0].text) {
      var t := ls[0].text[2..];
      if IsDash(t) || IsEntry(t) {
        var nested := [Line(2, t)] + ls[1..];
        var k := BlockConsumes(nested, 2);
        var mid := ReadBlock(nested, 2).value.1;
        UnhungConsumed(ls, nested, mid, k, 0);
        assert j >= k && mid[j - k] == ls[j];
        NoColonInItems(mid, j - k);
      } else {
        assert j > 0 && ls[1..][j - 1] == ls[j];
        NoColonInItems(ls[1..], j - 1);
      }
    }
  }

  /** A document with a broken key anywhere never comes back: its text is unreadable, or reads as a mapping with a null
      key, because the second half of the key is an entry of the outermost mapping. */
  lemma BrokenNeverReturns(n: Node)
    requires Keys(AnyString, n) && !Keys(NotBroken, n)
    ensures var m := Read(ToYaml(n)); m.Some? ==> m.value.Map? && HasNullKey(m.value.entries)
    ensures Read(ToYaml(n)) != Some(n)
  {
    BrokenIsBlock(n);
    BrokenEmits(n, 0);
    EmitNonempty(n, 0);
    JoinBreaks(Emit(n, 0));
    var body := Join(Emit(n, 0), '\n');
    BreaksInside("", body, "\n");
    assert "" + body + "\n" == ToYaml(n);
    ColonLineIsNullKey(ToYaml(n));
    if n.Map? { NoNullKey(n.entries); }
  }

  lemma {:induction false} NoNullKey(entries: seq<Entry>)
    requires EntriesKeys(AnyString, entries)
    ensures !HasNullKey(entries)
  {
    if i :| 0 <= i < |entries| && entries[i].key == Null {
      assert i > 0 ==> entries[1..][i - 1] == entries[i];
      if i > 0 { NoNullKey(entries[1..]); }
    }
  }

  lemma ColonLineIsNullKey(text: string)
    requires Breaks(text)
    ensures Read(text).Some? ==> Read(text).value.Map? && HasNullKey(Read(text).value.entries)
  {
    var i: nat :| BreaksAt(text, i);
    BreakStartsLine(text, i);
    var pieces := Split(text, '\n');
    var k :| 0 < k < |pieces| && StartsWithColon(pieces[k]);
    if pieces[|pieces| - 1] == "" {
      var ls := ToLines(pieces[..|pieces| - 1]);
      assert ls[k] == ToLine(pieces[k]) && IsColonLine(ls[k]);
      ColonLineInBlock(ls, k);
    }
  }

  lemma ColonLineInBlock(ls: seq<Line>, k: nat)
    requires 0 < k < |ls| && IsColonLine(ls[k])
    ensures var b := ReadBlock(ls, ls[0].col);
            b.Some? && b.value.1 == [] ==> b.value.0.Map? && HasNullKey(b.value.0.entries)
  {
    var col := ls[0].col;
    var b := ReadBlock(ls, col);
    if b.Some? && b.value.1 == [] {
      var n := BlockConsumes(ls, col);
      assert n == |ls| && ls[k].col >= col;
      if IsDash(ls[0].text) {
        NoColonInItems(ls, k);
      } else if IsEntry(ls[0].text) {
        ColonInEntries(ls, k);
      }
    }
  }

  // ---- A key that is too long cannot be read ----

  ghost predicate SomeStuck(ls: seq<Line>) { exists k :: 0 <= k < |ls| && IsStuck(ls[k].text) }

  lemma SomeStuckConcat(a: seq<Line>, b: seq<Line>)
    requires SomeStuck(a) || SomeStuck(b)
    ensures SomeStuck(a + b)
  {
    if SomeStuck(a) {
      var k :| 0 <= k < |a| && IsStuck(a[k].text);
      assert (a + b)[k] == a[k];
    } else {
      var k :| 0 <= k < |b| && IsStuck(b[k].text);
      assert (a + b)[|a| + k] == b[k];
    }
  }

  lemma {:induction false} LongLines(n: Node, col: nat)
    requires Keys(NotBroken, n) && !Keys(Readable, n)
    ensures SomeStuck(LinesOf(n, col))
    decreases n, 1
  {
    match n {
      case Map(entries) => LongEntries(entries, col);
      case List(items) => LongItems(items, col);
    }
  }

  lemma {:induction false} LongEntries(entries: seq<Entry>, col: nat)
    requires EntriesKeys(NotBroken, entries) && !EntriesKeys(Readable, entries)
    ensures SomeStuck(EntriesLines(entries, col))
    decreases entries, 3
  {
    if !EntryKeys(Readable, entries[0]) { LongEntry(entries[0], col); } else { LongEntries(entries[1..], col); }
    SomeStuckConcat(EntryLines(entries[0], col), EntriesLines(entries[1..], col));
  }

  lemma {:induction false} LongEntry(e: Entry, col: nat)
    requires EntryKeys(NotBroken, e) && !EntryKeys(Readable, e)
    ensures SomeStuck(EntryLines(e, col))
    decreases e, 2
  {
    if |KeyText(e.key)| > MAX_IMPLICIT_KEY {
      var t := if IsBlock(e.value) then ":" else ": " + Inline(e.value);
      KeyReadsBack(e.key.s, t);
      assert KeyText(e.key) + ": " + Inline(e.value) == KeyText(e.key) + (": " + Inline(e.value));
      assert EntryLines(e, col)[0].text == KeyText(e.key) + t;
      assert IsStuck(EntryLines(e, col)[0].text);
    } else {
      LongIsBlock(e.value);
      LongLines(e.value, col + 2);
      SomeStuckConcat([Line(col, KeyText(e.key) + ":")], LinesOf(e.value, col + 2));
    }
  }

  lemma LongIsBlock(n: Node)
    requires Keys(NotBroken, n) && !Keys(Readable, n)
    ensures IsBlock(n)
  {
  }

  lemma {:induction false} LongItems(items: seq<Node>, col: nat)
    requires ItemsKeys(NotBroken, items) && !ItemsKeys(Readable, items)
    ensures SomeStuck(ItemsLines(items, col))
    decreases items, 3
  {
    if !Keys(Readable, items[0]) { LongItem(items[0], col); } else { LongItems(items[1..], col); }
    SomeStuckConcat(ItemLines(items[0], col), ItemsLines(items[1..], col));
  }

  lemma {:induction false} LongItem(item: Node, col: nat)
    requires Keys(NotBroken, item) && !Keys(Readable, item)
    ensures SomeStuck(ItemLines(item, col))
    decreases item, 2
  {
    LongIsBlock(item);
    LongLines(item, col + 2);
    HangStuck(col, LinesOf(item, col + 2));
  }

  lemma HangStuck(col: nat, inner: seq<Line>)
    requires SomeStuck(inner)
    ensures SomeStuck(HangLines(col, inner))
  {
    var k :| 0 <= k < |inner| && IsStuck(inner[k].text);
    var ls := HangLines(col, inner);
    assert k > 0 ==> ls[k] == inner[k];
    assert ls[0].text[2..] == inner[0].text;
    assert IsStuck(ls[k].text);
  }

  /** A document with a key that is too long anywhere prints as text that does not read. */
  lemma LongIsUnreadable(n: Node)
    requires Keys(NotBroken, n) && !Keys(Readable, n)
    ensures Read(ToYaml(n)) == None
  {
    LongIsBlock(n);
    LongLines(n, 0);
    ReadOfPrinted(n);
    var ls := LinesOf(n, 0);
    var k :| 0 <= k < |ls| && IsStuck(ls[k].text);
    if ReadBlock(ls, 0).Some? {
      var m := BlockConsumes(ls, 0);
    }
  }

  // ---- The result ----

  /** Of the documents without a broken key, the printed text does not read at all exactly when some key, at any depth,
      is too long to be an implicit key, or two keys of one mapping resolve to the same. */
  lemma UnreadableExactly(n: Node)
    requires IsBlock(n) && Keys(NotBroken, n)
    ensures Read(ToYaml(n)) == None <==> !Keys(Readable, n) || !Unique(ReadBack(n))
  {
    if Keys(Readable, n) { PrintedReadsBack(n); } else { LongIsUnreadable(n); }
  }

  /** The printer and the reader: a document comes back as it was exactly when its keys are unique and none of them, at
      any depth, is a word with a final newline, too long to be implicit, or a word of the core schema. Values never
      matter. */
  lemma ReadsBackExactly(n: Node)
    requires IsBlock(n) && Keys(AnyString, n)
    ensures Read(ToYaml(n)) == Some(n) <==> Keys(Safe, n) && Unique(n)
  {
    Weaken(Safe, Readable, n);
    Weaken(Safe, NotBroken, n);
    if Keys(Readable, n) {
      PrintedReadsBack(n);
      SafeReadsBack(n);
    } else if Keys(NotBroken, n) {
      LongIsUnreadable(n);
    } else {
      BrokenNeverReturns(n);
    }
  }

  /** A key is printed as it is exactly when it is a letter or underscore followed by letters, digits and underscores,
      with or without a line break behind it; otherwise as a quoted string. */
  lemma PlainKeysAre(s: string)
    ensures KeyText(Str(s)) == s <==> exists word :: (s == word || s == word + "\n") && IsWord(word)
    ensures KeyText(Str(s)) != s ==> KeyText(Str(s)) == "\"" + JsonBody(s) + "\""
  {
    if KeyText(Str(s)) == s { PlainIsWord(s); }
    if word :| (s == word || s == word + "\n") && IsWord(word) { WordIsPlain(s, word); }
  }

  lemma PlainIsWord(s: string)
    requires KeyText(Str(s)) == s
    ensures exists word :: (s == word || s == word + "\n") && IsWord(word)
  {
    if !IsPlainKey(s) { BodyIsLonger(s); }
    var word := if IsIdent(s) then s else s[..|s| - 1];
    assert (s == word || s == word + "\n") && IsWord(word);
  }

  lemma WordIsPlain(s: string, word: string)
    requires (s == word || s == word + "\n") && IsWord(word)
    ensures KeyText(Str(s)) == s
  {
    if s == word + "\n" { assert s[..|s| - 1] == word; }
    assert IsIdent(word);
  }

  predicate IsWord(s: string) {
    && s != "" && ('A' <= s[0] <= 'Z' || 'a' <= s[0] <= 'z' || s[0] == '_')
    && forall i :: 0 <= i < |s| ==> 'A' <= s[i] <= 'Z' || 'a' <= s[i] <= 'z' || s[i] == '_' || '0' <= s[i] <= '9'
  }

  lemma {:induction false} BodyIsLonger(s: string)
    ensures |JsonBody(s)| >= |s|
  {
    if s != "" {
      EscapeReadsBack(s[0], "");
      BodyIsLonger(s[1..]);
    }
  }

  // ---- Single documents ----

  lemma BrokenText(e: Entry)
    requires e == Entry(Str("a\n"), Leaf(Null))
    ensures KeyText(e.key) == "a\n" && EmitEntries([e], 0) == ["a\n: null"]
    ensures EmitEntries([e], 1) == ["  a\n: null"]
  {
    assert "a\n"[..1] == "a" && IsBrokenKey("a\n");
    assert Spaces(0) == "" && Spaces(2) == "  " && Inline(e.value) == "null";
    assert "" + "a\n" + ": " + "null" == "a\n: null" && "  " + "a\n" + ": " + "null" == "  a\n: null";
    assert EmitEntry(e, 0) == ["a\n: null"] && EmitEntry(e, 1) == ["  a\n: null"];
    assert EmitEntries([e][1..], 0) == [] && EmitEntries([e][1..], 1) == [];
  }

  /** A key that ends in a line break makes this document unreadable. */
  lemma BrokenExample(e: Entry)
    requires e == Entry(Str("a\n"), Leaf(Null))
    ensures Read(ToYaml(Map([e]))) == None
  {
    BrokenText(e);
    assert Join(["a", ": null"], '\n') == "a" + ['\n'] + ": null" == "a\n: null";
    ReadOfLines(["a", ": null"]);
    WordLine("a");
  }

  lemma WordLine(t: string)
    requires t == "a"
    ensures ToLine(t) == Line(0, t) && ToLine("  " + t) == Line(2, t) && !IsDash(t) && !IsEntry(t)
    ensures ReadInline(t) == Some(Leaf(Str(t)))
  {
    IndentOf(2, t);
    assert Spaces(2) == "  ";
  }

  lemma KeyLineOfK()
    ensures KeyText(Str("k")) == "k" && ToLine("k:") == Line(0, "k:") && !IsDash("k:")
    ensures IsEntry("k:") && ReadKey("k:") == Some((Str("k"), ":"))
  {
    assert IsIdent("k") && "k" + ":" == "k:" && !IsBrokenKey("k") && Resolve("k") == Str("k");
    KeyReadsBack("k", ":");
  }

  lemma NullLine()
    ensures ToLine(": null") == Line(0, ": null") && !IsDash(": null") && IsEntry(": null")
    ensures ReadKey(": null") == Some((Null, ": null")) && ReadInline(": null"[2..]) == Some(Leaf(Null))
  {
    assert ": null"[2..] == "null";
  }

  /** One level deeper it makes another document: its first half is a value, its second half an empty key. */
  lemma NestedExample(e: Entry)
    requires e == Entry(Str("a\n"), Leaf(Null))
    ensures Read(ToYaml(Map([Entry(Str("k"), Map([e]))])))
         == Some(Map([Entry(Str("k"), Leaf(Str("a"))), Entry(Null, Leaf(Null))]))
  {
    var pieces := ["k:", "  a", ": null"];
    NestedText(e);
    KeyLineOfK();
    WordLine("a");
    NullLine();
    assert OneLiners(pieces) && ToLines(pieces) == [Line(0, "k:"), Line(2, "a"), Line(0, ": null")];
    ReadOfLines(pieces);
    NestedLines(ToLines(pieces), Str("k"), Leaf(Str("a")), ": null", Leaf(Null));
  }

  lemma NestedText(e: Entry)
    requires e == Entry(Str("a\n"), Leaf(Null))
    ensures ToYaml(Map([Entry(Str("k"), Map([e]))])) == Join(["k:", "  a", ": null"], '\n') + "\n"
  {
    var outer, inner := Entry(Str("k"), Map([e])), "  a\n: null";
    BrokenText(e);
    KeyLineOfK();
    assert Spaces(0) == "" && EmitEntries([outer][1..], 0) == [];
    assert Emit(outer.value, 1) == [inner] && Spaces(2 * 0) + KeyText(outer.key) + ":" == "k:";
    assert EmitEntry(outer, 0) == ["k:"] + [inner];
    assert Emit(Map([outer]), 0) == ["k:", inner] && ["k:", inner][1..] == [inner];
    var pieces := ["k:", "  a", ": null"];
    assert pieces[1..][1..] == [": null"] && Join(pieces[1..], '\n') == "  a" + ['\n'] + ": null" == inner;
    assert Join(pieces, '\n') == "k:" + ['\n'] + inner == Join(Emit(Map([outer]), 0), '\n');
  }

  /** An entry with a value on its own line, and one with an empty key. */
  lemma NestedLines(ls: seq<Line>, key: Scalar, n: Node, t: string, m: Node)
    requires |ls| == 3 && ls[0].col == 0 && ls[1].col == 2 && ls[2].col == 0 && key != Null
    requires !IsDash(ls[0].text) && IsEntry(ls[0].text) && ReadKey(ls[0].text) == Some((key, ":"))
    requires !IsDash(ls[1].text) && !IsEntry(ls[1].text) && ReadInline(ls[1].text) == Some(n)
    requires IsEntry(ls[2].text) && ReadKey(ls[2].text) == Some((Null, t)) && ": " <= t && ReadInline(t[2..]) == Some(m)
    ensures ReadBlock(ls, 0) == Some((Map([Entry(key, n), Entry(Null, m)]), []))
  {
    var last := [ls[2]] + [];
    var entries := [Entry(key, n)] + [Entry(Null, m)];
    assert ls[1..][1..] == last;
    assert ReadBlock(ls[1..], 2) == Got(true, n, last);
    LastEntry(ls[2], t, m);
    ReadNested(ls, 0, key, true, n, last);
    assert ReadEntries(ls, 0) == Some((entries, [])) && entries == [Entry(key, n), Entry(Null, m)];
  }

  lemma LastEntry(line: Line, t: string, m: Node)
    requires line.col == 0 && IsEntry(line.text) && ReadKey(line.text) == Some((Null, t))
    requires ": " <= t && ReadInline(t[2..]) == Some(m)
    ensures ReadEntries([line] + [], 0) == Some(([Entry(Null, m)], []))
  {
    ReadOneLine(line, 0, Null, t, m, []);
    assert ReadEntries([], 0) == Some(([], []));
    assert [Entry(Null, m)] + [] == [Entry(Null, m)];
  }

  /** A key of 1025 letters. */
  lemma LongExample(key: string, e: Entry)
    requires |key| == 1025 && forall i :: 0 <= i < |key| ==> key[i] == 'a'
    requires e == Entry(Str(key), Leaf(Null))
    ensures Read(ToYaml(Map([e]))) == None
  {
    assert IsIdent(key) && !IsBrokenKey(key) && KeyText(e.key) == key;
    assert EntriesKeys(NotBroken, [e][1..]);
    assert KeyObeys(NotBroken, e.key) && !KeyObeys(Readable, e.key);
    assert EntryKeys(NotBroken, e) && !EntryKeys(Readable, e);
    assert EntriesKeys(NotBroken, [e]) && !EntriesKeys(Readable, [e]);
    LongIsUnreadable(Map([e]));
  }

  lemma ReservedExample(e: Entry)
    requires e == Entry(Str("null"), Leaf(Null))
    ensures Read(ToYaml(Map([e]))) == Some(Map([Entry(Null, Leaf(Null))]))
  {
    ReservedWords("null");
    assert !IsBrokenKey("null");
    assert EntriesKeys(Readable, [e][1..]) && ReadBackEntries([e][1..]) == [];
    assert EntryKeys(Readable, e) && EntriesKeys(Readable, [e]);
    PrintedReadsBack(Map([e]));
    assert ReadBackEntry(e) == Entry(Null, Leaf(Null));
    assert ReadBackEntries([e]) == [ReadBackEntry([e][0])] + ReadBackEntries([e][1..]) == [Entry(Null, Leaf(Null))];
    assert ReadBack(Map([e])) == Map(ReadBackEntries([e]));
  }

  lemma TwinKeys(d: Entry, e: Entry)
    requires ReadBackKey(d.key) == ReadBackKey(e.key)
    ensures !DistinctKeys(ReadBackEntries([d, e]))
  {
    var back := ReadBackEntries([d, e]);
    EntriesLinesStep([d, e], 0, []);
    EntriesLinesStep([e], 0, []);
    assert [d, e][1..] == [e];
    assert back[0].key == back[1].key;
  }

  /** Two spellings of null in one mapping: the keys are no longer unique. */
  lemma TwinExample(d: Entry, e: Entry)
    requires d == Entry(Str("null"), Leaf(Null)) && e == Entry(Str("Null"), Leaf(Null))
    ensures Unique(Map([d, e])) && Read(ToYaml(Map([d, e]))) == None
  {
    var n := Map([d, e]);
    assert !IsBrokenKey("null") && !IsBrokenKey("Null");
    assert EntryKeys(Readable, d) && EntryKeys(Readable, e);
    assert [d, e][1..] == [e] && [e][1..] == [];
    assert EntriesKeys(Readable, [e]) && EntriesKeys(Readable, [d, e]);
    assert ValuesUnique([e]) && ValuesUnique([d, e]);
    TwinKeys(d, e);
    PrintedReadsBack(n);
  }
}
