/** The YAML printer of the ntfy export (ntfy/app/exporter.py), a reader for the block style it uses,
    and the exact condition under which the reader gives the document back. */
module YamlExport {
  import opened Strings
  import opened Wrappers
  import opened Lines

  datatype Scalar = Null | Bool(b: bool) | Int(n: int) | Str(s: string)

  /** A mapping keeps its entries in order. A document has string keys; a reader may find others. */
  datatype Node = Leaf(v: Scalar) | List(items: seq<Node>) | Map(entries: seq<Entry>)

  datatype Entry = Entry(key: Scalar, value: Node)

  // ---- Scalars ----

  /** One character of `json.dumps(text, ensure_ascii=False)`. */
  function JsonChar(c: char): string {
    if c == '"' then "\\\"" else if c == '\\' then "\\\\"
    else if c == '\n' then "\\n" else if c == '\r' then "\\r" else if c == '\t' then "\\t"
    else if c == '\U{8}' then "\\b" else if c == '\U{c}' then "\\f"
    else if c < ' ' then "\\u00" + [Hex(c as int / 16), Hex(c as int % 16)]
    else [c]
  }

  function JsonBody(s: string): string {
    if s == "" then "" else JsonChar(s[0]) + JsonBody(s[1..])
  }

  function JsonString(s: string): string {
    "\"" + JsonBody(s) + "\""
  }

  function Digit(n: nat): char
    requires n < 10
  {
    "0123456789"[n]
  }

  function NatText(n: nat): string {
    if n < 10 then [Digit(n)] else NatText(n / 10) + [Digit(n % 10)]
  }

  function ScalarText(v: Scalar): string {
    match v
    case Null => "null"
    case Bool(b) => if b then "true" else "false"
    case Int(n) => if n < 0 then "-" + NatText(-n) else NatText(n)
    case Str(s) => JsonString(s)
  }

  predicate IdentStart(c: char) { 'A' <= c <= 'Z' || 'a' <= c <= 'z' || c == '_' }

  predicate IdentChar(c: char) { IdentStart(c) || '0' <= c <= '9' }

  predicate IsIdent(s: string) {
    s != "" && IdentStart(s[0]) && forall k :: 0 <= k < |s| ==> IdentChar(s[k])
  }

  /** `_PLAIN_KEY_RE.match`: in Python `$` also matches in front of a final newline. */
  predicate IsPlainKey(s: string) {
    IsIdent(s) || IsBrokenKey(s)
  }

  predicate IsBrokenKey(s: string) {
    s != "" && s[|s| - 1] == '\n' && IsIdent(s[..|s| - 1])
  }

  function KeyText(key: Scalar): string {
    match key
    case Str(s) => if IsPlainKey(s) then s else JsonString(s)
    case _ => ScalarText(key)
  }

  // ---- The printer ----

  function Spaces(n: nat): string { seq(n, _ => ' ') }

  predicate IsBlock(n: Node) {
    (n.Map? && n.entries != []) || (n.List? && n.items != [])
  }

  function Inline(n: Node): string {
    match n case Map(_) => "{}" case List(_) => "[]" case Leaf(v) => ScalarText(v)
  }

  function Lstrip(s: string): string {
    if s != "" && (s[0] == ' ' || '\t' <= s[0] <= '\r') then Lstrip(s[1..]) else s
  }

  function Hang(pad: string, inner: seq<string>): seq<string> {
    if inner == [] then [] else [pad + "- " + Lstrip(inner[0])] + inner[1..]
  }

  /** `_emit` for a mapping or list. */
  function Emit(n: Node, indent: nat): seq<string>
    decreases n, 0
  {
    match n
    case Map(entries) => EmitEntries(entries, indent)
    case List(items) => EmitItems(items, indent)
    case Leaf(_) => []
  }

  function EmitEntry(e: Entry, indent: nat): seq<string>
    decreases e, 1
  {
    if IsBlock(e.value) then [Spaces(2 * indent) + KeyText(e.key) + ":"] + Emit(e.value, indent + 1)
    else [Spaces(2 * indent) + KeyText(e.key) + ": " + Inline(e.value)]
  }

  function EmitEntries(entries: seq<Entry>, indent: nat): seq<string>
    decreases entries, 2
  {
    if entries == [] then [] else EmitEntry(entries[0], indent) + EmitEntries(entries[1..], indent)
  }

  function EmitItem(item: Node, indent: nat): seq<string>
    decreases item, 1
  {
    if IsBlock(item) then Hang(Spaces(2 * indent), Emit(item, indent + 1))
    else [Spaces(2 * indent) + "- " + Inline(item)]
  }

  function EmitItems(items: seq<Node>, indent: nat): seq<string>
    decreases items, 2
  {
    if items == [] then [] else EmitItem(items[0], indent) + EmitItems(items[1..], indent)
  }

  function ToYaml(n: Node): string {
    if Emit(n, 0) == [] then "\n" else Join(Emit(n, 0), '\n') + "\n"
  }

  /** `_emit` as it runs: it appends to one list in a loop and calls itself for the nested part. */
  method EmitLines(n: Node, indent: nat) returns (lines: seq<string>)
    requires !n.Leaf?
    ensures lines == Emit(n, indent)
    decreases n
  {
    var pad := Spaces(2 * indent);
    lines := [];
    match n {
      case Map(entries) =>
        for k := 0 to |entries|
          invariant lines + EmitEntries(entries[k..], indent) == EmitEntries(entries, indent)
        {
          var e := entries[k];
          ghost var was := lines;
          if IsBlock(e.value) {
            lines := lines + [pad + KeyText(e.key) + ":"];
            var inner := EmitLines(e.value, indent + 1);
            lines := lines + inner;
          } else {
            lines := lines + [pad + KeyText(e.key) + ": " + Inline(e.value)];
          }
          assert lines == was + EmitEntry(e, indent);
          EntriesStep(was, entries, k, indent);
        }
      case List(items) =>
        for k := 0 to |items|
          invariant lines + EmitItems(items[k..], indent) == EmitItems(items, indent)
        {
          var item := items[k];
          ghost var was := lines;
          if IsBlock(item) {
            var inner := EmitLines(item, indent + 1);
            EmitNonempty(item, indent + 1);
            lines := lines + [pad + "- " + Lstrip(inner[0])];
            lines := lines + inner[1..];
          } else {
            lines := lines + [pad + "- " + Inline(item)];
          }
          assert lines == was + EmitItem(item, indent);
          ItemsStep(was, items, k, indent);
        }
    }
  }

  lemma EntriesStep(was: seq<string>, entries: seq<Entry>, k: nat, indent: nat)
    requires k < |entries|
    ensures was + EmitEntry(entries[k], indent) + EmitEntries(entries[k + 1..], indent) ==
            was + EmitEntries(entries[k..], indent)
  {
    assert entries[k..][1..] == entries[k + 1..];
  }

  lemma ItemsStep(was: seq<string>, items: seq<Node>, k: nat, indent: nat)
    requires k < |items|
    ensures was + EmitItem(items[k], indent) + EmitItems(items[k + 1..], indent) == was + EmitItems(items[k..], indent)
  {
    assert items[k..][1..] == items[k + 1..];
  }

  lemma {:induction false} EmitNonempty(n: Node, indent: nat)
    requires IsBlock(n)
    ensures Emit(n, indent) != []
    decreases n
  {
    if n.Map? {
      assert EmitEntry(n.entries[0], indent) != [];
    } else {
      if IsBlock(n.items[0]) { EmitNonempty(n.items[0], indent + 1); }
      assert EmitItem(n.items[0], indent) != [];
    }
  }

  // ---- The reader ----

  /** A line as its indentation and the rest. */
  datatype Line = Line(col: nat, text: string)

  function Blanks(s: string): (n: nat)
    ensures n <= |s|
  {
    if s != "" && s[0] == ' ' then 1 + Blanks(s[1..]) else 0
  }

  function ToLine(s: string): Line { Line(Blanks(s), s[Blanks(s)..]) }

  function HexValue(c: char): Option<nat> {
    if '0' <= c <= '9' then Some(c as int - '0' as int)
    else if 'a' <= c <= 'f' then Some(c as int - 'a' as int + 10)
    else if 'A' <= c <= 'F' then Some(c as int - 'A' as int + 10)
    else None
  }

  /** The character behind a backslash of a double-quoted scalar (section 5.7 of YAML 1.2), and how many
      characters spell it. */
  function Unescape(s: string): (r: Option<(char, nat)>)
    ensures r.Some? ==> 1 <= r.value.1 <= |s|
  {
    if s == "" then None
    else match s[0]
      case '"' => Some(('"', 1))
      case '\\' => Some(('\\', 1))
      case '/' => Some(('/', 1))
      case 'n' => Some(('\n', 1))
      case 'r' => Some(('\r', 1))
      case 't' => Some(('\t', 1))
      case 'b' => Some(('\U{8}', 1))
      case 'f' => Some(('\U{c}', 1))
      case 'u' =>
        if |s| < 5 || HexValue(s[1]).None? || HexValue(s[2]).None? || HexValue(s[3]).None? || HexValue(s[4]).None?
        then None
        else
          var n := ((HexValue(s[1]).value * 16 + HexValue(s[2]).value) * 16 + HexValue(s[3]).value) * 16 +
            HexValue(s[4]).value;
          if n < 0xD800 || 0xE000 <= n < 0x10000 then Some((n as char, 5)) else None
      case _ => None
  }

  /** The rest of a double-quoted scalar: its text and what follows the closing quote. */
  function Quoted(s: string): (r: Option<(string, string)>)
    ensures r.Some? ==> |r.value.1| < |s|
    decreases |s|
  {
    if s == "" then None
    else if s[0] == '"' then Some(("", s[1..]))
    else if s[0] == '\\' then
      (match Unescape(s[1..])
       case None => None
       case Some(p) =>
         match Quoted(s[1 + p.1..]) case None => None case Some(q) => Some(([p.0] + q.0, q.1)))
    else match Quoted(s[1..]) case None => None case Some(q) => Some(([s[0]] + q.0, q.1))
  }

  /** How many identifier characters `s` starts with. */
  function IdentLength(s: string): (n: nat)
    ensures n <= |s|
  {
    if s != "" && IdentChar(s[0]) then 1 + IdentLength(s[1..]) else 0
  }

  /** A plain word under the core schema (section 10.3.2 of YAML 1.2). */
  function Resolve(word: string): Scalar {
    if word == "null" || word == "Null" || word == "NULL" then Null
    else if word == "true" || word == "True" || word == "TRUE" then Bool(true)
    else if word == "false" || word == "False" || word == "FALSE" then Bool(false)
    else Str(word)
  }

  /** A key at the start of `t` and the text behind it. In front of a colon the key can be empty (section 8.2.2). */
  function ReadKey(t: string): (r: Option<(Scalar, string)>)
    ensures r.Some? ==> |r.value.1| <= |t|
  {
    if t == "" then None
    else if t[0] == '"' then
      (match Quoted(t[1..]) case None => None case Some(q) => Some((Str(q.0), q.1)))
    else if IdentStart(t[0]) then
      Some((Resolve(t[..IdentLength(t)]), t[IdentLength(t)..]))
    else if t[0] == ':' then Some((Null, t))
    else None
  }

  predicate IsDash(t: string) { "- " <= t }

  /** An implicit key has at most this many characters (section 8.2.2 of YAML 1.2). */
  const MAX_IMPLICIT_KEY := 1024

  /** A key of any length with its colon. */
  predicate IsKeyed(t: string) {
    ReadKey(t).Some? && (ReadKey(t).value.1 == ":" || ": " <= ReadKey(t).value.1)
  }

  function KeyLength(t: string): nat
    requires ReadKey(t).Some?
  {
    |t| - |ReadKey(t).value.1|
  }

  predicate IsEntry(t: string) { IsKeyed(t) && KeyLength(t) <= MAX_IMPLICIT_KEY }

  function NatValue(s: string): nat
    requires forall k :: 0 <= k < |s| ==> '0' <= s[k] <= '9'
  {
    if s == "" then 0 else 10 * NatValue(s[..|s| - 1]) + (s[|s| - 1] as int - '0' as int)
  }

  /** A value on the line of its key or dash. */
  function ReadInline(t: string): Option<Node> {
    if t == "{}" then Some(Map([]))
    else if t == "[]" then Some(List([]))
    else if t == "" then None
    else if t[0] == '"' then
      (match Quoted(t[1..])
       case None => None
       case Some(q) => if q.1 == "" then Some(Leaf(Str(q.0))) else None)
    else if IsDigits(t) then Some(Leaf(Int(NatValue(t))))
    else if t[0] == '-' && IsDigits(t[1..]) then Some(Leaf(Int(0 - NatValue(t[1..]))))
    else if IsIdent(t) then Some(Leaf(Resolve(t)))
    else None
  }

  function Size(ls: seq<Line>): nat {
    if ls == [] then 0 else 1 + |ls[0].text| + Size(ls[1..])
  }

  /** The keys of a mapping are unique (section 3.2.1.1 of YAML 1.2). */
  predicate DistinctKeys(entries: seq<Entry>) {
    forall i, j :: 0 <= i < j < |entries| ==> entries[i].key != entries[j].key
  }

  /** A block mapping or sequence at column `col` (section 8.2 of YAML 1.2), or a value on a line of its own (section
      8.2.3), and the lines behind it. */
  function ReadBlock(ls: seq<Line>, col: nat): (r: Option<(Node, seq<Line>)>)
    ensures r.Some? ==> Size(r.value.1) < Size(ls)
    decreases Size(ls), 1
  {
    if ls == [] || ls[0].col != col then None
    else if IsDash(ls[0].text) then
      (match ReadItems(ls, col) case None => None case Some(p) => Some((List(p.0), p.1)))
    else if IsEntry(ls[0].text) then
      (match ReadEntries(ls, col)
       case None => None
       case Some(p) => if DistinctKeys(p.0) then Some((Map(p.0), p.1)) else None)
    else match ReadInline(ls[0].text) case None => None case Some(n) => Some((n, ls[1..]))
  }

  /** The items from here on. What follows a dash is a value, or the first line of a compact nested
      block two columns further in. */
  function ReadItems(ls: seq<Line>, col: nat): (r: Option<(seq<Node>, seq<Line>)>)
    ensures r.Some? ==> Size(r.value.1) <= Size(ls)
    ensures r.Some? && ls != [] && ls[0].col == col && IsDash(ls[0].text) ==> Size(r.value.1) < Size(ls)
    decreases Size(ls), 0
  {
    if ls == [] || ls[0].col != col || !IsDash(ls[0].text) then Some(([], ls))
    else
      var t := ls[0].text[2..];
      if IsDash(t) || IsEntry(t) then
        var nested := [Line(col + 2, t)] + ls[1..];
        assert nested[1..] == ls[1..];
        match ReadBlock(nested, col + 2)
        case None => None
        case Some(b) =>
          match ReadItems(b.1, col) case None => None case Some(p) => Some(([b.0] + p.0, p.1))
      else
        match ReadInline(t)
        case None => None
        case Some(n) =>
          match ReadItems(ls[1..], col) case None => None case Some(p) => Some(([n] + p.0, p.1))
  }

  function ReadEntries(ls: seq<Line>, col: nat): (r: Option<(seq<Entry>, seq<Line>)>)
    ensures r.Some? ==> Size(r.value.1) <= Size(ls)
    ensures r.Some? && ls != [] && ls[0].col == col && IsEntry(ls[0].text) ==> Size(r.value.1) < Size(ls)
    decreases Size(ls), 0
  {
    if ls == [] || ls[0].col != col || !IsEntry(ls[0].text) then Some(([], ls))
    else
      var (key, t) := ReadKey(ls[0].text).value;
      if t == ":" then
        if |ls| < 2 || ls[1].col <= col then None
        else match ReadBlock(ls[1..], ls[1].col)
          case None => None
          case Some(b) =>
            match ReadEntries(b.1, col) case None => None case Some(p) => Some(([Entry(key, b.0)] + p.0, p.1))
      else
        match ReadInline(t[2..])
        case None => None
        case Some(n) =>
          match ReadEntries(ls[1..], col) case None => None case Some(p) => Some(([Entry(key, n)] + p.0, p.1))
  }

  function ToLines(pieces: seq<string>): seq<Line> {
    seq(|pieces|, i requires 0 <= i < |pieces| => ToLine(pieces[i]))
  }

  /** A whole document: newline-terminated lines, one block, nothing left over. */
  function Read(text: string): Option<Node> {
    var pieces := Split(text, '\n');
    if pieces[|pieces| - 1] != "" || |pieces| == 1 then None
    else
      var ls := ToLines(pieces[..|pieces| - 1]);
      match ReadBlock(ls, ls[0].col)
      case None => None
      case Some(b) => if b.1 == [] then Some(b.0) else None
  }
}
