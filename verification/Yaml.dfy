/** Values of the small YAML dialect, scalars, and the printer and parser of manifest files as functions. */
module Yaml {
  import opened Text

  datatype Entry = Entry(key: string, value: Yaml)

  /** `Float` keeps its text: its numeric value plays no part in the dialect. Mappings keep insertion order. */
  datatype Yaml =
    | Null
    | Bool(b: bool)
    | Int(i: int)
    | Float(text: string)
    | Str(s: string)
    | List(items: seq<Yaml>)
    | Map(entries: seq<Entry>)

  predicate IsScalar(v: Yaml) { !v.List? && !v.Map? }

  // ---- Numbers ---------------------------------------------------------------------------------

  /** Digits with single underscores between them. */
  predicate IsDigitPart(s: string) {
    && s != ""
    && IsDecimal(s[0])
    && IsDecimal(s[|s| - 1])
    && (forall i :: 0 <= i < |s| ==> IsDecimal(s[i]) || s[i] == '_')
    && (forall i :: 0 <= i < |s| - 1 ==> s[i] == '_' ==> s[i + 1] != '_')
  }

  function DropUnderscores(s: string): (r: string)
    requires forall i :: 0 <= i < |s| ==> IsDecimal(s[i]) || s[i] == '_'
    ensures AllDecimal(r)
  {
    if s == "" then ""
    else (if s[0] == '_' then "" else [s[0]]) + DropUnderscores(s[1..])
  }

  function Unsigned(s: string): string {
    if s != "" && s[0] in "+-" then s[1..] else s
  }

  /** `int(text)`; `None` where it raises. */
  function ParseInt(text: string): Option<int> {
    var s := Strip(text);
    var body := Unsigned(s);
    if !IsDigitPart(body) then None
    else
      var n: int := Value(DropUnderscores(body));
      Some(if s[0] == '-' then -n else n)
  }

  /** `str(i)`. */
  function FormatInt(i: int): string {
    if i < 0 then "-" + Digits(-i) else Digits(i)
  }

  /** The position of the first `c`, or the length when there is none. */
  function IndexOf(s: string, c: char): (n: nat)
    ensures n <= |s| && c !in s[..n]
    ensures n < |s| ==> s[n] == c
    ensures n == |s| <==> c !in s
  {
    if s == "" || s[0] == c then 0
    else
      var n := IndexOf(s[1..], c);
      assert s[..n + 1] == [s[0]] + s[1..][..n];
      n + 1
  }

  predicate IsNamedFloat(s: string) {
    var low := Lower(s);
    low == "inf" || low == "infinity" || low == "nan"
  }

  predicate IsMantissa(s: string) {
    var dot := IndexOf(s, '.');
    if dot == |s| then IsDigitPart(s)
    else
      var whole, part := s[..dot], s[dot + 1..];
      && (whole != "" || part != "")
      && (whole == "" || IsDigitPart(whole))
      && (part == "" || IsDigitPart(part))
  }

  /** Whether `float(text)` succeeds. */
  predicate IsFloat(text: string) {
    var body := Unsigned(Strip(text));
    var low := Lower(body);
    var e := IndexOf(low, 'e');
    || IsNamedFloat(body)
    || (if e == |low| then IsMantissa(body)
        else IsMantissa(body[..e]) && IsDigitPart(Unsigned(body[e + 1..])))
  }

  // ---- Scalars ---------------------------------------------------------------------------------

  /** The first place where `sub` occurs in `s`. */
  function Find(s: string, sub: string): (r: Option<nat>)
    ensures r.Some? ==> r.value + |sub| <= |s|
  {
    if sub <= s then Some(0)
    else if s == "" then None
    else match Find(s[1..], sub) case None => None case Some(n) => Some(n + 1)
  }

  predicate Quoted(s: string) {
    "\"" <= s || "'" <= s
  }

  function DropComment(value: string): string {
    if Quoted(value) then value
    else match Find(value, "  #")
      case Some(n) => RStrip(value[..n])
      case None => match Find(value, " #")
        case Some(n) => RStrip(value[..n])
        case None => value
  }

  predicate EnclosedIn(s: string, q: char) {
    s != "" && s[0] == q && s[|s| - 1] == q
  }

  function ParseScalar(raw: string): Yaml {
    var value := DropComment(raw);
    if value == "true" || value == "false" then Bool(value == "true")
    else if value == "null" || value == "~" then Null
    else if ParseInt(value).Some? then Int(ParseInt(value).value)
    else if IsFloat(value) then Float(value)
    else if EnclosedIn(value, '"') || EnclosedIn(value, '\'') then
      Str(if |value| == 1 then "" else value[1..|value| - 1])
    else Str(value)
  }

  const SPECIAL := ":#\"'{},[]\n"

  predicate HasSpecial(s: string) {
    exists c :: c in s && c in SPECIAL
  }

  function HexDigit(n: nat): char
    requires n < 16
  {
    "0123456789abcdef"[n]
  }

  function Hex4(n: nat): string
    requires n < 0x10000
  {
    [HexDigit(n / 4096), HexDigit(n / 256 % 16), HexDigit(n / 16 % 16), HexDigit(n % 16)]
  }

  /** One character inside a JSON string, ASCII output only. */
  function JsonEscape(c: char): string {
    if c == '"' then "\\\"" else if c == '\\' then "\\\\"
    else if c == '\n' then "\\n" else if c == '\r' then "\\r" else if c == '\t' then "\\t"
    else if c == '\U{08}' then "\\b" else if c == '\U{0C}' then "\\f"
    else if ' ' <= c <= '~' then [c]
    else
      var n := c as int;
      if n < 0x10000 then "\\u" + Hex4(n)
      else "\\u" + Hex4(0xD800 + (n - 0x10000) / 1024) + "\\u" + Hex4(0xDC00 + (n - 0x10000) % 1024)
  }

  function JsonBody(s: string): string {
    if s == "" then "" else JsonEscape(s[0]) + JsonBody(s[1..])
  }

  /** `json.dumps(s)`. */
  function JsonString(s: string): string {
    "\"" + JsonBody(s) + "\""
  }

  function FormatScalar(v: Yaml): string
    requires IsScalar(v)
  {
    match v
    case Bool(b) => if b then "true" else "false"
    case Null => "null"
    case Int(i) => FormatInt(i)
    case Float(t) => t
    case Str(s) => if HasSpecial(s) then JsonString(s) else s
  }

  // ---- The printer -----------------------------------------------------------------------------

  function Spaces(n: nat): (s: string)
    ensures |s| == n && forall i :: 0 <= i < n ==> s[i] == ' '
  {
    seq(n, _ => ' ')
  }

  function Dump(d: Yaml, indent: nat): string
    decreases d, 1
  {
    match d
    case Map(es) => Join(DumpEntries(es, indent), '\n')
    case List(items) => Join(DumpItems(items, indent), '\n')
    case _ => Spaces(indent) + FormatScalar(d)
  }

  function DumpEntries(es: seq<Entry>, indent: nat): seq<string>
    decreases es, 0
  {
    if es == [] then []
    else
      var e := es[0];
      (if IsScalar(e.value) then [Spaces(indent) + e.key + ": " + FormatScalar(e.value)]
       else [Spaces(indent) + e.key + ":", Dump(e.value, indent + 2)])
      + DumpEntries(es[1..], indent)
  }

  function DumpItems(items: seq<Yaml>, indent: nat): seq<string>
    decreases items, 0
  {
    if items == [] then []
    else
      (if IsScalar(items[0]) then [Spaces(indent) + "- " + FormatScalar(items[0])]
       else [Spaces(indent) + "-", Dump(items[0], indent + 2)])
      + DumpItems(items[1..], indent)
  }

  // ---- The parser ------------------------------------------------------------------------------

  /** `text.splitlines()`, up to blank lines: a carriage return and line feed count as two breaks here. */
  function SplitLines(text: string): (lines: seq<string>)
    ensures |lines| >= 1
  {
    if text == "" then [""]
    else
      var rest := SplitLines(text[1..]);
      if IsLineBreak(text[0]) then [""] + rest else [[text[0]] + rest[0]] + rest[1..]
  }

  predicate IsContent(line: string) {
    Strip(line) != "" && !("#" <= Strip(line))
  }

  function KeepContent(lines: seq<string>): seq<string> {
    if lines == [] then []
    else (if IsContent(lines[0]) then [lines[0]] else []) + KeepContent(lines[1..])
  }

  /** The lines the parser looks at: neither blank nor comments. */
  function ContentLines(text: string): seq<string> {
    KeepContent(SplitLines(text))
  }

  function Indent(line: string): nat {
    if line != "" && line[0] == ' ' then 1 + Indent(line[1..]) else 0
  }

  datatype ParseError = MixedListAndMapping | InvalidLine(line: string)

  /** `d[key] = value` on an insertion-ordered mapping. */
  function Put(es: seq<Entry>, key: string, value: Yaml): seq<Entry> {
    if es == [] then [Entry(key, value)]
    else if es[0].key == key then [Entry(key, value)] + es[1..]
    else [es[0]] + Put(es[1..], key, value)
  }

  /** `d.update(more)`. */
  function Update(es: seq<Entry>, more: seq<Entry>): seq<Entry>
    decreases |more|
  {
    if more == [] then es else Update(Put(es, more[0].key, more[0].value), more[1..])
  }

  function OrEmpty(data: Option<Yaml>): Yaml {
    match data case None => Map([]) case Some(d) => d
  }

  /**
   * How one line reads: a list item that is empty, a scalar or starts a mapping; a mapping entry;
   * or neither. An entry without a value takes the block nested under it.
   */
  datatype Line =
    | EmptyItem
    | ScalarItem(scalar: Yaml)
    | InlineItem(key: string, value: Option<Yaml>)
    | Pair(key: string, value: Option<Yaml>)
    | Bad
  {
    predicate IsItem() { EmptyItem? || ScalarItem? || InlineItem? }
  }

  datatype Read = Read(indent: nat, line: Line, raw: string)

  function ValueText(text: string): Option<Yaml> {
    if text == "" then None else Some(ParseScalar(text))
  }

  function DecodeItem(text: string): Line {
    var colon := IndexOf(text, ':');
    if text == "" then EmptyItem
    else if colon == |text| then ScalarItem(ParseScalar(text))
    else InlineItem(Strip(text[..colon]), ValueText(Strip(text[colon + 1..])))
  }

  function DecodePair(content: string): Line {
    var colon := IndexOf(content, ':');
    if colon == |content| then Bad
    else Pair(Strip(content[..colon]), ValueText(Strip(content[colon + 1..])))
  }

  function Decode(content: string): Line {
    if "- " <= content then DecodeItem(Strip(content[2..])) else DecodePair(content)
  }

  function ReadLine(line: string): Read {
    Read(Indent(line), Decode(Strip(line)), line)
  }

  function ReadLines(lines: seq<string>): seq<Read> {
    seq(|lines|, i requires 0 <= i < |lines| => ReadLine(lines[i]))
  }

  /** The block read so far is of the kind the line extends. */
  predicate Fits(data: Option<Yaml>, line: Line) {
    data.Some? ==> if line.IsItem() then data.value.List? else data.value.Map?
  }

  /** The list item a line stands for, with the block nested under it. */
  function ItemOf(line: Line, nested: Yaml): Yaml
    requires line.IsItem()
  {
    match line
    case EmptyItem => nested
    case ScalarItem(v) => if nested == Map([]) || nested == List([]) || nested == Null then v else nested
    case InlineItem(key, None) => Map([Entry(key, nested)])
    case InlineItem(key, Some(v)) =>
      Map(if nested.Map? then Update([Entry(key, v)], nested.entries) else [Entry(key, v)])
  }

  /** The block after a line, given what was parsed under that line. */
  function Extend(data: Option<Yaml>, line: Line, nested: Yaml): Yaml
    requires !line.Bad? && Fits(data, line)
  {
    if line.IsItem() then List((if data.Some? then data.value.items else []) + [ItemOf(line, nested)])
    else
      var value := if line.value.Some? then line.value.value else nested;
      Map(Put(if data.Some? then data.value.entries else [], line.key, value))
  }

  /** Only an entry with a value on its own line has nothing nested under it. */
  predicate HasBlock(line: Line) { !(line.Pair? && line.value.Some?) }

  /**
   * `parse_block` from the loop state (`lines` not yet read, `data` so far): the block read and the
   * lines left over.
   */
  function ParseFrom(lines: seq<Read>, indent: nat, data: Option<Yaml>): (r: Result<(Yaml, seq<Read>), ParseError>)
    ensures r.Ok? ==> |r.value.1| <= |lines|
    decreases |lines|
  {
    if lines == [] || lines[0].indent < indent then Ok((OrEmpty(data), lines))
    else
      var line := lines[0].line;
      if line.Bad? then Err(InvalidLine(lines[0].raw))
      else if !Fits(data, line) then Err(MixedListAndMapping)
      else if !HasBlock(line) then ParseFrom(lines[1..], indent, Some(Extend(data, line, Null)))
      else
        match ParseFrom(lines[1..], lines[0].indent + 2, None)
        case Err(e) => Err(e)
        case Ok((nested, rest)) => ParseFrom(rest, indent, Some(Extend(data, line, nested)))
  }

  function Parse(text: string): Result<Yaml, ParseError> {
    match ParseFrom(ReadLines(ContentLines(text)), 0, None)
    case Ok((d, _)) => Ok(d)
    case Err(e) => Err(e)
  }

  ghost predicate IsSuffix(rest: seq<Read>, lines: seq<Read>) {
    |rest| <= |lines| && rest == lines[|lines| - |rest|..]
  }

  lemma SuffixOfTail(rest: seq<Read>, mid: seq<Read>, lines: seq<Read>)
    requires lines != [] && IsSuffix(mid, lines[1..]) && IsSuffix(rest, mid)
    ensures IsSuffix(rest, lines)
  {
  }

  /** What is left over is a suffix that starts, if anywhere, on a line indented less than the block. */
  lemma {:induction false} ParseStops(lines: seq<Read>, indent: nat, data: Option<Yaml>)
    ensures
      var r := ParseFrom(lines, indent, data);
      r.Ok? ==> IsSuffix(r.value.1, lines) && (r.value.1 != [] ==> r.value.1[0].indent < indent)
    decreases |lines|
  {
    if lines != [] && lines[0].indent >= indent {
      var line := lines[0].line;
      if !line.Bad? && Fits(data, line) {
        if !HasBlock(line) {
          var next := Some(Extend(data, line, Null));
          ParseStops(lines[1..], indent, next);
          var whole := ParseFrom(lines[1..], indent, next);
          if whole.Ok? {
            SuffixOfTail(whole.value.1, lines[1..], lines);
          }
        } else {
          var inner := ParseFrom(lines[1..], lines[0].indent + 2, None);
          ParseStops(lines[1..], lines[0].indent + 2, None);
          if inner.Ok? {
            var next := Some(Extend(data, line, inner.value.0));
            ParseStops(inner.value.1, indent, next);
            var whole := ParseFrom(inner.value.1, indent, next);
            if whole.Ok? {
              SuffixOfTail(whole.value.1, inner.value.1, lines);
            }
          }
        }
      }
    }
  }

  /** At indentation 0 no line is left behind. */
  lemma ParseConsumesAll(lines: seq<Read>)
    ensures var r := ParseFrom(lines, 0, None); r.Ok? ==> r.value.1 == []
  {
    ParseStops(lines, 0, None);
  }
}
