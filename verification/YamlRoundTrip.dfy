/** Parsing undoes printing, at every indentation, on the fragment where the two agree. */
module YamlRoundTrip {
  import opened Text
  import opened Yaml

  // ---- The fragment ----------------------------------------------------------------------------

  predicate NoBreak(s: string) { forall i :: 0 <= i < |s| ==> !IsLineBreak(s[i]) }

  predicate KeyOk(k: string) {
    k != "" && Trimmed(k) && ':' !in k && NoBreak(k) && k[0] != '#' && !("- " <= k)
  }

  /**
   * A scalar the scalar printer and scalar parser agree on, and that fits on its line. Floats are left out: what is
   * kept of one is its text, while the parser returns a number.
   */
  predicate Survives(v: Yaml) {
    && IsScalar(v) && !v.Float?
    && NoBreak(FormatScalar(v))
    && Strip(FormatScalar(v)) != ""
    && ParseScalar(Strip(FormatScalar(v))) == v
  }

  predicate ItemOk(v: Yaml) {
    Survives(v) && ':' !in FormatScalar(v)
  }

  predicate ItemsOk(items: seq<Yaml>) {
    items != [] ==> ItemOk(items[0]) && ItemsOk(items[1..])
  }

  function Keys(es: seq<Entry>): set<string> {
    set e | e in es :: e.key
  }

  /** Nested mappings of scalars, mappings and non-empty lists of colon-free scalars, with distinct plain keys. */
  predicate InFragment(d: Yaml)
    decreases d, 1
  {
    match d
    case Map(es) => EntriesOk(es)
    case List(items) => items != [] && ItemsOk(items)
    case _ => Survives(d)
  }

  predicate EntriesOk(es: seq<Entry>)
    decreases es, 0
  {
    es != [] ==>
      && KeyOk(es[0].key) && es[0].key !in Keys(es[1..])
      && InFragment(es[0].value) && EntriesOk(es[1..])
  }

  /** What the fragment says about structure alone. */
  predicate Shaped(d: Yaml)
    decreases d, 1
  {
    match d
    case Map(es) => EntriesShaped(es)
    case List(items) => items != [] && forall v :: v in items ==> IsScalar(v)
    case _ => true
  }

  predicate EntriesShaped(es: seq<Entry>)
    decreases es, 0
  {
    es != [] ==> es[0].key !in Keys(es[1..]) && Shaped(es[0].value) && EntriesShaped(es[1..])
  }

  lemma {:induction false} FragmentShaped(d: Yaml)
    requires InFragment(d)
    ensures Shaped(d)
    decreases d, 1
  {
    match d
    case Map(es) => EntriesAreShaped(es);
    case List(items) => ItemsAreScalar(items);
    case _ =>
  }

  lemma {:induction false} EntriesAreShaped(es: seq<Entry>)
    requires EntriesOk(es)
    ensures EntriesShaped(es)
    decreases es, 0
  {
    if es != [] {
      FragmentShaped(es[0].value);
      EntriesAreShaped(es[1..]);
    }
  }

  lemma {:induction false} ItemsAreScalar(items: seq<Yaml>)
    requires ItemsOk(items)
    ensures forall v :: v in items ==> IsScalar(v)
    decreases |items|
  {
    if items != [] {
      ItemsAreScalar(items[1..]);
      assert items == [items[0]] + items[1..];
    }
  }

  // ---- From text to lines ----------------------------------------------------------------------

  lemma {:induction false} SplitAtBreak(a: string, b: string)
    ensures SplitLines(a + "\n" + b) == SplitLines(a) + SplitLines(b)
    decreases |a|
  {
    var s := a + "\n" + b;
    if a == "" {
      assert s[1..] == b;
    } else {
      assert s[1..] == a[1..] + "\n" + b;
      SplitAtBreak(a[1..], b);
    }
  }

  lemma {:induction false} KeepAppend(a: seq<string>, b: seq<string>)
    ensures KeepContent(a + b) == KeepContent(a) + KeepContent(b)
    decreases |a|
  {
    hide IsContent;
    if a == [] {
      assert a + b == b;
    } else {
      assert (a + b)[0] == a[0] && (a + b)[1..] == a[1..] + b;
      KeepAppend(a[1..], b);
      var head := if IsContent(a[0]) then [a[0]] else [];
      assert KeepContent(a + b) == head + (KeepContent(a[1..]) + KeepContent(b));
    }
  }

  /** Newlines separate: the content of a joined text is the content of its pieces. */
  lemma ContentAppend(a: string, b: string)
    ensures ContentLines(a + "\n" + b) == ContentLines(a) + ContentLines(b)
  {
    SplitAtBreak(a, b);
    KeepAppend(SplitLines(a), SplitLines(b));
  }

  lemma {:induction false} SplitNoBreak(s: string)
    requires NoBreak(s)
    ensures SplitLines(s) == [s]
    decreases |s|
  {
    if s != "" {
      SplitNoBreak(s[1..]);
      assert [s[0]] + s[1..] == s;
    }
  }

  lemma ContentOfLine(line: string)
    requires NoBreak(line) && IsContent(line)
    ensures ContentLines(line) == [line]
  {
    SplitNoBreak(line);
    assert [line][0] == line && [line][1..] == [];
    assert KeepContent([line]) == [line] + KeepContent([]);
  }

  lemma ContentOfJoin(first: string, rest: seq<string>)
    ensures ContentLines(Join([first] + rest, '\n')) == ContentLines(first) + ContentLines(Join(rest, '\n'))
  {
    if rest == [] {
      assert [first] + rest == [first];
      assert ContentLines("") == [];
      assert ContentLines(first) + [] == ContentLines(first);
    } else {
      assert ([first] + rest)[1..] == rest;
      ContentAppend(first, Join(rest, '\n'));
    }
  }

  function KeyLine(key: string, n: nat): string { Spaces(n) + key + ":" }

  function PairLine(key: string, v: Yaml, n: nat): string
    requires IsScalar(v)
  {
    Spaces(n) + key + ": " + FormatScalar(v)
  }

  function ItemLine(v: Yaml, n: nat): string
    requires IsScalar(v)
  {
    Spaces(n) + "- " + FormatScalar(v)
  }

  /** A printed value as the parser is to read it, line by line. */
  function Doc(d: Yaml, n: nat): seq<Read>
    decreases d, 1
  {
    match d
    case Map(es) => DocEntries(es, n)
    case List(items) => DocItems(items, n)
    case _ => []
  }

  function DocEntries(es: seq<Entry>, n: nat): seq<Read>
    decreases es, 0
  {
    if es == [] then []
    else
      var e := es[0];
      (if IsScalar(e.value) then [Read(n, Pair(e.key, Some(e.value)), PairLine(e.key, e.value, n))]
       else [Read(n, Pair(e.key, None), KeyLine(e.key, n))] + Doc(e.value, n + 2))
      + DocEntries(es[1..], n)
  }

  function DocItems(items: seq<Yaml>, n: nat): seq<Read>
    decreases items, 0
  {
    if items == [] then []
    else
      var first := if IsScalar(items[0]) then [Read(n, ScalarItem(items[0]), ItemLine(items[0], n))] else [];
      first + DocItems(items[1..], n)
  }

  // ---- One line --------------------------------------------------------------------------------

  lemma {:induction false} IndentOf(n: nat, body: string)
    requires body != "" && body[0] != ' '
    ensures Indent(Spaces(n) + body) == n
    decreases n
  {
    if n == 0 {
      assert Spaces(0) + body == body;
    } else {
      assert (Spaces(n) + body)[1..] == Spaces(n - 1) + body;
      IndentOf(n - 1, body);
    }
  }

  /** Stripping a printed line leaves its indentation and trailing space out. */
  lemma StripLine(n: nat, head: string, tail: string)
    requires head != "" && !IsSpace(head[0]) && !IsSpace(head[|head| - 1])
    ensures Strip(Spaces(n) + head + tail) == head + RStrip(tail)
  {
    assert Spaces(n) + head + tail == Spaces(n) + (head + tail);
    LStripSpaces(Spaces(n), head + tail);
    RStripAppend(head, tail);
  }

  lemma StripSpaced(s: string)
    ensures Strip(RStrip(" " + s)) == Strip(s)
  {
    StripRStrip(" " + s);
    LStripSpaces(" ", s);
  }

  lemma IndexAfter(key: string, rest: string)
    requires ':' !in key
    ensures IndexOf(key + ":" + rest, ':') == |key|
  {
    var s := key + ":" + rest;
    var n := IndexOf(s, ':');
    assert s[|key|] == ':';
    assert n >= |key| by {
      assert forall i :: 0 <= i < |key| ==> s[i] == key[i];
    }
    assert n <= |key| by {
      assert forall i :: 0 <= i < n ==> s[..n][i] == s[i];
    }
  }

  /** Content `key:` followed by `rest` reads as that pair. */
  lemma ReadsPair(key: string, rest: string)
    requires KeyOk(key)
    ensures Decode(key + ":" + rest) == Pair(key, ValueText(Strip(rest)))
    ensures !("#" <= key + ":" + rest)
  {
    var content := key + ":" + rest;
    assert content[0] == key[0];
    assert !("- " <= content) by {
      if |key| >= 2 {
        assert content[..2] == key[..2];
      } else {
        assert content[1] == ':';
      }
    }
    IndexAfter(key, rest);
    assert content[..|key|] == key && content[|key| + 1..] == rest;
    StripTrimmed(key);
  }

  lemma SpacesNoBreak(n: nat, body: string)
    requires NoBreak(body)
    ensures NoBreak(Spaces(n) + body)
  {
  }

  /** The content line `text`, alone, reads as `r`. */
  ghost predicate IsLine(text: string, r: Read) {
    ContentLines(text) == [text] && ReadLine(text) == r
  }

  /** A printed `key: text` or `key:` line reads back as that pair. */
  lemma ReadPair(n: nat, key: string, tail: string)
    requires KeyOk(key) && NoBreak(tail)
    ensures
      var line := Spaces(n) + key + ":" + tail;
      IsLine(line, Read(n, Pair(key, ValueText(Strip(RStrip(tail)))), line))
  {
    hide Strip, RStrip, Indent, Decode, ContentLines, ValueText;
    var head := key + ":";
    var line := Spaces(n) + key + ":" + tail;
    assert line == Spaces(n) + head + tail == Spaces(n) + (head + tail);
    assert head[0] == key[0] && head[|head| - 1] == ':';
    StripLine(n, head, tail);
    IndentOf(n, head + tail);
    SpacesNoBreak(n, head + tail);
    ReadsPair(key, RStrip(tail));
    ContentOfLine(line);
  }

  lemma ReadScalarPair(n: nat, key: string, v: Yaml)
    requires KeyOk(key) && Survives(v)
    ensures IsLine(PairLine(key, v, n), Read(n, Pair(key, Some(v)), PairLine(key, v, n)))
  {
    hide Strip, RStrip, Decode, ParseScalar, FormatScalar, IsLine;
    var tail := " " + FormatScalar(v);
    assert PairLine(key, v, n) == Spaces(n) + key + ":" + tail;
    ReadPair(n, key, tail);
    StripSpaced(FormatScalar(v));
  }

  lemma ReadHeader(n: nat, key: string)
    requires KeyOk(key)
    ensures IsLine(KeyLine(key, n), Read(n, Pair(key, None), KeyLine(key, n)))
  {
    assert Spaces(n) + key + ":" + "" == KeyLine(key, n);
    ReadPair(n, key, "");
  }

  /** The space after the dash survives `rstrip` because something follows it. */
  lemma KeptSpace(s: string)
    requires Strip(s) != ""
    ensures RStrip(" " + s) != "" && RStrip(" " + s)[0] == ' ' && Strip(RStrip(" " + s)[1..]) == Strip(s)
  {
    var kept := RStrip(" " + s);
    StripSpaced(s);
    RStripEnd(" " + s);
    assert kept == " " + kept[1..];
    LStripSpaces(" ", kept[1..]);
  }

  /** Content `- text` reads as a scalar item when the text holds no colon. */
  lemma ReadsItem(rest: string)
    requires Strip(rest) != "" && ':' !in Strip(rest)
    ensures Decode("- " + rest) == ScalarItem(ParseScalar(Strip(rest)))
  {
    assert ("- " + rest)[2..] == rest;
  }

  lemma IsLineOf(line: string, content: string, n: nat)
    requires NoBreak(line) && Indent(line) == n && Strip(line) == content && content != "" && content[0] != '#'
    ensures IsLine(line, Read(n, Decode(content), line))
  {
    ContentOfLine(line);
  }

  lemma ReadItemText(n: nat, fmt: string)
    requires NoBreak(fmt) && Strip(fmt) != "" && ':' !in fmt
    ensures
      var line := Spaces(n) + "- " + fmt;
      IsLine(line, Read(n, ScalarItem(ParseScalar(Strip(fmt))), line))
  {
    var line, kept := Spaces(n) + "- " + fmt, RStrip(" " + fmt);
    KeptSpace(fmt);
    assert Strip(line) == "- " + kept[1..] by {
      assert line == Spaces(n) + "-" + (" " + fmt);
      StripLine(n, "-", " " + fmt);
      assert "-" + kept == "- " + kept[1..];
    }
    assert Indent(line) == n && NoBreak(line) by {
      assert line == Spaces(n) + ("- " + fmt);
      IndentOf(n, "- " + fmt);
      SpacesNoBreak(n, "- " + fmt);
    }
    IsLineOf(line, "- " + kept[1..], n);
    StripShortens(fmt);
    ReadsItem(kept[1..]);
  }

  lemma ReadItem(n: nat, v: Yaml)
    requires ItemOk(v)
    ensures IsLine(ItemLine(v, n), Read(n, ScalarItem(v), ItemLine(v, n)))
  {
    ReadItemText(n, FormatScalar(v));
  }

  // ---- The printed text is its lines -----------------------------------------------------------

  lemma ReadLinesAppend(a: seq<string>, b: seq<string>)
    ensures ReadLines(a + b) == ReadLines(a) + ReadLines(b)
  {
    hide ReadLine;
  }

  /** How the content of a text reads. */
  function Reading(text: string): seq<Read> {
    ReadLines(ContentLines(text))
  }

  lemma ReadingOfJoin(first: string, rest: seq<string>)
    ensures Reading(Join([first] + rest, '\n')) == Reading(first) + Reading(Join(rest, '\n'))
  {
    ContentOfJoin(first, rest);
    ReadLinesAppend(ContentLines(first), ContentLines(Join(rest, '\n')));
  }

  lemma ReadingOfLine(text: string, r: Read, rest: seq<string>)
    requires IsLine(text, r)
    ensures Reading(Join([text] + rest, '\n')) == [r] + Reading(Join(rest, '\n'))
  {
    ReadingOfJoin(text, rest);
    assert ReadLines([text]) == [r];
  }

  lemma {:induction false} DumpItemsReading(items: seq<Yaml>, n: nat)
    requires ItemsOk(items)
    ensures Reading(Join(DumpItems(items, n), '\n')) == DocItems(items, n)
    decreases |items|
  {
    if items != [] {
      ReadItem(n, items[0]);
      ReadingOfLine(ItemLine(items[0], n), Read(n, ScalarItem(items[0]), ItemLine(items[0], n)),
        DumpItems(items[1..], n));
      DumpItemsReading(items[1..], n);
    }
  }

  lemma ScalarEntryReading(e: Entry, n: nat, more: seq<string>)
    requires IsScalar(e.value) && KeyOk(e.key) && Survives(e.value)
    ensures
      var line := PairLine(e.key, e.value, n);
      Reading(Join([line] + more, '\n')) == [Read(n, Pair(e.key, Some(e.value)), line)] + Reading(Join(more, '\n'))
  {
    hide Reading, IsLine, FormatScalar, Survives, KeyOk, Join;
    var line := PairLine(e.key, e.value, n);
    ReadScalarPair(n, e.key, e.value);
    ReadingOfLine(line, Read(n, Pair(e.key, Some(e.value)), line), more);
  }

  lemma NestedEntryReading(key: string, n: nat, nested: string, more: seq<string>)
    requires KeyOk(key)
    ensures Reading(Join([KeyLine(key, n), nested] + more, '\n')) ==
      [Read(n, Pair(key, None), KeyLine(key, n))] + Reading(nested) + Reading(Join(more, '\n'))
  {
    hide Reading, IsLine, KeyOk, Join;
    var line := KeyLine(key, n);
    ReadHeader(n, key);
    ReadingOfLine(line, Read(n, Pair(key, None), line), [nested] + more);
    ReadingOfJoin(nested, more);
    assert [line, nested] + more == [line] + ([nested] + more);
  }

  lemma {:induction false} DumpEntriesReading(es: seq<Entry>, n: nat)
    requires EntriesOk(es)
    ensures Reading(Join(DumpEntries(es, n), '\n')) == DocEntries(es, n)
    decreases es, 0
  {
    if es != [] {
      var e, more := es[0], DumpEntries(es[1..], n);
      DumpEntriesReading(es[1..], n);
      if IsScalar(e.value) {
        ScalarEntryReading(e, n, more);
      } else {
        DumpReading(e.value, n + 2);
        NestedEntryReading(e.key, n, Dump(e.value, n + 2), more);
        assert DumpEntries(es, n) == [KeyLine(e.key, n), Dump(e.value, n + 2)] + more;
      }
    }
  }

  lemma {:induction false} DumpReading(d: Yaml, n: nat)
    requires InFragment(d) && !IsScalar(d)
    ensures Reading(Dump(d, n)) == Doc(d, n)
    decreases d, 1
  {
    match d
    case Map(es) => DumpEntriesReading(es, n);
    case List(items) => DumpItemsReading(items, n);
  }

  // ---- The parser reads the lines back ---------------------------------------------------------

  /** A nested block two columns further in ends before `rest`. */
  predicate EndsBlock(rest: seq<Read>, n: nat) {
    rest != [] ==> rest[0].indent < n + 2
  }

  function Started(done: seq<Entry>): Option<Yaml> {
    if done == [] then None else Some(Map(done))
  }

  function StartedList(done: seq<Yaml>): Option<Yaml> {
    if done == [] then None else Some(List(done))
  }

  lemma {:induction false} PutNew(es: seq<Entry>, key: string, v: Yaml)
    requires key !in Keys(es)
    ensures Put(es, key, v) == es + [Entry(key, v)]
    decreases |es|
  {
    if es != [] {
      assert es[0].key in Keys(es);
      assert forall e :: e in es[1..] ==> e in es;
      PutNew(es[1..], key, v);
    }
  }

  /** One turn of the loop, when the block nested under the line is known. */
  lemma ParseStep(first: Read, after: seq<Read>, n: nat, data: Option<Yaml>, nested: Yaml, rest: seq<Read>)
    requires first.indent == n && !first.line.Bad? && Fits(data, first.line)
    requires if HasBlock(first.line) then ParseFrom(after, n + 2, None) == Ok((nested, rest))
      else nested == Null && rest == after
    ensures ParseFrom([first] + after, n, data) == ParseFrom(rest, n, Some(Extend(data, first.line, nested)))
  {
    assert ([first] + after)[1..] == after;
  }

  lemma NothingNested(rest: seq<Read>, n: nat)
    requires EndsBlock(rest, n)
    ensures ParseFrom(rest, n + 2, None) == Ok((Map([]), rest))
  {
  }

  lemma ParseItem(v: Yaml, n: nat, done: seq<Yaml>, after: seq<Read>)
    requires IsScalar(v) && EndsBlock(after, n)
    ensures
      var first := Read(n, ScalarItem(v), ItemLine(v, n));
      ParseFrom([first] + after, n, StartedList(done)) == ParseFrom(after, n, StartedList(done + [v]))
  {
    hide ParseFrom, ItemLine;
    NothingNested(after, n);
    ParseStep(Read(n, ScalarItem(v), ItemLine(v, n)), after, n, StartedList(done), Map([]), after);
  }

  lemma ItemsHead(items: seq<Yaml>, n: nat)
    requires items != [] && IsScalar(items[0])
    ensures DocItems(items, n) == [Read(n, ScalarItem(items[0]), ItemLine(items[0], n))] + DocItems(items[1..], n)
  {
    hide ItemLine;
  }

  lemma ItemsUnrolled(items: seq<Yaml>, n: nat, rest: seq<Read>)
    requires items != [] && (forall v :: v in items ==> IsScalar(v)) && EndsBlock(rest, n)
    ensures
      var after := DocItems(items[1..], n) + rest;
      DocItems(items, n) + rest == [Read(n, ScalarItem(items[0]), ItemLine(items[0], n))] + after && EndsBlock(after, n)
  {
    hide ItemLine, DocItems;
    var more := items[1..];
    ItemsHead(items, n);
    if more != [] {
      assert more[0] == items[1];
      ItemsHead(more, n);
    } else {
      NoItems(n);
      assert DocItems(more, n) + rest == rest;
    }
  }

  lemma NoItems(n: nat)
    ensures DocItems([], n) == []
  {
  }

  lemma {:induction false} ParseItems(items: seq<Yaml>, n: nat, done: seq<Yaml>, rest: seq<Read>)
    requires (forall v :: v in items ==> IsScalar(v)) && EndsBlock(rest, n)
    ensures ParseFrom(DocItems(items, n) + rest, n, StartedList(done)) == ParseFrom(rest, n, StartedList(done + items))
    decreases |items|
  {
    hide ParseFrom, ItemLine, StartedList, DocItems;
    if items == [] {
      NoItems(n);
      assert DocItems(items, n) + rest == rest && done + items == done;
    } else {
      var v, after := items[0], DocItems(items[1..], n) + rest;
      ItemsUnrolled(items, n, rest);
      ParseItem(v, n, done, after);
      ParseItems(items[1..], n, done + [v], rest);
      assert done + [v] + items[1..] == done + items;
    }
  }

  /** The lines of one entry. */
  function DocEntry(e: Entry, n: nat): seq<Read> {
    if IsScalar(e.value) then [Read(n, Pair(e.key, Some(e.value)), PairLine(e.key, e.value, n))]
    else [Read(n, Pair(e.key, None), KeyLine(e.key, n))] + Doc(e.value, n + 2)
  }

  lemma EntriesHead(es: seq<Entry>, n: nat)
    requires es != []
    ensures DocEntries(es, n) == DocEntry(es[0], n) + DocEntries(es[1..], n)
    ensures DocEntry(es[0], n) != [] && DocEntry(es[0], n)[0].indent == n
  {
    hide PairLine, KeyLine, FormatScalar, Doc;
  }

  lemma EntriesUnrolled(es: seq<Entry>, n: nat, rest: seq<Read>)
    requires es != [] && EndsBlock(rest, n)
    ensures
      var after := DocEntries(es[1..], n) + rest;
      DocEntries(es, n) + rest == DocEntry(es[0], n) + after && EndsBlock(after, n)
  {
    hide DocEntries, DocEntry;
    var more := es[1..];
    EntriesHead(es, n);
    if more != [] {
      EntriesHead(more, n);
      assert (DocEntries(more, n) + rest)[0] == DocEntry(more[0], n)[0];
    } else {
      NoEntries(n);
      assert DocEntries(more, n) + rest == rest;
    }
  }

  lemma NoEntries(n: nat)
    ensures DocEntries([], n) == []
  {
  }

  lemma {:induction false} ParseEntries(es: seq<Entry>, n: nat, done: seq<Entry>, rest: seq<Read>)
    requires EntriesShaped(es) && Keys(es) !! Keys(done) && EndsBlock(rest, n)
    ensures ParseFrom(DocEntries(es, n) + rest, n, Started(done)) == ParseFrom(rest, n, Started(done + es))
    decreases es, 0
  {
    hide ParseFrom, DocEntries, DocEntry, Started, EndsBlock;
    if es == [] {
      NoEntries(n);
      assert DocEntries(es, n) + rest == rest && done + es == done;
    } else {
      var e, after := es[0], DocEntries(es[1..], n) + rest;
      EntriesUnrolled(es, n, rest);
      assert e in es && e.key in Keys(es);
      ParseEntry(e, n, done, after);
      StartedMore(done, e);
      KeysMove(done, es);
      ParseEntries(es[1..], n, done + [e], rest);
      assert done + [e] + es[1..] == done + es;
    }
  }

  lemma StartedMore(done: seq<Entry>, e: Entry)
    ensures Started(done + [e]) == Some(Map(done + [e]))
  {
  }

  lemma {:induction false} ParseEntry(e: Entry, n: nat, done: seq<Entry>, after: seq<Read>)
    requires Shaped(e.value) && e.key !in Keys(done) && EndsBlock(after, n)
    ensures ParseFrom(DocEntry(e, n) + after, n, Started(done)) == ParseFrom(after, n, Some(Map(done + [e])))
    decreases e, 2
  {
    hide ParseFrom, PairLine, KeyLine, FormatScalar, Doc;
    PutNew(done, e.key, e.value);
    if IsScalar(e.value) {
      ParseStep(Read(n, Pair(e.key, Some(e.value)), PairLine(e.key, e.value, n)), after, n, Started(done), Null, after);
    } else {
      var first := Read(n, Pair(e.key, None), KeyLine(e.key, n));
      ParseDoc(e.value, n + 2, after);
      ParseStep(first, Doc(e.value, n + 2) + after, n, Started(done), e.value, after);
      assert DocEntry(e, n) + after == [first] + (Doc(e.value, n + 2) + after);
    }
  }

  lemma KeysMove(done: seq<Entry>, es: seq<Entry>)
    requires es != [] && es[0].key !in Keys(es[1..]) && Keys(es) !! Keys(done)
    ensures Keys(es[1..]) !! Keys(done + [es[0]])
  {
    forall k | k in Keys(es[1..]) ensures k !in Keys(done + [es[0]]) {
      var e :| e in es[1..] && e.key == k;
      assert e in es;
      assert k in Keys(es);
    }
  }

  /** A printed block, followed by anything further out, reads back as the value, leaving the rest. */
  lemma {:induction false} ParseDoc(d: Yaml, n: nat, rest: seq<Read>)
    requires Shaped(d) && !IsScalar(d)
    requires rest != [] ==> rest[0].indent < n
    ensures ParseFrom(Doc(d, n) + rest, n, None) == Ok((d, rest))
    decreases d, 1
  {
    match d
    case Map(es) =>
      assert Keys([]) == {};
      ParseEntries(es, n, [], rest);
      assert [] + es == es;
    case List(items) =>
      ParseItems(items, n, [], rest);
      assert [] + items == items;
  }

  /** Printing at any indentation gives lines that parse back, whatever less indented lines follow. */
  lemma BlockRoundTrip(d: Yaml, n: nat, rest: seq<Read>)
    requires InFragment(d) && !IsScalar(d)
    requires rest != [] ==> rest[0].indent < n
    ensures ParseFrom(ReadLines(ContentLines(Dump(d, n))) + rest, n, None) == Ok((d, rest))
  {
    DumpReading(d, n);
    FragmentShaped(d);
    ParseDoc(d, n, rest);
  }

  /** `simple_parse_yaml(dump_yaml(d)) == d`. */
  lemma RoundTrip(d: Yaml)
    requires InFragment(d) && d.Map?
    ensures Parse(Dump(d, 0)) == Ok(d)
  {
    BlockRoundTrip(d, 0, []);
    assert Reading(Dump(d, 0)) + [] == Reading(Dump(d, 0));
  }

  /** Outside the fragment: an empty list is printed like an empty mapping, and read back as one. */
  lemma EmptyListBecomesMapping(key: string)
    requires KeyOk(key)
    ensures Parse(Dump(Map([Entry(key, List([]))]), 0)) == Ok(Map([Entry(key, Map([]))]))
  {
    var asList, asMap := Map([Entry(key, List([]))]), Map([Entry(key, Map([]))]);
    assert [Entry(key, List([]))][1..] == [] && [Entry(key, Map([]))][1..] == [];
    assert Dump(List([]), 2) == Dump(Map([]), 2) == "";
    assert Dump(asList, 0) == Dump(asMap, 0);
    RoundTrip(asMap);
  }
}
