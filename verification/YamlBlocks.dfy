/** How lines make blocks: repeated keys, items that start mappings, refused lines, and lists that do not read back. */
module YamlBlocks {
  import opened Text
  import opened Yaml
  import opened YamlRoundTrip

  // ---- Mappings --------------------------------------------------------------------------------

  /** What a mapping holds under a key. */
  function Under(es: seq<Entry>, key: string): Option<Yaml> {
    if es == [] then None else if es[0].key == key then Some(es[0].value) else Under(es[1..], key)
  }

  function KeyOrder(es: seq<Entry>): seq<string> {
    seq(|es|, i requires 0 <= i < |es| => es[i].key)
  }

  predicate DistinctKeys(es: seq<Entry>) {
    forall i, j :: 0 <= i < j < |es| ==> es[i].key != es[j].key
  }

  lemma {:induction false} UnderNone(es: seq<Entry>, key: string)
    ensures Under(es, key).None? <==> key !in KeyOrder(es)
    decreases |es|
  {
    if es != [] {
      UnderNone(es[1..], key);
      assert KeyOrder(es) == [es[0].key] + KeyOrder(es[1..]);
    }
  }

  /** An assignment replaces the value of a key where it stands, or adds the key at the end; other keys keep theirs. */
  lemma {:induction false} PutMeans(es: seq<Entry>, key: string, v: Yaml)
    ensures forall k :: Under(Put(es, key, v), k) == if k == key then Some(v) else Under(es, k)
    ensures KeyOrder(Put(es, key, v)) == if key in KeyOrder(es) then KeyOrder(es) else KeyOrder(es) + [key]
    decreases |es|
  {
    forall k ensures Under(Put(es, key, v), k) == if k == key then Some(v) else Under(es, k) {
      PutUnder(es, key, v, k);
    }
    if es != [] {
      hide Under;
      PutMeans(es[1..], key, v);
      KeysOf(es);
      KeysOf(Put(es, key, v));
      PutTail(es, key, v);
      assert es[0].key == key ==> key in KeyOrder(es);
    }
  }

  lemma PutTail(es: seq<Entry>, key: string, v: Yaml)
    requires es != []
    ensures
      var put := Put(es, key, v);
      && put != [] && put[0].key == es[0].key
      && put[1..] == (if es[0].key == key then es[1..] else Put(es[1..], key, v))
      && put[0].value == if es[0].key == key then v else es[0].value
  {
  }

  lemma KeysOf(es: seq<Entry>)
    requires es != []
    ensures KeyOrder(es) == [es[0].key] + KeyOrder(es[1..])
  {
  }

  lemma {:induction false} PutUnder(es: seq<Entry>, key: string, v: Yaml, k: string)
    ensures Under(Put(es, key, v), k) == if k == key then Some(v) else Under(es, k)
    decreases |es|
  {
    if es != [] {
      PutUnder(es[1..], key, v, k);
      PutTail(es, key, v);
    } else {
      assert [Entry(key, v)][1..] == [];
    }
  }

  predicate NoRepeat(keys: seq<string>) {
    forall i, j :: 0 <= i < j < |keys| ==> keys[i] != keys[j]
  }

  /** And so no key is ever there twice. */
  lemma PutKeepsDistinct(es: seq<Entry>, key: string, v: Yaml)
    requires DistinctKeys(es)
    ensures DistinctKeys(Put(es, key, v))
  {
    hide Put;
    var put := Put(es, key, v);
    PutMeans(es, key, v);
    assert NoRepeat(KeyOrder(es));
    assert NoRepeat(KeyOrder(put));
    forall i, j | 0 <= i < j < |put| ensures put[i].key != put[j].key {
      assert KeyOrder(put)[i] == put[i].key && KeyOrder(put)[j] == put[j].key;
    }
  }

  // ---- Lines -----------------------------------------------------------------------------------

  function ValueOf(rest: string): Option<Yaml> {
    if Strip(rest) == "" then None else Some(ParseScalar(Strip(rest)))
  }

  /**
   * A content line is an item exactly when it starts with a dash and a space, and otherwise a pair exactly when it
   * holds a colon. Key and value lie on either side of the first colon; an item without one is a scalar. No line is
   * an empty item: stripping takes the space behind a lone dash.
   */
  lemma LineReads(content: string)
    requires Trimmed(content) && content != ""
    ensures Decode(content).IsItem() <==> "- " <= content
    ensures Decode(content).Bad? <==> !("- " <= content) && ':' !in content
    ensures !Decode(content).EmptyItem?
    ensures "- " <= content && ':' !in content ==> Decode(content) == ScalarItem(ParseScalar(Strip(content[2..])))
    ensures forall key, rest :: content == "- " + key + ":" + rest && ':' !in key ==>
      Decode(content) == InlineItem(Strip(key), ValueOf(rest))
    ensures forall key, rest :: !("- " <= content) && content == key + ":" + rest && ':' !in key ==>
      Decode(content) == Pair(Strip(key), ValueOf(rest))
  {
    hide ParseScalar, Strip, IndexOf;
    if "- " <= content {
      ItemReads(content);
    }
    forall key, rest | !("- " <= content) && content == key + ":" + rest && ':' !in key
      ensures Decode(content) == Pair(Strip(key), ValueOf(rest))
    {
      IndexAfter(key, rest);
      assert content[..|key|] == key && content[|key| + 1..] == rest;
    }
  }

  lemma ItemReads(content: string)
    requires Trimmed(content) && "- " <= content
    ensures Decode(content).IsItem() && !Decode(content).EmptyItem?
    ensures ':' !in content ==> Decode(content) == ScalarItem(ParseScalar(Strip(content[2..])))
    ensures forall key, rest :: content == "- " + key + ":" + rest && ':' !in key ==>
      Decode(content) == InlineItem(Strip(key), ValueOf(rest))
  {
    hide ParseScalar, Strip, IndexOf, RStrip;
    var text := content[2..];
    assert content == "- " + text;
    assert text != "" && !IsSpace(text[|text| - 1]) by {
      assert content[|content| - 1] != ' ' && content[1] == ' ';
    }
    StripShortens(text);
    StripsToEnd(text);
    forall key, rest | content == "- " + key + ":" + rest && ':' !in key
      ensures Decode(content) == InlineItem(Strip(key), ValueOf(rest))
    {
      assert text == key + ":" + rest;
      assert text == key + (":" + rest);
      LStripAppend(key, ":" + rest);
      var kept := LStrip(key);
      assert Strip(text) == kept + ":" + rest;
      LStripEnd(key);
      IndexAfter(kept, rest);
      assert Strip(text)[..|kept|] == kept && Strip(text)[|kept| + 1..] == rest;
      StripLStrip(key);
    }
  }

  lemma {:induction false} LStripAppend(a: string, b: string)
    requires b != "" && !IsSpace(b[0])
    ensures LStrip(a + b) == LStrip(a) + b
    decreases |a|
  {
    if a == "" {
      assert a + b == b;
    } else if IsSpace(a[0]) {
      assert (a + b)[1..] == a[1..] + b;
      LStripAppend(a[1..], b);
    }
  }

  lemma StripLStrip(s: string)
    ensures Strip(LStrip(s)) == Strip(s)
  {
    LStripStart(s);
  }

  /** Text that ends in no white space only loses white space in front. */
  lemma {:induction false} StripsToEnd(s: string)
    requires s != "" && !IsSpace(s[|s| - 1])
    ensures Strip(s) == LStrip(s) != ""
    decreases |s|
  {
    if IsSpace(s[0]) {
      StripsToEnd(s[1..]);
    }
  }

  // ---- Inline items ----------------------------------------------------------------------------

  predicate HasKey(es: seq<Entry>, key: string) { exists i :: 0 <= i < |es| && es[i].key == key }

  lemma KeyInTail(es: seq<Entry>, key: string)
    requires es != []
    ensures HasKey(es, key) <==> es[0].key == key || HasKey(es[1..], key)
  {
    if i :| 0 < i < |es| && es[i].key == key {
      assert es[1..][i - 1].key == key;
    }
    if i :| 0 <= i < |es[1..]| && es[1..][i].key == key {
      assert es[i + 1].key == key;
    }
  }

  lemma {:induction false} PutKeeps(es: seq<Entry>, key: string, v: Yaml)
    ensures HasKey(Put(es, key, v), key)
    ensures forall k :: HasKey(es, k) ==> HasKey(Put(es, key, v), k)
    decreases |es|
  {
    var put := Put(es, key, v);
    if es == [] || es[0].key == key {
      assert put[0].key == key;
      forall k | HasKey(es, k) ensures HasKey(put, k) {
        KeyInTail(es, k);
        KeyInTail(put, k);
      }
    } else {
      PutKeeps(es[1..], key, v);
      assert put[1..] == Put(es[1..], key, v);
      KeyInTail(put, key);
      forall k | HasKey(es, k) ensures HasKey(put, k) {
        KeyInTail(es, k);
        KeyInTail(put, k);
      }
    }
  }

  /** Assignments to different keys may be swapped when one of the keys is there already. */
  lemma {:induction false} PutsCommute(es: seq<Entry>, a: string, x: Yaml, b: string, y: Yaml)
    requires a != b && HasKey(es, b)
    ensures Put(Put(es, a, x), b, y) == Put(Put(es, b, y), a, x)
    decreases |es|
  {
    if es[0].key != b {
      var i :| 0 <= i < |es| && es[i].key == b;
      assert es[1..][i - 1].key == b;
      PutsCommute(es[1..], a, x, b, y);
    }
  }

  lemma {:induction false} PutTwice(es: seq<Entry>, key: string, x: Yaml, y: Yaml)
    ensures Put(Put(es, key, x), key, y) == Put(es, key, y)
    decreases |es|
  {
    if es != [] && es[0].key != key {
      PutTwice(es[1..], key, x, y);
    }
  }

  lemma {:induction false} PutThroughUpdate(es: seq<Entry>, more: seq<Entry>, key: string, v: Yaml)
    requires HasKey(es, key) && !HasKey(more, key)
    ensures Put(Update(es, more), key, v) == Update(Put(es, key, v), more)
    decreases |more|
  {
    if more != [] {
      PutKeeps(es, more[0].key, more[0].value);
      PutsCommute(es, more[0].key, more[0].value, key, v);
      PutThroughUpdate(Put(es, more[0].key, more[0].value), more[1..], key, v);
    }
  }

  /** Updating with a mapping that got one more assignment is updating first and assigning then. */
  lemma {:induction false} UpdatePut(es: seq<Entry>, fs: seq<Entry>, key: string, v: Yaml)
    requires DistinctKeys(fs)
    ensures Update(es, Put(fs, key, v)) == Put(Update(es, fs), key, v)
    decreases |fs|
  {
    if fs == [] {
      assert [Entry(key, v)][1..] == [];
    } else if fs[0].key == key {
      var put := Put(es, key, fs[0].value);
      PutKeeps(es, key, fs[0].value);
      assert Put(fs, key, v)[1..] == fs[1..];
      PutThroughUpdate(put, fs[1..], key, v);
      PutTwice(es, key, fs[0].value, v);
    } else {
      UpdatePut(Put(es, fs[0].key, fs[0].value), fs[1..], key, v);
    }
  }

  /** A block that started as a mapping stays one. */
  lemma {:induction false} StaysMapping(lines: seq<Read>, indent: nat, data: Option<Yaml>)
    requires data.Some?
    ensures
      var r := ParseFrom(lines, indent, data);
      r.Ok? ==> (r.value.0.Map? <==> data.value.Map?)
    decreases |lines|
  {
    if lines != [] && lines[0].indent >= indent && !lines[0].line.Bad? && Fits(data, lines[0].line) {
      if !HasBlock(lines[0].line) {
        StaysMapping(lines[1..], indent, Some(Extend(data, lines[0].line, Null)));
      } else {
        var inner := ParseFrom(lines[1..], lines[0].indent + 2, None);
        if inner.Ok? {
          StaysMapping(inner.value.1, indent, Some(Extend(data, lines[0].line, inner.value.0)));
        }
      }
    }
  }

  /** Reading on from `es` is reading on from what was read so far and updating `es` with the outcome. */
  lemma {:induction false} ReadOn(lines: seq<Read>, indent: nat, es: seq<Entry>, fs: seq<Entry>)
    requires DistinctKeys(fs) && ParseFrom(lines, indent, Some(Map(fs))).Ok?
    ensures ParseFrom(lines, indent, Some(Map(fs))).value.0.Map?
    ensures
      var (block, rest) := ParseFrom(lines, indent, Some(Map(fs))).value;
      ParseFrom(lines, indent, Some(Map(Update(es, fs)))) == Ok((Map(Update(es, block.entries)), rest))
    decreases |lines|
  {
    hide Put, Update, DistinctKeys;
    StaysMapping(lines, indent, Some(Map(fs)));
    if lines != [] && lines[0].indent >= indent {
      var line := lines[0].line;
      if !HasBlock(line) {
        UpdatePut(es, fs, line.key, line.value.value);
        PutKeepsDistinct(fs, line.key, line.value.value);
        ReadOn(lines[1..], indent, es, Put(fs, line.key, line.value.value));
      } else {
        var inner := ParseFrom(lines[1..], lines[0].indent + 2, None).value;
        UpdatePut(es, fs, line.key, inner.0);
        PutKeepsDistinct(fs, line.key, inner.0);
        ReadOn(inner.1, indent, es, Put(fs, line.key, inner.0));
      }
    }
  }

  /** Nothing read yet is an empty mapping, where a mapping comes out. */
  lemma StartsEmpty(lines: seq<Read>, indent: nat)
    requires ParseFrom(lines, indent, None).Ok? && ParseFrom(lines, indent, None).value.0.Map?
    ensures ParseFrom(lines, indent, Some(Map([]))) == ParseFrom(lines, indent, None)
  {
    if lines != [] && lines[0].indent >= indent && lines[0].line.IsItem() {
      var inner := ParseFrom(lines[1..], lines[0].indent + 2, None);
      StaysMapping(inner.value.1, indent, Some(Extend(None, lines[0].line, inner.value.0)));
    }
  }

  /**
   * An item `- key: value` with a mapping nested under it is the mapping that the pair `key: value`, two columns
   * further in and followed by the same lines, starts.
   */
  lemma InlineItemStartsMapping(n: nat, key: string, v: Yaml, raw: string, more: seq<Read>)
    requires ParseFrom(more, n + 2, None).Ok? && ParseFrom(more, n + 2, None).value.0.Map?
    ensures
      var (nested, rest) := ParseFrom(more, n + 2, None).value;
      ParseFrom([Read(n + 2, Pair(key, Some(v)), raw)] + more, n + 2, None)
      == Ok((ItemOf(InlineItem(key, Some(v)), nested), rest))
  {
    hide Put, Update;
    var (nested, rest) := ParseFrom(more, n + 2, None).value;
    var first := [Read(n + 2, Pair(key, Some(v)), raw)] + more;
    assert first[1..] == more;
    StartsEmpty(more, n + 2);
    ReadOn(more, n + 2, [Entry(key, v)], []);
    assert Update([Entry(key, v)], []) == [Entry(key, v)] && Put([], key, v) == [Entry(key, v)] by {
      NothingToUpdate(key, v);
    }
  }

  lemma NothingToUpdate(key: string, v: Yaml)
    ensures Update([Entry(key, v)], []) == [Entry(key, v)] && Put([], key, v) == [Entry(key, v)]
  {
  }

  // ---- Refused texts ---------------------------------------------------------------------------

  predicate IsBad(r: Read) { r.line.Bad? }

  predicate NoneBad(lines: seq<Read>, n: int) {
    forall i :: 0 <= i < n && i < |lines| ==> !IsBad(lines[i])
  }

  /** Nothing bad up to `later`, and nothing in the part of it that is gone by `rest`. */
  lemma NoneBadJoins(lines: seq<Read>, later: seq<Read>, rest: nat)
    requires lines != [] && !IsBad(lines[0]) && IsSuffix(later, lines[1..]) && rest <= |later|
    requires NoneBad(lines[1..], |lines| - 1 - |later|) && NoneBad(later, |later| - rest)
    ensures NoneBad(lines, |lines| - rest)
  {
    hide IsBad;
    var taken := |lines| - |later|;
    forall i | 0 < i < |lines| - rest ensures !IsBad(lines[i]) {
      if i < taken {
        assert lines[i] == lines[1..][i - 1];
      } else {
        assert lines[i] == later[i - taken];
      }
    }
  }

  /** Every line a block consumes is an item or a pair. */
  lemma {:induction false} ConsumedLinesRead(lines: seq<Read>, indent: nat, data: Option<Yaml>)
    requires ParseFrom(lines, indent, data).Ok?
    ensures NoneBad(lines, |lines| - |ParseFrom(lines, indent, data).value.1|)
    decreases |lines|
  {
    hide NoneBad, Extend, Fits;
    if lines != [] && lines[0].indent >= indent {
      var line, rest := lines[0].line, |ParseFrom(lines, indent, data).value.1|;
      if !HasBlock(line) {
        ConsumedLinesRead(lines[1..], indent, Some(Extend(data, line, Null)));
        assert NoneBad(lines[1..], 0) by { NoneBadYet(lines[1..]); }
        NoneBadJoins(lines, lines[1..], rest);
      } else {
        var inner := ParseFrom(lines[1..], lines[0].indent + 2, None).value;
        ConsumedLinesRead(lines[1..], lines[0].indent + 2, None);
        ParseStops(lines[1..], lines[0].indent + 2, None);
        ConsumedLinesRead(inner.1, indent, Some(Extend(data, line, inner.0)));
        NoneBadJoins(lines, inner.1, rest);
      }
    } else {
      NoneBadYet(lines);
    }
  }

  lemma NoneBadYet(lines: seq<Read>)
    ensures NoneBad(lines, 0)
  {
  }

  /** A text that parses holds no line that is neither an item nor a pair. */
  lemma ParsedTextReads(text: string)
    requires Parse(text).Ok?
    ensures forall line :: line in ContentLines(text) ==> !Decode(Strip(line)).Bad?
  {
    hide ContentLines, ParseFrom, Decode, Strip;
    var lines := ContentLines(text);
    ParseConsumesAll(ReadLines(lines));
    ConsumedLinesRead(ReadLines(lines), 0, None);
    forall line | line in lines ensures !Decode(Strip(line)).Bad? {
      var i :| 0 <= i < |lines| && lines[i] == line;
      assert !IsBad(ReadLines(lines)[i]);
    }
  }

  ghost predicate SomeItem(lines: seq<Read>) { exists i :: 0 <= i < |lines| && lines[i].line.IsItem() }

  ghost predicate SomePair(lines: seq<Read>) { exists i :: 0 <= i < |lines| && lines[i].line.Pair? }

  ghost predicate SomeBad(lines: seq<Read>, raw: string) {
    exists i :: 0 <= i < |lines| && IsBad(lines[i]) && lines[i].raw == raw
  }

  ghost predicate RefusedFor(e: ParseError, lines: seq<Read>, data: Option<Yaml>) {
    match e
    case InvalidLine(raw) => SomeBad(lines, raw)
    case MixedListAndMapping =>
      && (SomeItem(lines) || (data.Some? && data.value.List?)) && (SomePair(lines) || (data.Some? && data.value.Map?))
  }

  lemma RefusedLater(e: ParseError, lines: seq<Read>, later: seq<Read>, data: Option<Yaml>, next: Option<Yaml>)
    requires lines != [] && IsSuffix(later, lines[1..]) && RefusedFor(e, later, next)
    requires next.Some? && next.value.List? ==> SomeItem(lines) || data == next
    requires next.Some? && next.value.Map? ==> SomePair(lines)
    ensures RefusedFor(e, lines, data)
  {
    var from := |lines| - |later|;
    assert forall i :: 0 <= i < |later| ==> later[i] == lines[from + i];
  }

  /** What a refusal says: which line is neither, or that items and pairs both occur. */
  lemma {:induction false} RefusalMeans(lines: seq<Read>, indent: nat, data: Option<Yaml>)
    requires ParseFrom(lines, indent, data).Err? && (data.Some? ==> data.value.List? || data.value.Map?)
    ensures RefusedFor(ParseFrom(lines, indent, data).error, lines, data)
    decreases |lines|
  {
    hide RefusedFor;
    var line, e := lines[0].line, ParseFrom(lines, indent, data).error;
    if line.Bad? || !Fits(data, line) {
      RefusedHere(lines, data);
    } else {
      assert if line.IsItem() then SomeItem(lines) else SomePair(lines);
      if !HasBlock(line) {
        var next := Some(Extend(data, line, Null));
        RefusalMeans(lines[1..], indent, next);
        RefusedLater(e, lines, lines[1..], data, next);
      } else {
        var inner := ParseFrom(lines[1..], lines[0].indent + 2, None);
        if inner.Err? {
          RefusalMeans(lines[1..], lines[0].indent + 2, None);
          RefusedLater(e, lines, lines[1..], data, None);
        } else {
          var next := Some(Extend(data, line, inner.value.0));
          ParseStops(lines[1..], lines[0].indent + 2, None);
          RefusalMeans(inner.value.1, indent, next);
          RefusedLater(e, lines, inner.value.1, data, next);
        }
      }
    }
  }

  lemma RefusedHere(lines: seq<Read>, data: Option<Yaml>)
    requires lines != [] && (data.Some? ==> data.value.List? || data.value.Map?)
    requires lines[0].line.Bad? || !Fits(data, lines[0].line)
    ensures RefusedFor(if lines[0].line.Bad? then InvalidLine(lines[0].raw) else MixedListAndMapping, lines, data)
  {
  }

  /** A text is refused only for a line that is neither, which is named, or because it has both items and pairs. */
  lemma RefusedTextMeans(text: string)
    requires Parse(text).Err?
    ensures
      var lines := ContentLines(text);
      match Parse(text).error
      case InvalidLine(line) => line in lines && Decode(Strip(line)).Bad?
      case MixedListAndMapping =>
        && (exists line :: line in lines && Decode(Strip(line)).IsItem())
        && (exists line :: line in lines && Decode(Strip(line)).Pair?)
  {
    hide ContentLines, ParseFrom, Decode, Strip;
    var lines := ContentLines(text);
    var found := ReadLines(lines);
    RefusalMeans(found, 0, None);
    match Parse(text).error
    case InvalidLine(raw) =>
      var i :| 0 <= i < |found| && IsBad(found[i]) && found[i].raw == raw;
      assert lines[i] == raw;
    case MixedListAndMapping =>
      var i :| 0 <= i < |found| && found[i].line.IsItem();
      var j :| 0 <= j < |found| && found[j].line.Pair?;
      assert lines[i] in lines && lines[j] in lines;
  }

  // ---- Lists that do not read back -------------------------------------------------------------

  /** Somewhere in the value a list has an item that is itself a list or a mapping. */
  predicate NestsItems(d: Yaml)
    decreases d, 1
  {
    match d
    case Map(es) => SomeNests(es)
    case List(items) => exists i :: 0 <= i < |items| && !IsScalar(items[i])
    case _ => false
  }

  predicate SomeNests(es: seq<Entry>)
    decreases es, 0
  {
    es != [] && (NestsItems(es[0].value) || SomeNests(es[1..]))
  }

  /** A lone dash, which the printer writes for such an item, is neither an item nor a pair. */
  lemma LoneDash(n: nat)
    ensures ContentLines(Spaces(n) + "-") == [Spaces(n) + "-"] && Decode(Strip(Spaces(n) + "-")).Bad?
  {
    hide Strip, Decode;
    var line := Spaces(n) + "-";
    StripLine(n, "-", "");
    assert line == line + "" && "-" + RStrip("") == "-";
    LineReads("-");
    assert ':' !in "-";
    SpacesNoBreak(n, "-");
    ContentOfLine(line);
  }

  ghost predicate HasLoneDash(lines: seq<string>) {
    exists n: nat :: Spaces(n) + "-" in lines
  }

  lemma {:induction false} NestedItemDash(items: seq<Yaml>, n: nat, i: nat)
    requires i < |items| && !IsScalar(items[i])
    ensures HasLoneDash(ContentLines(Join(DumpItems(items, n), '\n')))
    decreases |items|
  {
    hide ContentLines, Dump, Strip, Decode;
    var more := DumpItems(items[1..], n);
    if !IsScalar(items[0]) {
      LoneDash(n);
      ContentOfJoin(Spaces(n) + "-", [Dump(items[0], n + 2)] + more);
      assert DumpItems(items, n) == [Spaces(n) + "-"] + ([Dump(items[0], n + 2)] + more);
    } else {
      NestedItemDash(items[1..], n, i - 1);
      ContentOfJoin(Spaces(n) + "- " + FormatScalar(items[0]), more);
    }
  }

  lemma {:induction false} NestedEntryDash(es: seq<Entry>, n: nat)
    requires SomeNests(es)
    ensures HasLoneDash(ContentLines(Join(DumpEntries(es, n), '\n')))
    decreases es, 0
  {
    hide ContentLines, Dump, NestsItems;
    var e, more := es[0], DumpEntries(es[1..], n);
    if SomeNests(es[1..]) {
      NestedEntryDash(es[1..], n);
    }
    if IsScalar(e.value) {
      NoScalarNests(e.value);
      ContentOfJoin(Spaces(n) + e.key + ": " + FormatScalar(e.value), more);
    } else {
      var nested := Dump(e.value, n + 2);
      if NestsItems(e.value) {
        NestingDash(e.value, n + 2);
      }
      ContentOfJoin(nested, more);
      ContentOfJoin(Spaces(n) + e.key + ":", [nested] + more);
      assert DumpEntries(es, n) == [Spaces(n) + e.key + ":"] + ([nested] + more);
    }
  }

  lemma NoScalarNests(v: Yaml)
    requires IsScalar(v)
    ensures !NestsItems(v)
  {
  }

  lemma {:induction false} NestingDash(d: Yaml, n: nat)
    requires NestsItems(d)
    ensures HasLoneDash(ContentLines(Dump(d, n)))
    decreases d, 1
  {
    match d
    case Map(es) => NestedEntryDash(es, n);
    case List(items) =>
      var i :| 0 <= i < |items| && !IsScalar(items[i]);
      NestedItemDash(items, n, i);
  }

  /** What is printed for a value that nests items in items is refused, whatever else the value holds. */
  lemma NestedItemsRefused(d: Yaml, n: nat)
    requires NestsItems(d)
    ensures Parse(Dump(d, n)).Err?
  {
    hide Dump, ContentLines, Strip, Decode;
    NestingDash(d, n);
    var k: nat :| Spaces(k) + "-" in ContentLines(Dump(d, n));
    LoneDash(k);
    if Parse(Dump(d, n)).Ok? {
      ParsedTextReads(Dump(d, n));
    }
  }
}
