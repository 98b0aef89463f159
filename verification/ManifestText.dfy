/** `dump_yaml` and `parse_block` as the loops they are, proved against the functions of module Yaml. */
module ManifestText {
  import opened Text
  import opened Yaml
  import opened YamlRoundTrip

  function EntryLines(e: Entry, indent: nat): seq<string> {
    if IsScalar(e.value) then [Spaces(indent) + e.key + ": " + FormatScalar(e.value)]
    else [Spaces(indent) + e.key + ":", Dump(e.value, indent + 2)]
  }

  function ItemLines(v: Yaml, indent: nat): seq<string> {
    if IsScalar(v) then [Spaces(indent) + "- " + FormatScalar(v)] else [Spaces(indent) + "-", Dump(v, indent + 2)]
  }

  lemma EntryTurn(lines: seq<string>, es: seq<Entry>, i: nat, indent: nat)
    requires i < |es| && lines + DumpEntries(es[i..], indent) == DumpEntries(es, indent)
    ensures lines + EntryLines(es[i], indent) + DumpEntries(es[i + 1..], indent) == DumpEntries(es, indent)
  {
    hide Dump, FormatScalar, Spaces;
    assert es[i..][0] == es[i] && es[i..][1..] == es[i + 1..];
    assert DumpEntries(es[i..], indent) == EntryLines(es[i], indent) + DumpEntries(es[i + 1..], indent);
  }

  lemma ItemTurn(lines: seq<string>, items: seq<Yaml>, i: nat, indent: nat)
    requires i < |items| && lines + DumpItems(items[i..], indent) == DumpItems(items, indent)
    ensures lines + ItemLines(items[i], indent) + DumpItems(items[i + 1..], indent) == DumpItems(items, indent)
  {
    hide Dump, FormatScalar, Spaces;
    assert items[i..][0] == items[i] && items[i..][1..] == items[i + 1..];
    assert DumpItems(items[i..], indent) == ItemLines(items[i], indent) + DumpItems(items[i + 1..], indent);
  }

  lemma DumpIsJoin(d: Yaml, indent: nat)
    ensures d.Map? ==> Dump(d, indent) == Join(DumpEntries(d.entries, indent), '\n')
    ensures d.List? ==> Dump(d, indent) == Join(DumpItems(d.items, indent), '\n')
    ensures IsScalar(d) ==> Dump(d, indent) == Join([Spaces(indent) + FormatScalar(d)], '\n')
    ensures DumpEntries([], indent) == [] && DumpItems([], indent) == []
  {
    hide FormatScalar, Spaces, DumpEntries, DumpItems;
    EmptyDumps(indent);
  }

  lemma EmptyDumps(indent: nat)
    ensures DumpEntries([], indent) == [] && DumpItems([], indent) == []
  {
  }

  /** Appends the lines of one level to a list and joins them. */
  method DumpYaml(d: Yaml, indent: nat) returns (text: string)
    ensures text == Dump(d, indent)
    ensures InFragment(d) && d.Map? && indent == 0 ==> Parse(text) == Ok(d)
    decreases d
  {
    hide FormatScalar, Parse, InFragment, Join, Spaces, Dump, DumpEntries, DumpItems;
    DumpIsJoin(d, indent);
    var lines: seq<string> := [];
    match d {
    case Map(es) =>
      assert es[0..] == es;
      for i := 0 to |es|
        invariant lines + DumpEntries(es[i..], indent) == DumpEntries(es, indent)
      {
        EntryTurn(lines, es, i, indent);
        var e := es[i];
        if IsScalar(e.value) {
          lines := lines + [Spaces(indent) + e.key + ": " + FormatScalar(e.value)];
        } else {
          var nested := DumpYaml(e.value, indent + 2);
          lines := lines + [Spaces(indent) + e.key + ":", nested];
        }
      }
      assert es[|es|..] == [] && lines + [] == lines == DumpEntries(d.entries, indent);
    case List(items) =>
      assert items[0..] == items;
      for i := 0 to |items|
        invariant lines + DumpItems(items[i..], indent) == DumpItems(items, indent)
      {
        ItemTurn(lines, items, i, indent);
        var v := items[i];
        if IsScalar(v) {
          lines := lines + [Spaces(indent) + "- " + FormatScalar(v)];
        } else {
          var nested := DumpYaml(v, indent + 2);
          lines := lines + [Spaces(indent) + "-", nested];
        }
      }
      assert items[|items|..] == [] && lines + [] == lines == DumpItems(d.items, indent);
    case _ =>
      lines := lines + [Spaces(indent) + FormatScalar(d)];
      assert lines == [Spaces(indent) + FormatScalar(d)];
    }
    text := Join(lines, '\n');
    if InFragment(d) && d.Map? && indent == 0 {
      RoundTrip(d);
    }
  }

  /** What `parse_block` returns from position `index`, by position instead of by the lines left. */
  function Block(lines: seq<Read>, index: nat, indent: nat, data: Option<Yaml>): (b: Result<(Yaml, nat), ParseError>)
    requires index <= |lines|
    ensures b.Ok? ==> index <= b.value.1 <= |lines|
  {
    var r := ParseFrom(lines[index..], indent, data);
    if r.Ok? then Ok((r.value.0, |lines| - |r.value.1|)) else Err(r.error)
  }

  lemma BlockEnds(lines: seq<Read>, index: nat, indent: nat, data: Option<Yaml>)
    requires index <= |lines|
    ensures
      var r := Block(lines, index, indent, data);
      r.Ok? ==> index <= r.value.1 <= |lines| && lines[r.value.1..] == ParseFrom(lines[index..], indent, data).value.1
  {
    hide ParseFrom;
    ParseStops(lines[index..], indent, data);
  }

  lemma BlockStopsHere(lines: seq<Read>, index: nat, indent: nat, data: Option<Yaml>)
    requires index <= |lines| && (index == |lines| || lines[index].indent < indent)
    ensures Block(lines, index, indent, data) == Ok((OrEmpty(data), index))
  {
    var rest := lines[index..];
    assert rest != [] ==> rest[0] == lines[index];
    assert ParseFrom(rest, indent, data) == Ok((OrEmpty(data), rest));
  }

  /** One turn of the loop at position `index`. */
  lemma LoopTurn(lines: seq<Read>, index: nat, indent: nat, data: Option<Yaml>)
    requires index < |lines| && lines[index].indent >= indent
    ensures
      var line, inner := lines[index].line, Block(lines, index + 1, lines[index].indent + 2, None);
      Block(lines, index, indent, data) ==
        if line.Bad? then Err(InvalidLine(lines[index].raw))
        else if !Fits(data, line) then Err(MixedListAndMapping)
        else if !HasBlock(line) then Block(lines, index + 1, indent, Some(Extend(data, line, Null)))
        else if inner.Err? then Err(inner.error)
        else Block(lines, inner.value.1, indent, Some(Extend(data, line, inner.value.0)))
  {
    assert lines[index..][0] == lines[index] && lines[index..][1..] == lines[index + 1..];
    BlockEnds(lines, index + 1, lines[index].indent + 2, None);
  }

  /** The block at `start`, and the position after it. */
  method ParseBlock(lines: seq<Read>, start: nat, indent: nat) returns (r: Result<(Yaml, nat), ParseError>)
    requires start <= |lines|
    ensures r == Block(lines, start, indent, None)
    ensures r.Ok? ==> start <= r.value.1 <= |lines|
    ensures r.Ok? && indent == 0 ==> r.value.1 == |lines|
    decreases |lines| - start
  {
    var index, data := start, None;
    while index < |lines| && lines[index].indent >= indent
      invariant start <= index <= |lines|
      invariant Block(lines, start, indent, None) == Block(lines, index, indent, data)
      decreases |lines| - index
    {
      var line, here := lines[index].line, lines[index].indent;
      LoopTurn(lines, index, indent, data);
      if line.Bad? {
        return Err(InvalidLine(lines[index].raw));
      }
      if !Fits(data, line) {
        return Err(MixedListAndMapping);
      }
      if !HasBlock(line) {
        index, data := index + 1, Some(Extend(data, line, Null));
      } else {
        var inner := ParseBlock(lines, index + 1, here + 2);
        if inner.Err? {
          return Err(inner.error);
        }
        index, data := inner.value.1, Some(Extend(data, line, inner.value.0));
      }
    }
    BlockStopsHere(lines, index, indent, data);
    return Ok((OrEmpty(data), index));
  }

  /** `simple_parse_yaml`. */
  method SimpleParseYaml(text: string) returns (r: Result<Yaml, ParseError>)
    ensures r == Parse(text)
  {
    var lines := ReadLines(ContentLines(text));
    assert lines[0..] == lines;
    var whole := ParseBlock(lines, 0, 0);
    match whole
    case Ok((d, _)) => return Ok(d);
    case Err(e) => return Err(e);
  }
}
