/** The YAML dialect beyond what the printer writes: comments, quotes, signs and separators, repeated keys, items. */
module YamlText {
  import opened Text
  import opened Yaml
  import opened YamlRoundTrip
  import opened YamlScalars

  // ---- Lines that do not count -----------------------------------------------------------------

  /** Blank lines and comment lines may stand anywhere, at any indentation. */
  lemma IgnoredLine(before: string, line: string, after: string)
    requires NoBreak(line) && (Strip(line) == "" || "#" <= Strip(line))
    ensures Parse(before + "\n" + line + "\n" + after) == Parse(before + "\n" + after)
  {
    hide ReadLines, ParseFrom, Strip, ContentLines;
    NotContent(line);
    ContentAppend(before, line + "\n" + after);
    ContentAppend(line, after);
    ContentAppend(before, after);
    assert before + "\n" + line + "\n" + after == before + "\n" + (line + "\n" + after);
    assert ContentLines(before) + ([] + ContentLines(after)) == ContentLines(before) + ContentLines(after);
  }

  lemma NotContent(line: string)
    requires NoBreak(line) && (Strip(line) == "" || "#" <= Strip(line))
    ensures ContentLines(line) == []
  {
    hide Strip;
    SplitNoBreak(line);
    assert [line][1..] == [];
    assert KeepContent([line]) == [] + KeepContent([]);
  }

  // ---- Comments after a value ------------------------------------------------------------------

  /** Nothing found at the first `n` places is nothing found at the first `n - 1` places of the tail. */
  lemma NowhereInTail(s: string, sub: string, n: nat)
    requires 0 < n <= |s| && forall i :: 0 <= i < n ==> !(sub <= s[i..])
    ensures !(sub <= s) && s[1..][n - 1..] == s[n..]
    ensures forall i :: 0 <= i < n - 1 ==> !(sub <= s[1..][i..])
  {
    assert s[0..] == s;
    forall i | 0 <= i < n - 1 ensures !(sub <= s[1..][i..]) {
      assert s[1..][i..] == s[i + 1..];
    }
  }

  lemma {:induction false} FindFirst(s: string, sub: string, n: nat)
    requires n <= |s| && sub <= s[n..] && forall i :: 0 <= i < n ==> !(sub <= s[i..])
    ensures Find(s, sub) == Some(n)
    decreases n
  {
    if n == 0 {
      assert s[0..] == s;
    } else {
      NowhereInTail(s, sub, n);
      FindFirst(s[1..], sub, n - 1);
    }
  }

  /** `sub` does not start before a place that holds no hash sign where `sub` needs one. */
  lemma NotBefore(s: string, i: nat, k: nat, sub: string)
    requires k < |sub| && sub[k] == '#' && i + k < |s| && s[i + k] != '#'
    ensures !(sub <= s[i..])
  {
    assert s[i..][k] == s[i + k];
  }

  lemma RStripPadding(v: string, pad: nat)
    requires v != "" && Trimmed(v)
    ensures RStrip(v + Spaces(pad)) == v
  {
    RStripAppend(v, Spaces(pad));
    SpacesVanish(pad);
  }

  lemma {:induction false} SpacesVanish(pad: nat)
    ensures RStrip(Spaces(pad)) == ""
    decreases pad
  {
    if pad > 0 {
      assert Spaces(pad)[..pad - 1] == Spaces(pad - 1);
      SpacesVanish(pad - 1);
    }
  }

  /** Where nothing is found up front, what is found behind counts. */
  lemma {:induction false} FindBehind(s: string, sub: string, n: nat)
    requires n <= |s| && sub != "" && forall i :: 0 <= i < n ==> !(sub <= s[i..])
    ensures
      var behind := Find(s[n..], sub);
      Find(s, sub) == if behind.Some? then Some(n + behind.value) else None
    decreases n
  {
    if n == 0 {
      assert s[0..] == s;
    } else {
      NowhereInTail(s, sub, n);
      FindBehind(s[1..], sub, n - 1);
    }
  }

  /** A hash sign at `k` in `s` is one at `k` or just before it in what is left of `s` without its sign. */
  lemma HashStays(s: string, k: nat)
    requires k < |s| && s[k] == '#'
    ensures '#' in Unsigned(s)
  {
    if s[0] in "+-" {
      assert s[1..][k - 1] == '#';
    }
  }

  lemma HashIsNoMantissa(s: string, k: nat)
    requires k < |s| && s[k] == '#'
    ensures !IsDigitPart(s) && !IsMantissa(s)
  {
    var dot := IndexOf(s, '.');
    if dot < |s| {
      if k < dot {
        assert s[..dot][k] == '#';
      } else {
        assert s[dot + 1..][k - dot - 1] == '#';
      }
    }
  }

  lemma HashIsNoName(s: string, k: nat)
    requires k < |s| && s[k] == '#'
    ensures !IsNamedFloat(s)
  {
    var low := Lower(s);
    assert low[k] == '#';
    assert '#' !in "inf" && '#' !in "infinity" && '#' !in "nan";
  }

  /** Text with a hash sign in it is no number. */
  lemma HashIsNoNumber(s: string)
    requires Trimmed(s) && '#' in s
    ensures ParseInt(s).None? && !IsFloat(s)
  {
    hide IsMantissa, IsDigitPart, IsNamedFloat, Strip, Value, DropUnderscores;
    StripTrimmed(s);
    var at :| 0 <= at < |s| && s[at] == '#';
    HashStays(s, at);
    var body := Unsigned(s);
    var k :| 0 <= k < |body| && body[k] == '#';
    HashIsNoName(body, k);
    HashIsNoMantissa(body, k);
    var e := IndexOf(Lower(body), 'e');
    assert Lower(body)[k] == '#';
    if e < |body| {
      if k < e {
        assert body[..e][k] == '#';
        HashIsNoMantissa(body[..e], k);
      } else {
        var exponent := body[e + 1..];
        assert exponent[k - e - 1] == '#';
        HashStays(exponent, k - e - 1);
        var m :| 0 <= m < |Unsigned(exponent)| && Unsigned(exponent)[m] == '#';
        HashIsNoMantissa(Unsigned(exponent), m);
      }
    }
  }

  /** A plain value: unquoted, trimmed and without a hash sign. */
  predicate IsPlainText(v: string) {
    v != "" && Trimmed(v) && '#' !in v && v[0] != '"' && v[0] != '\''
  }

  lemma DoubleSpace(v: string, pad: nat, note: string)
    requires IsPlainText(v) && pad >= 2
    ensures DropComment(v + Spaces(pad) + "#" + note) == v
  {
    hide RStrip;
    var s, head := v + Spaces(pad) + "#" + note, |v| + pad;
    assert s[0] == v[0] && s[head] == '#' && forall i :: 0 <= i < head ==> s[i] != '#';
    forall i | 0 <= i < head - 2 ensures !("  #" <= s[i..]) {
      NotBefore(s, i, 2, "  #");
    }
    assert "  #" <= s[head - 2..] by {
      assert s[head - 2..][..3] == "  #";
    }
    FindFirst(s, "  #", head - 2);
    assert s[..head - 2] == v + Spaces(pad - 2);
    RStripPadding(v, pad - 2);
  }

  /** Behind a single space the sign of the comment itself is not behind two. */
  lemma NoDoubleSpace(v: string, note: string)
    requires IsPlainText(v)
    ensures forall i :: 0 <= i < |v| + 2 ==> !("  #" <= (v + " #" + note)[i..])
  {
    var s := v + " #" + note;
    forall i | 0 <= i < |v| + 2 ensures !("  #" <= s[i..]) {
      if i + 2 <= |v| {
        NotBefore(s, i, 2, "  #");
      } else if i < |s| - 2 {
        assert s[i..][0] == s[i] && s[i..][1] == s[i + 1];
        assert i == |v| - 1 ==> s[i] == v[|v| - 1];
      }
    }
  }

  lemma SingleSpace(v: string, note: string)
    requires IsPlainText(v)
    ensures
      var inner := Find(note, "  #");
      DropComment(v + " #" + note) == if inner.None? then v else RStrip(v + " #" + note[..inner.value])
  {
    hide RStrip, Find;
    var s, head, inner := v + " #" + note, |v| + 2, Find(note, "  #");
    assert s[0] == v[0] && s[head..] == note;
    NoDoubleSpace(v, note);
    FindBehind(s, "  #", head);
    if inner.Some? {
      assert s[..head + inner.value] == v + " #" + note[..inner.value];
    } else {
      forall i | 0 <= i < |v| ensures !(" #" <= s[i..]) {
        NotBefore(s, i, 1, " #");
      }
      assert " #" <= s[|v|..] by {
        assert s[|v|..][..2] == " #";
      }
      FindFirst(s, " #", |v|);
      assert s[..|v|] == v == v + Spaces(0);
      RStripPadding(v, 0);
    }
  }

  lemma SameValue(a: string, b: string)
    requires DropComment(a) == DropComment(b)
    ensures ParseScalar(a) == ParseScalar(b)
  {
  }

  /** What a comment sign leaves of an unquoted text when it is not recognised: text. */
  lemma HashIsText(s: string, q: string)
    requires DropComment(s) == q && q != "" && q[0] != '"' && q[0] != '\'' && Trimmed(q) && '#' in q
    ensures ParseScalar(s) == Str(q)
  {
    hide ParseInt, IsFloat;
    HashIsNoNumber(q);
    assert '#' !in "true" && '#' !in "false" && '#' !in "null" && '#' !in "~";
  }

  lemma RStripKeepsHash(v: string, text: string)
    requires IsPlainText(v)
    ensures
      var q := RStrip(v + " #" + text);
      q != "" && q[0] == v[0] && Trimmed(q) && '#' in q
  {
    var front := v + " #";
    assert front[|front| - 1] == '#';
    RStripAppend(front, text);
    RStripEnd(front + text);
    var q := RStrip(front + text);
    assert q == front + RStrip(text);
    assert q[0] == v[0] && q[|v| + 1] == '#';
  }

  /**
   * A comment behind an unquoted value is dropped when at least two spaces come before it. Behind a single space it
   * is dropped exactly when it holds no hash sign behind two spaces itself: such a sign is found first, and all the
   * text before it, the first hash sign included, becomes the value.
   */
  lemma TrailingComment(v: string, pad: nat, note: string)
    requires IsPlainText(v) && pad >= 1
    ensures
      var inner := Find(note, "  #");
      ParseScalar(v + Spaces(pad) + "#" + note) ==
        if pad >= 2 || inner.None? then ParseScalar(v) else Str(RStrip(v + " #" + note[..inner.value]))
  {
    hide ParseScalar, RStrip, Find, DropComment;
    var s := v + Spaces(pad) + "#" + note;
    NoComment(v);
    if pad >= 2 {
      DoubleSpace(v, pad, note);
      SameValue(s, v);
    } else {
      var inner := Find(note, "  #");
      SingleSpace(v, note);
      assert Spaces(1) == " ";
      assert s == v + " #" + note;
      if inner.Some? {
        var q := RStrip(v + " #" + note[..inner.value]);
        RStripKeepsHash(v, note[..inner.value]);
        HashIsText(s, q);
      } else {
        SameValue(s, v);
      }
    }
  }

  // ---- Quotes and integers ---------------------------------------------------------------------

  /** Text in quotes of either kind is its body, with nothing unescaped and no comment in it. */
  lemma QuotedText(body: string, q: char)
    requires q == '"' || q == '\''
    ensures ParseScalar([q] + body + [q]) == Str(body)
  {
    ParseQuoted(body, q);
  }

  function Concat(groups: seq<string>): string {
    if groups == [] then "" else groups[0] + Concat(groups[1..])
  }

  /** Groups of decimal digits, none of them empty. */
  predicate AreGroups(groups: seq<string>) {
    groups != [] && forall i :: 0 <= i < |groups| ==> groups[i] != "" && AllDecimal(groups[i])
  }

  lemma {:induction false} ConcatDecimal(groups: seq<string>)
    requires forall i :: 0 <= i < |groups| ==> AllDecimal(groups[i])
    ensures AllDecimal(Concat(groups))
    decreases |groups|
  {
    if groups != [] {
      ConcatDecimal(groups[1..]);
    }
  }

  /** Digits with single underscores between them are groups of digits. */
  lemma {:induction false} PartGroups(s: string)
    requires IsDigitPart(s)
    ensures AreGroups(Split(s, '_'))
    decreases |s|
  {
    hide IsDecimal;
    assert !IsDecimal('_') by { AsciiDecimals('_'); }
    if |s| > 1 && s[1] == '_' {
      assert |s| > 2 && s[2] != '_';
      PartGroups(s[2..]);
      assert s[1..][1..] == s[2..];
      assert Split(s[1..], '_') == [""] + Split(s[2..], '_');
      assert s[0] != '_' && [s[0]] + "" == [s[0]];
      assert Split(s, '_') == [[s[0]] + ""] + Split(s[2..], '_');
    } else if |s| > 1 {
      PartGroups(s[1..]);
    } else {
      assert s[1..] == "" && s == [s[0]] + "";
    }
  }

  lemma {:induction false} DropNoUnderscore(s: string, rest: string)
    requires AllDecimal(s) && forall i :: 0 <= i < |rest| ==> IsDecimal(rest[i]) || rest[i] == '_'
    ensures DropUnderscores(s + rest) == s + DropUnderscores(rest)
    decreases |s|
  {
    hide IsDecimal;
    assert !IsDecimal('_') by { AsciiDecimals('_'); }
    if s == "" {
      assert s + rest == rest;
    } else {
      assert (s + rest)[1..] == s[1..] + rest;
      DropNoUnderscore(s[1..], rest);
    }
  }

  lemma {:induction false} GroupsPart(groups: seq<string>)
    requires AreGroups(groups)
    ensures IsDigitPart(Join(groups, '_')) && DropUnderscores(Join(groups, '_')) == Concat(groups)
    decreases |groups|
  {
    hide IsDecimal;
    assert !IsDecimal('_') by { AsciiDecimals('_'); }
    if |groups| == 1 {
      assert groups[1..] == [] && Concat(groups) == groups[0] + "";
      DropNoUnderscore(groups[0], "");
      assert groups[0] + "" == groups[0];
    } else {
      var rest := Join(groups[1..], '_');
      GroupsPart(groups[1..]);
      assert ("_" + rest)[1..] == rest;
      DropNoUnderscore(groups[0], "_" + rest);
      assert Join(groups, '_') == groups[0] + ("_" + rest);
    }
  }

  /** An optional sign. */
  predicate IsSign(sign: string) { sign == "" || sign == "+" || sign == "-" }

  /**
   * Text reads as an integer exactly when it is, between white space, an optional sign and groups of decimal digits
   * with one underscore between two of them; its value is that of all the digits.
   */
  lemma IntegerIff(text: string)
    ensures ParseInt(text).Some? <==>
      exists sign, groups :: IsSign(sign) && AreGroups(groups) && Strip(text) == sign + Join(groups, '_')
    ensures forall sign, groups ::
      IsSign(sign) && AreGroups(groups) && Strip(text) == sign + Join(groups, '_') ==>
        ParseInt(text) == Some(SignedValue(sign, groups))
  {
    hide Strip, Value, AreGroups, Concat, IsDigitPart, DropUnderscores, IsSign;
    var s := Strip(text);
    forall sign, groups | IsSign(sign) && AreGroups(groups) && s == sign + Join(groups, '_')
      ensures ParseInt(text) == Some(SignedValue(sign, groups))
    {
      SignedReads(text, sign, groups);
    }
    if ParseInt(text).Some? {
      var body := Unsigned(s);
      var sign := s[..|s| - |body|];
      assert IsSign(sign) && s == sign + body by { SplitsSign(s); }
      PartGroups(body);
      JoinSplit(body, '_');
    }
  }

  function SignedValue(sign: string, groups: seq<string>): int
    requires AreGroups(groups)
  {
    ConcatDecimal(groups);
    var n: int := Value(Concat(groups));
    if sign == "-" then -n else n
  }

  lemma SplitsSign(s: string)
    ensures |Unsigned(s)| <= |s| && IsSign(s[..|s| - |Unsigned(s)|]) && s == s[..|s| - |Unsigned(s)|] + Unsigned(s)
  {
    if s != "" && s[0] in "+-" {
      assert s[..1] == [s[0]] && s == s[..1] + s[1..];
    } else {
      assert s[..0] == "" && s == "" + s;
    }
  }

  lemma SignedReads(text: string, sign: string, groups: seq<string>)
    requires IsSign(sign) && AreGroups(groups) && Strip(text) == sign + Join(groups, '_')
    ensures ParseInt(text) == Some(SignedValue(sign, groups))
  {
    hide Strip, Value, AreGroups, Concat, DropUnderscores;
    GroupsPart(groups);
    var s, body := Strip(text), Join(groups, '_');
    assert !IsDecimal('+') && !IsDecimal('-') by {
      AsciiDecimals('+');
      AsciiDecimals('-');
    }
    if sign == "" {
      assert s == body && s[0] == body[0];
    } else {
      assert s[0] == sign[0] && s[1..] == body;
    }
    assert Unsigned(s) == body;
  }

  // ---- Floats ----------------------------------------------------------------------------------

  predicate Grouped(s: string) { AreGroups(Split(s, '_')) }

  lemma GroupedIff(s: string)
    ensures IsDigitPart(s) <==> Grouped(s)
    ensures IsDigitPart(s) ==> forall c :: c in s ==> IsDecimal(c) || c == '_'
  {
    hide AreGroups;
    if IsDigitPart(s) {
      PartGroups(s);
    }
    if Grouped(s) {
      GroupsPart(Split(s, '_'));
      JoinSplit(s, '_');
    }
  }

  /** Digits, or digits around a point with one side at least. */
  ghost predicate Pointed(s: string) {
    Grouped(s) || exists a, b :: Around(s, a, b)
  }

  predicate Around(s: string, a: string, b: string) {
    s == a + "." + b && (a != "" || b != "") && (a != "" ==> Grouped(a)) && (b != "" ==> Grouped(b))
  }

  lemma IndexIs(a: string, c: char, b: string)
    requires c !in a
    ensures IndexOf(a + [c] + b, c) == |a|
  {
    var s := a + [c] + b;
    var n := IndexOf(s, c);
    assert s[|a|] == c;
    assert n >= |a| by {
      assert forall i :: 0 <= i < |a| ==> s[i] == a[i];
    }
    assert n <= |a| by {
      assert forall i :: 0 <= i < n ==> s[..n][i] == s[i];
    }
  }

  lemma PointedIff(s: string)
    ensures IsMantissa(s) <==> Pointed(s)
  {
    hide IsDigitPart, Grouped, Around, IsDecimal, IndexOf;
    assert !IsDecimal('.') by { AsciiDecimals('.'); }
    GroupedIff(s);
    var dot := IndexOf(s, '.');
    if IsMantissa(s) && dot < |s| {
      AroundPoint(s, dot);
    }
    if !Grouped(s) && Pointed(s) {
      var a, b :| Around(s, a, b);
      PointAround(s, a, b);
    }
  }

  lemma AroundPoint(s: string, dot: nat)
    requires dot < |s| && s[dot] == '.' && IsMantissa(s) && dot == IndexOf(s, '.')
    ensures Around(s, s[..dot], s[dot + 1..])
  {
    hide IsDigitPart, Grouped, IndexOf;
    GroupedIff(s[..dot]);
    GroupedIff(s[dot + 1..]);
    assert s == s[..dot] + "." + s[dot + 1..];
  }

  lemma PointAround(s: string, a: string, b: string)
    requires Around(s, a, b)
    ensures IsMantissa(s)
  {
    hide IsDigitPart, Grouped, IndexOf, IsDecimal;
    assert !IsDecimal('.') by { AsciiDecimals('.'); }
    GroupedIff(a);
    GroupedIff(b);
    assert '.' !in a;
    assert "." == ['.'];
    IndexIs(a, '.', b);
    assert s[..|a|] == a && s[|a| + 1..] == b;
  }

  /** A number without its sign: a name, digits, or digits with an exponent. */
  ghost predicate FloatBody(body: string) {
    || Lower(body) == "inf" || Lower(body) == "infinity" || Lower(body) == "nan" || Pointed(body)
    || exists m, e, sign, digits :: HasExponent(body, m, e, sign, digits)
  }

  ghost predicate HasExponent(body: string, m: string, e: char, sign: string, digits: string) {
    && (e == 'e' || e == 'E') && body == m + [e] + (sign + digits)
    && Pointed(m) && IsSign(sign) && Grouped(digits)
  }

  lemma PointedHasNoE(s: string)
    requires Pointed(s)
    ensures 'e' !in s && 'E' !in s && s != ""
  {
    hide Grouped, IsDigitPart;
    assert !IsDecimal('e') && !IsDecimal('E') by {
      AsciiDecimals('e');
      AsciiDecimals('E');
    }
    if Grouped(s) {
      GroupedIff(s);
      assert s != "" by { GroupedNotEmpty(s); }
    } else {
      var a, b :| Around(s, a, b);
      GroupedIff(a);
      GroupedIff(b);
    }
  }

  lemma GroupedNotEmpty(s: string)
    requires Grouped(s)
    ensures s != "" && !(s[0] in "+-")
  {
    GroupedIff(s);
    AsciiDecimals('+');
    AsciiDecimals('-');
  }

  /** Where the exponent starts. */
  lemma ExponentAt(m: string, e: char, rest: string)
    requires 'e' !in m && 'E' !in m && (e == 'e' || e == 'E')
    ensures IndexOf(Lower(m + [e] + rest), 'e') == |m|
  {
    assert Lower(m + [e] + rest) == Lower(m) + ['e'] + Lower(rest);
    IndexIs(Lower(m), 'e', Lower(rest));
  }

  lemma UnsignedSign(sign: string, digits: string)
    requires IsSign(sign) && Grouped(digits)
    ensures Unsigned(sign + digits) == digits
  {
    GroupedNotEmpty(digits);
    if sign == "" {
      assert sign + digits == digits;
    } else {
      assert (sign + digits)[1..] == digits;
    }
  }

  /** Which texts read as a float: between white space an optional sign and such a body. */
  lemma FloatIff(text: string)
    ensures IsFloat(text) <==> FloatBody(Unsigned(Strip(text)))
  {
    hide Strip, Lower, Pointed, IsMantissa, IsDigitPart, Unsigned, HasExponent, IndexOf;
    var body := Unsigned(Strip(text));
    var e := IndexOf(Lower(body), 'e');
    PointedIff(body);
    if m, c, sign, digits :| HasExponent(body, m, c, sign, digits) {
      ExponentReads(body, m, c, sign, digits);
    }
    if e < |body| {
      NoPointWithE(body, e);
      if IsMantissa(body[..e]) && IsDigitPart(Unsigned(body[e + 1..])) {
        ExponentFound(body, e);
      }
    }
  }

  lemma ExponentReads(body: string, m: string, c: char, sign: string, digits: string)
    requires HasExponent(body, m, c, sign, digits)
    ensures
      var e := IndexOf(Lower(body), 'e');
      e < |body| && IsMantissa(body[..e]) && IsDigitPart(Unsigned(body[e + 1..]))
  {
    hide Lower, Pointed, Grouped, IsMantissa, IsDigitPart, Unsigned, IndexOf, IsSign;
    PointedHasNoE(m);
    PointedIff(m);
    ExponentAt(m, c, sign + digits);
    assert body[..|m|] == m && body[|m| + 1..] == sign + digits;
    UnsignedSign(sign, digits);
    GroupedIff(digits);
  }

  lemma ExponentFound(body: string, e: nat)
    requires e < |body| && (body[e] == 'e' || body[e] == 'E')
    requires IsMantissa(body[..e]) && IsDigitPart(Unsigned(body[e + 1..]))
    ensures exists m, c, sign, digits :: HasExponent(body, m, c, sign, digits)
  {
    hide Pointed, Grouped, IsMantissa, IsDigitPart, Unsigned, IsSign;
    var rest := body[e + 1..];
    SplitsSign(rest);
    var sign := rest[..|rest| - |Unsigned(rest)|];
    PointedIff(body[..e]);
    GroupedIff(Unsigned(rest));
    assert body == body[..e] + [body[e]] + (sign + Unsigned(rest));
    assert HasExponent(body, body[..e], body[e], sign, Unsigned(rest));
  }

  lemma NoPointWithE(body: string, e: nat)
    requires e < |body| && IndexOf(Lower(body), 'e') == e
    ensures (body[e] == 'e' || body[e] == 'E') && !Pointed(body)
  {
    assert Lower(body)[e] == 'e';
    if Pointed(body) {
      PointedHasNoE(body);
    }
  }

  // ---- Strings as the printer escapes them -----------------------------------------------------

  function HexValue(c: char): Option<nat> {
    if '0' <= c <= '9' then Some((c - '0') as nat) else if 'a' <= c <= 'f' then Some((c - 'a') as nat + 10)
    else if 'A' <= c <= 'F' then Some((c - 'A') as nat + 10) else None
  }

  /** The four hexadecimal digits of an escape. */
  function Hex4Value(s: string): Option<nat> {
    if |s| < 4 then None
    else
      var a, b, c, d := HexValue(s[0]), HexValue(s[1]), HexValue(s[2]), HexValue(s[3]);
      if a.None? || b.None? || c.None? || d.None? then None
      else Some(4096 * a.value + 256 * b.value + 16 * c.value + d.value)
  }

  /** The character a short escape stands for. */
  function ShortEscape(c: char): Option<char> {
    if c == '"' || c == '\\' || c == '/' then Some(c)
    else if c == 'b' then Some('\U{08}') else if c == 'f' then Some('\U{0C}')
    else if c == 'n' then Some('\n') else if c == 'r' then Some('\r') else if c == 't' then Some('\t')
    else None
  }

  /** The first character of a string body and what follows it, by section 7 of RFC 8259. */
  function ReadJsonChar(s: string): (r: Option<(char, string)>)
    requires s != ""
    ensures r.Some? ==> |r.value.1| < |s|
  {
    if s[0] != '\\' then
      if s[0] == '"' || s[0] < ' ' then None else Some((s[0], s[1..]))
    else if |s| == 1 then None
    else if s[1] != 'u' then
      if ShortEscape(s[1]).Some? then Some((ShortEscape(s[1]).value, s[2..])) else None
    else
      match Hex4Value(s[2..])
      case None => None
      case Some(high) =>
        if high < 0xD800 || 0xE000 <= high < 0x10000 then Some((high as char, s[6..]))
        else if high < 0xDC00 && |s| > 8 && s[6] == '\\' && s[7] == 'u' && Hex4Value(s[8..]).Some?
          && 0xDC00 <= Hex4Value(s[8..]).value < 0xE000
        then Some(((0x10000 + (high - 0xD800) * 1024 + (Hex4Value(s[8..]).value - 0xDC00)) as char, s[12..]))
        else None
  }

  function ReadJson(s: string): Option<string>
    decreases |s|
  {
    if s == "" then Some("")
    else
      match ReadJsonChar(s)
      case None => None
      case Some((c, rest)) =>
        match ReadJson(rest) case None => None case Some(more) => Some([c] + more)
  }

  lemma HexReads(n: nat)
    requires n < 16
    ensures HexValue(HexDigit(n)) == Some(n)
  {
  }

  lemma Hex4Reads(n: nat, rest: string)
    requires n < 0x10000
    ensures Hex4Value(Hex4(n) + rest) == Some(n) && |Hex4(n)| == 4
  {
    hide HexValue, HexDigit;
    HexParts(n);
    HexReads(n / 4096);
    HexReads(n / 256 % 16);
    HexReads(n / 16 % 16);
    HexReads(n % 16);
    FourHex(n / 4096, n / 256 % 16, n / 16 % 16, n % 16, rest);
  }

  lemma HexParts(n: nat)
    requires n < 0x10000
    ensures n == 4096 * (n / 4096) + 256 * (n / 256 % 16) + 16 * (n / 16 % 16) + n % 16
    ensures n / 4096 < 16
  {
    assert n == 16 * (n / 16) + n % 16;
    assert n / 16 == 16 * (n / 256) + n / 16 % 16;
    assert n / 256 == 16 * (n / 4096) + n / 256 % 16;
  }

  lemma FourHex(a: nat, b: nat, c: nat, d: nat, rest: string)
    requires a < 16 && b < 16 && c < 16 && d < 16
    ensures Hex4Value([HexDigit(a), HexDigit(b), HexDigit(c), HexDigit(d)] + rest)
      == Some(4096 * a + 256 * b + 16 * c + d)
  {
    hide HexValue, HexDigit;
    HexReads(a);
    HexReads(b);
    HexReads(c);
    HexReads(d);
  }

  lemma EscapeReads(c: char, rest: string)
    ensures JsonEscape(c) != "" && ReadJsonChar(JsonEscape(c) + rest) == Some((c, rest))
  {
    hide Hex4, Hex4Value;
    var n := c as int;
    if c == '"' || c == '\\' || c == '\n' || c == '\r' || c == '\t' || c == '\U{08}' || c == '\U{0C}' {
      assert (JsonEscape(c) + rest)[2..] == rest;
    } else if ' ' <= c <= '~' {
      assert (JsonEscape(c) + rest)[1..] == rest;
    } else if n < 0x10000 {
      Hex4Reads(n, rest);
      assert (JsonEscape(c) + rest)[2..] == Hex4(n) + rest;
      assert (JsonEscape(c) + rest)[6..] == rest;
    } else {
      PairReads(c, rest);
    }
  }

  /** A character outside the basic plane is escaped as two code units and read back from them. */
  lemma PairReads(c: char, rest: string)
    requires c as int >= 0x10000
    ensures JsonEscape(c) != "" && ReadJsonChar(JsonEscape(c) + rest) == Some((c, rest))
  {
    hide Hex4, Hex4Value;
    var n := c as int - 0x10000;
    var high, low := 0xD800 + n / 1024, 0xDC00 + n % 1024;
    var tail := "\\u" + Hex4(low) + rest;
    var s := JsonEscape(c) + rest;
    Hex4Reads(high, tail);
    Hex4Reads(low, rest);
    assert s[2..] == Hex4(high) + tail;
    assert s[8..] == Hex4(low) + rest && s[12..] == rest;
    assert s[6] == '\\' && s[7] == 'u';
  }

  /** What the printer writes between the quotes is a JSON string of the text, whatever the text. */
  lemma {:induction false} JsonReadsBack(s: string)
    ensures ReadJson(JsonBody(s)) == Some(s)
    decreases |s|
  {
    hide JsonEscape, ReadJsonChar;
    if s != "" {
      JsonReadsBack(s[1..]);
      EscapeReads(s[0], JsonBody(s[1..]));
      assert [s[0]] + s[1..] == s;
    }
  }
}
