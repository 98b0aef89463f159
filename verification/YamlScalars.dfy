/** Which scalars survive printing and parsing: the exact condition on strings, and all other scalars but floats. */
module YamlScalars {
  import opened Text
  import opened Yaml
  import opened YamlRoundTrip

  // ---- Numbers ---------------------------------------------------------------------------------

  lemma {:induction false} NoUnderscores(s: string)
    requires AllDigits(s)
    ensures DropUnderscores(s) == s
    decreases |s|
  {
    if s != "" {
      NoUnderscores(s[1..]);
    }
  }

  /** Text without a hash sign has no comment to drop, unless it is quoted. */
  lemma NoComment(s: string)
    requires '#' !in s
    ensures DropComment(s) == s
  {
    FindNeeds(s, "  #");
    FindNeeds(s, " #");
  }

  lemma NotPrefix(s: string, sub: string)
    requires '#' in sub && '#' !in s
    ensures !(sub <= s)
  {
    var k :| 0 <= k < |sub| && sub[k] == '#';
    assert k < |s| ==> s[k] != '#';
  }

  lemma {:induction false} FindNeeds(s: string, sub: string)
    requires '#' in sub && '#' !in s
    ensures Find(s, sub).None?
    decreases |s|
  {
    NotPrefix(s, sub);
    if s != "" {
      FindNeeds(s[1..], sub);
    }
  }

  lemma FormatIntText(i: int)
    ensures Trimmed(FormatInt(i)) && NoBreak(FormatInt(i)) && '#' !in FormatInt(i)
    ensures FormatInt(i)[0] == '-' || IsDigit(FormatInt(i)[0])
    ensures Unsigned(FormatInt(i)) == Digits(if i < 0 then -i else i)
    ensures FormatInt(i)[0] == '-' <==> i < 0
  {
    hide Digits;
    var n: nat := if i < 0 then -i else i;
    var s, d := FormatInt(i), Digits(n);
    forall k | 0 <= k < |s| ensures IsDigit(s[k]) || s[k] == '-' {
      assert i < 0 && k > 0 ==> s[k] == d[k - 1];
    }
    assert IsDigit(d[0]) && IsDigit(d[|d| - 1]);
  }

  lemma ParseFormatInt(i: int)
    ensures ParseInt(FormatInt(i)) == Some(i)
  {
    hide Strip, Digits, FormatInt, Value, DropUnderscores;
    var n: nat := if i < 0 then -i else i;
    var d := Digits(n);
    FormatIntText(i);
    StripTrimmed(FormatInt(i));
    NoUnderscores(d);
    ValueDigits(n);
    assert IsDigit(d[0]) && IsDigit(d[|d| - 1]);
  }

  lemma IntSurvives(i: int)
    ensures Survives(Int(i))
  {
    hide Strip, FormatInt, ParseInt, IsFloat;
    ParseFormatInt(i);
    FormatIntText(i);
    StripTrimmed(FormatInt(i));
    NoComment(FormatInt(i));
  }

  lemma WordSurvives(v: Yaml)
    requires v.Bool? || v.Null?
    ensures Survives(v)
  {
    var s := FormatScalar(v);
    assert s == "true" || s == "false" || s == "null";
    StripTrimmed(s);
    NoComment(s);
  }

  // ---- Strings ---------------------------------------------------------------------------------

  predicate IsPlainJson(c: char) { ' ' <= c <= '~' && c != '"' && c != '\\' }

  lemma {:induction false} JsonBodyPlain(s: string)
    requires forall i :: 0 <= i < |s| ==> IsPlainJson(s[i])
    ensures JsonBody(s) == s
    decreases |s|
  {
    if s != "" {
      JsonBodyPlain(s[1..]);
    }
  }

  lemma {:induction false} JsonBodyGrows(s: string)
    ensures |JsonBody(s)| >= |s|
    ensures (exists i :: 0 <= i < |s| && !IsPlainJson(s[i])) ==> |JsonBody(s)| > |s|
    decreases |s|
  {
    if s != "" {
      JsonBodyGrows(s[1..]);
      assert |JsonEscape(s[0])| >= 1 && (!IsPlainJson(s[0]) ==> |JsonEscape(s[0])| >= 2);
      forall i | 0 < i < |s| && !IsPlainJson(s[i]) ensures |JsonBody(s[1..])| > |s[1..]| {
        assert s[1..][i - 1] == s[i];
      }
    }
  }

  /** Quoted text is neither a number nor a word. */
  lemma ParseQuoted(body: string, q: char)
    requires q == '"' || q == '\''
    ensures ParseScalar([q] + body + [q]) == Str(body)
    ensures Strip([q] + body + [q]) == [q] + body + [q]
  {
    var s := [q] + body + [q];
    assert s[0] == q && s[|s| - 1] == q;
    StripTrimmed(s);
    assert DropComment(s) == s;
    assert ParseInt(s).None?;
    NotFloat(s);
    assert s[1..|s| - 1] == body;
  }

  lemma NotMantissa(s: string)
    requires s != "" && (s[0] == '"' || s[0] == '\'')
    ensures !IsMantissa(s)
  {
    var dot := IndexOf(s, '.');
    assert dot > 0;
    if dot < |s| {
      assert s[..dot][0] == s[0];
    }
  }

  lemma NotFloat(s: string)
    requires s != "" && (s[0] == '"' || s[0] == '\'') && Trimmed(s)
    ensures !IsFloat(s)
  {
    StripTrimmed(s);
    var low := Lower(s);
    assert low[0] == s[0];
    var e := IndexOf(low, 'e');
    assert e > 0;
    NotMantissa(s);
    if e < |low| {
      assert s[..e][0] == s[0];
      NotMantissa(s[..e]);
    }
  }

  /** Not text that parses as a word or a number. */
  predicate IsWord(s: string) {
    && s != "true" && s != "false" && s != "null" && s != "~"
    && ParseInt(s).None? && !IsFloat(s)
  }

  /** The exact condition: printable ASCII without quotes and backslashes, or text printed bare and read as text. */
  predicate StringSurvives(s: string) {
    if HasSpecial(s) then forall i :: 0 <= i < |s| ==> IsPlainJson(s[i])
    else s != "" && Trimmed(s) && NoBreak(s) && IsWord(s)
  }

  lemma PlainNoBreak(s: string)
    requires forall i :: 0 <= i < |s| ==> IsPlainJson(s[i])
    ensures forall i :: 0 <= i < |s| ==> !IsLineBreak(s[i])
  {
  }

  lemma SpecialSurvivesIff(s: string)
    requires HasSpecial(s)
    ensures Survives(Str(s)) <==> StringSurvives(s)
  {
    hide ParseScalar, Strip, HasSpecial, IsPlainJson, JsonBody;
    var fmt := JsonString(s);
    ParseQuoted(JsonBody(s), '"');
    assert fmt == ['"'] + JsonBody(s) + ['"'];
    JsonBodyGrows(s);
    if forall i :: 0 <= i < |s| ==> IsPlainJson(s[i]) {
      JsonBodyPlain(s);
      PlainNoBreak(s);
      assert fmt == "\"" + s + "\"";
      forall i | 0 <= i < |fmt| ensures !IsLineBreak(fmt[i]) {
        if 0 < i < |fmt| - 1 {
          assert fmt[i] == s[i - 1];
        }
      }
    }
  }

  lemma NoQuotes(s: string)
    requires !HasSpecial(s)
    ensures forall c :: c in "#\"'" ==> c !in s
  {
    assert SPECIAL[1] == '#' && SPECIAL[2] == '"' && SPECIAL[3] == '\'';
  }

  /** Bare text parses to itself as text exactly when it is not a word of another kind. */
  lemma ParseBare(t: string)
    requires '#' !in t && '"' !in t && '\'' !in t
    ensures ParseScalar(t) == Str(t) <==> IsWord(t)
    ensures ParseScalar(t).Str? ==> ParseScalar(t) == Str(t)
  {
    NoComment(t);
    assert !EnclosedIn(t, '"') && !EnclosedIn(t, '\'');
  }

  lemma BareSurvivesIff(s: string)
    requires !HasSpecial(s)
    ensures Survives(Str(s)) <==> StringSurvives(s)
  {
    hide ParseScalar, Strip, HasSpecial, IsWord;
    NoQuotes(s);
    StripTrims(s);
    StripShortens(s);
    ParseBare(Strip(s));
    if Trimmed(s) {
      StripTrimmed(s);
    }
  }

  /** A string comes back from `parse_scalar(format_scalar(s))` exactly under `StringSurvives`. */
  lemma StringSurvivesIff(s: string)
    ensures Survives(Str(s)) <==> StringSurvives(s)
  {
    if HasSpecial(s) {
      SpecialSurvivesIff(s);
    } else {
      BareSurvivesIff(s);
    }
  }

  /** A foreign decimal digit reads as its value, so the one-character text of it does not come back. */
  lemma ForeignDigitIsANumber(c: char)
    requires IsDecimal(c) && c >= '\U{80}' && !IsSpace(c)
    ensures ParseScalar([c]) == Int(DECIMALS(c).value) && !Survives(Str([c]))
  {
    hide IsFloat;
    var s := [c];
    NoComment(s);
    StripTrimmed(s);
    assert Unsigned(s) == s && IsDigitPart(s);
    assert s[1..] == "" && s[..0] == "";
    assert DropUnderscores(s) == s;
    assert Value(s) == DECIMALS(c).value;
    assert s != "true" && s != "false" && s != "null" && s != "~";
    assert !HasSpecial(s);
  }
}
