/** The names a grant may hold, against the regular expressions they are checked with. */
module KubernetesNames {
  import opened Text
  import opened KubernetesBody

  /** A character class as the ranges between its brackets. */
  type Class = seq<(char, char)>

  predicate InClass(c: char, ranges: Class) {
    exists i :: 0 <= i < |ranges| && ranges[i].0 <= c <= ranges[i].1
  }

  /** `[...]{least,most}`, one pattern after another, and `(...)?`. */
  datatype Pattern =
    | Chars(ranges: Class, least: nat, most: nat)
    | Then(first: Pattern, second: Pattern)
    | Maybe(inner: Pattern)

  /** `re.fullmatch`. */
  ghost predicate Matches(p: Pattern, s: string) {
    match p
    case Chars(ranges, least, most) => least <= |s| <= most && forall i :: 0 <= i < |s| ==> InClass(s[i], ranges)
    case Then(first, second) => exists k :: 0 <= k <= |s| && Matches(first, s[..k]) && Matches(second, s[k..])
    case Maybe(inner) => s == "" || Matches(inner, s)
  }

  const LOWER: Class := [('a', 'z'), ('0', '9')]
  const LETTERS: Class := [('A', 'Z'), ('a', 'z'), ('0', '9')]
  const DASH := ('-', '-')

  function One(ranges: Class): Pattern { Chars(ranges, 1, 1) }

  /** `middle{0,most}edge` */
  function Ended(middle: Class, most: nat, edge: Class): Pattern {
    Then(Chars(middle, 0, most), One(edge))
  }

  lemma EndedIff(middle: Class, most: nat, edge: Class, s: string)
    ensures Matches(Ended(middle, most, edge), s) <==>
      1 <= |s| <= most + 1 && InClass(s[|s| - 1], edge) && forall i :: 0 <= i < |s| - 1 ==> InClass(s[i], middle)
  {
    hide InClass;
    if Matches(Ended(middle, most, edge), s) {
      var k :| 0 <= k <= |s| && Matches(Chars(middle, 0, most), s[..k]) && Matches(One(edge), s[k..]);
      assert k == |s| - 1 && s[k..][0] == s[k];
      assert forall i :: 0 <= i < k ==> s[..k][i] == s[i];
    }
    if 1 <= |s| <= most + 1 && InClass(s[|s| - 1], edge) && (forall i :: 0 <= i < |s| - 1 ==> InClass(s[i], middle)) {
      var k := |s| - 1;
      assert Matches(Chars(middle, 0, most), s[..k]) && Matches(One(edge), s[k..]);
    }
  }

  /** `edge(middle{0,most}edge)?` */
  function Framed(edge: Class, middle: Class, most: nat): Pattern {
    Then(One(edge), Maybe(Ended(middle, most, edge)))
  }

  /** One edge character, or two with at most `most` characters of the middle between them. */
  lemma FramedIff(edge: Class, middle: Class, most: nat, s: string)
    ensures Matches(Framed(edge, middle, most), s) <==>
      && 1 <= |s| <= most + 2 && InClass(s[0], edge) && InClass(s[|s| - 1], edge)
      && forall i :: 0 < i < |s| - 1 ==> InClass(s[i], middle)
  {
    hide InClass, Ended;
    var tail := Ended(middle, most, edge);
    if s != "" {
      EndedIff(middle, most, edge, s[1..]);
    }
    if Matches(Framed(edge, middle, most), s) {
      var k :| 0 <= k <= |s| && Matches(One(edge), s[..k]) && Matches(Maybe(tail), s[k..]);
      assert k == 1 && s[..1][0] == s[0];
      forall i | 0 < i < |s| - 1 ensures InClass(s[i], middle) {
        assert s[1..][i - 1] == s[i];
      }
    }
    if && 1 <= |s| <= most + 2 && InClass(s[0], edge) && InClass(s[|s| - 1], edge)
       && (forall i :: 0 < i < |s| - 1 ==> InClass(s[i], middle))
    {
      assert Matches(One(edge), s[..1]) && Matches(Maybe(tail), s[1..]);
    }
  }

  /** `[a-z][a-z0-9-]{0,61}` */
  function Headed(head: Class, rest: Class, most: nat): Pattern {
    Then(One(head), Chars(rest, 0, most))
  }

  lemma HeadedIff(head: Class, rest: Class, most: nat, s: string)
    ensures Matches(Headed(head, rest, most), s) <==>
      1 <= |s| <= most + 1 && InClass(s[0], head) && forall i :: 0 < i < |s| ==> InClass(s[i], rest)
  {
    hide InClass;
    if Matches(Headed(head, rest, most), s) {
      var k :| 0 <= k <= |s| && Matches(One(head), s[..k]) && Matches(Chars(rest, 0, most), s[k..]);
      assert k == 1 && s[..1][0] == s[0];
      forall i | 0 < i < |s| ensures InClass(s[i], rest) {
        assert s[1..][i - 1] == s[i];
      }
    }
    if 1 <= |s| <= most + 1 && InClass(s[0], head) && (forall i :: 0 < i < |s| ==> InClass(s[i], rest)) {
      assert Matches(One(head), s[..1]) && Matches(Chars(rest, 0, most), s[1..]);
    }
  }

  lemma InLower(c: char)
    ensures InClass(c, LOWER) <==> LowerAlnum(c)
    ensures InClass(c, LOWER + [DASH]) <==> LowerAlnum(c) || c == '-'
    ensures InClass(c, [('a', 'z')]) <==> 'a' <= c <= 'z'
  {
    var more := LOWER + [DASH];
    assert LOWER[0] == ('a', 'z') && LOWER[1] == ('0', '9');
    assert more[0] == ('a', 'z') && more[1] == ('0', '9') && more[2] == ('-', '-');
    assert [('a', 'z')][0] == ('a', 'z');
  }

  lemma InLetters(c: char, signs: string)
    ensures InClass(c, LETTERS) <==> Alnum(c)
    ensures InClass(c, LETTERS + Each(signs)) <==> Alnum(c) || c in signs
  {
    var more := LETTERS + Each(signs);
    assert LETTERS[0] == ('A', 'Z') && LETTERS[1] == ('a', 'z') && LETTERS[2] == ('0', '9');
    assert more[0] == ('A', 'Z') && more[1] == ('a', 'z') && more[2] == ('0', '9');
    if c in signs {
      var k :| 0 <= k < |signs| && signs[k] == c;
      assert more[k + 3] == (c, c);
    }
  }

  /** The ranges of single characters. */
  function Each(signs: string): Class {
    seq(|signs|, i requires 0 <= i < |signs| => (signs[i], signs[i]))
  }

  /** The six checks accept exactly the texts of their regular expressions. */
  lemma NamesMatch(s: string)
    ensures IsDnsLabel(s) <==> Matches(Framed(LOWER, LOWER + [DASH], 61), s)
    ensures IsResourceName(s) <==> Matches(Headed([('a', 'z')], LOWER + [DASH], 61), s)
    ensures IsClusterId(s) <==> Matches(Framed(LETTERS, LETTERS + Each("._:-"), 61), s)
    ensures IsContext(s) <==> Matches(Framed(LETTERS, LETTERS + Each("._:@-"), 251), s)
    ensures IsToken(s) <==> Matches(Chars(LETTERS + Each("._-"), 1, 128), s)
    ensures IsAnnotationValue(s) <==> Matches(Chars(LETTERS + Each("._:/=@-"), 1, 128), s)
  {
    hide InClass, Matches;
    LabelsMatch(s);
    TextsMatch(s);
    TokensMatch(s);
  }

  lemma LabelsMatch(s: string)
    ensures IsDnsLabel(s) <==> Matches(Framed(LOWER, LOWER + [DASH], 61), s)
    ensures IsResourceName(s) <==> Matches(Headed([('a', 'z')], LOWER + [DASH], 61), s)
  {
    hide InClass, Matches, LowerAlnum;
    FramedIff(LOWER, LOWER + [DASH], 61, s);
    HeadedIff([('a', 'z')], LOWER + [DASH], 61, s);
    forall c
      ensures InClass(c, LOWER) <==> LowerAlnum(c)
      ensures InClass(c, LOWER + [DASH]) <==> LowerAlnum(c) || c == '-'
      ensures InClass(c, [('a', 'z')]) <==> 'a' <= c <= 'z'
    {
      InLower(c);
    }
    assert s != "" && 'a' <= s[0] <= 'z' ==> LowerAlnum(s[0]) by { LettersAreLower(s); }
  }

  lemma LettersAreLower(s: string)
    ensures s != "" && 'a' <= s[0] <= 'z' ==> LowerAlnum(s[0])
  {
  }

  lemma TextsMatch(s: string)
    ensures IsClusterId(s) <==> Matches(Framed(LETTERS, LETTERS + Each("._:-"), 61), s)
    ensures IsContext(s) <==> Matches(Framed(LETTERS, LETTERS + Each("._:@-"), 251), s)
  {
    hide InClass, Matches, Alnum;
    FramedIff(LETTERS, LETTERS + Each("._:-"), 61, s);
    FramedIff(LETTERS, LETTERS + Each("._:@-"), 251, s);
    forall c
      ensures InClass(c, LETTERS) <==> Alnum(c)
      ensures InClass(c, LETTERS + Each("._:-")) <==> Alnum(c) || c in {'.', '_', ':', '-'}
      ensures InClass(c, LETTERS + Each("._:@-")) <==> Alnum(c) || c in {'.', '_', ':', '@', '-'}
    {
      InLetters(c, "._:-");
      InLetters(c, "._:@-");
    }
  }

  lemma TokensMatch(s: string)
    ensures IsToken(s) <==> Matches(Chars(LETTERS + Each("._-"), 1, 128), s)
    ensures IsAnnotationValue(s) <==> Matches(Chars(LETTERS + Each("._:/=@-"), 1, 128), s)
  {
    hide InClass, Alnum;
    forall c
      ensures InClass(c, LETTERS + Each("._-")) <==> Alnum(c) || c in {'.', '_', '-'}
      ensures InClass(c, LETTERS + Each("._:/=@-")) <==> Alnum(c) || c in {'.', '_', ':', '/', '=', '@', '-'}
    {
      InLetters(c, "._-");
      InLetters(c, "._:/=@-");
    }
  }
}
