/** Strings as the Python code uses them: stripping, splitting on one character, joining and decimal numbers. */
module Text {

  datatype Option<+T> = None | Some(value: T)

  datatype Result<+T, +E> = Ok(value: T) | Err(error: E)

  // ---- White space and line breaks -------------------------------------------------------------

  /** The characters `str.splitlines` breaks on. */
  predicate IsLineBreak(c: char) {
    '\n' <= c <= '\r' || '\U{1C}' <= c <= '\U{1E}' || c == '\U{85}' || c == '\U{2028}' || c == '\U{2029}'
  }

  /** The characters `str.strip` removes. */
  predicate IsSpace(c: char) {
    || IsLineBreak(c)
    || c == ' ' || c == '\t' || c == '\U{1F}' || c == '\U{A0}' || c == '\U{1680}'
    || c == '\U{202F}' || c == '\U{205F}' || c == '\U{3000}'
    || '\U{2000}' <= c <= '\U{200A}'
  }

  function LStrip(s: string): (r: string)
    ensures |r| <= |s|
  {
    if s != "" && IsSpace(s[0]) then LStrip(s[1..]) else s
  }

  function RStrip(s: string): (r: string)
    ensures |r| <= |s|
  {
    if s != "" && IsSpace(s[|s| - 1]) then RStrip(s[..|s| - 1]) else s
  }

  function Strip(s: string): (r: string)
    ensures |r| <= |s|
  {
    RStrip(LStrip(s))
  }

  /** Neither end is white space: exactly the strings that `strip` leaves alone. */
  predicate Trimmed(s: string) {
    s != "" ==> !IsSpace(s[0]) && !IsSpace(s[|s| - 1])
  }

  lemma {:induction false} RStripEnd(s: string)
    ensures RStrip(s) <= s
    ensures RStrip(s) != "" ==> !IsSpace(RStrip(s)[|RStrip(s)| - 1])
    decreases |s|
  {
    if s != "" && IsSpace(s[|s| - 1]) {
      RStripEnd(s[..|s| - 1]);
    }
  }

  lemma {:induction false} LStripStart(s: string)
    ensures LStrip(s) != "" ==> !IsSpace(LStrip(s)[0])
    decreases |s|
  {
    if s != "" && IsSpace(s[0]) {
      LStripStart(s[1..]);
    }
  }

  lemma StripTrims(s: string)
    ensures Trimmed(Strip(s))
  {
    LStripStart(s);
    RStripEnd(LStrip(s));
  }

  lemma StripTrimmed(s: string)
    requires Trimmed(s)
    ensures Strip(s) == s
  {
  }

  /** `strip` keeps only characters that were there, and takes something from every text that is not trimmed. */
  lemma StripShortens(s: string)
    ensures forall c :: c in Strip(s) ==> c in s
    ensures !Trimmed(s) ==> |Strip(s)| < |s|
  {
    RStripEnd(LStrip(s));
    LStripEnd(s);
    StripTrims(s);
  }

  lemma {:induction false} LStripEnd(s: string)
    ensures forall c :: c in LStrip(s) ==> c in s
    ensures |LStrip(s)| == |s| ==> LStrip(s) == s
    decreases |s|
  {
    if s != "" && IsSpace(s[0]) {
      LStripEnd(s[1..]);
    }
  }

  lemma StripIdempotent(s: string)
    ensures Strip(Strip(s)) == Strip(s)
  {
    StripTrims(s);
    StripTrimmed(Strip(s));
  }

  /** A non-space at the end of `a` stops `rstrip` there. */
  lemma {:induction false} RStripAppend(a: string, b: string)
    requires a != "" && !IsSpace(a[|a| - 1])
    ensures RStrip(a + b) == a + RStrip(b)
    decreases |b|
  {
    if b == "" {
      assert a + b == a;
    } else if IsSpace(b[|b| - 1]) {
      assert (a + b)[..|a + b| - 1] == a + b[..|b| - 1];
      RStripAppend(a, b[..|b| - 1]);
    }
  }

  /** Leading spaces disappear. */
  lemma {:induction false} LStripSpaces(pad: string, s: string)
    requires forall i :: 0 <= i < |pad| ==> pad[i] == ' '
    ensures LStrip(pad + s) == LStrip(s)
    decreases |pad|
  {
    if pad == "" {
      assert pad + s == s;
    } else {
      assert (pad + s)[1..] == pad[1..] + s;
      LStripSpaces(pad[1..], s);
    }
  }

  /** `strip` forgets an earlier `rstrip`. */
  lemma {:induction false} StripRStrip(s: string)
    ensures Strip(RStrip(s)) == Strip(s)
    decreases |s|
  {
    if s != "" && IsSpace(s[|s| - 1]) {
      StripRStrip(s[..|s| - 1]);
      StripDropLast(s);
    }
  }

  lemma {:induction false} StripDropLast(s: string)
    requires s != "" && IsSpace(s[|s| - 1])
    ensures Strip(s[..|s| - 1]) == Strip(s)
    decreases |s|
  {
    if |s| > 1 && IsSpace(s[0]) {
      assert s[1..][..|s| - 2] == s[..|s| - 1][1..];
      StripDropLast(s[1..]);
    } else if |s| == 1 {
      assert s[1..] == "" && s[..0] == "";
    }
  }

  /**
   * The letters `s.lower()` turns into ASCII: the ASCII capitals and the Kelvin sign. Other letters stay outside
   * ASCII whatever case they have, and every result is only ever compared with ASCII text.
   */
  function Lower(s: string): (r: string)
    ensures |r| == |s|
  {
    seq(|s|, i requires 0 <= i < |s| => LowerChar(s[i]))
  }

  function LowerChar(c: char): char {
    if 'A' <= c <= 'Z' then c - 'A' + 'a' else if c == '\U{212A}' then 'k' else c
  }

  // ---- Splitting and joining -------------------------------------------------------------------

  /** `s.split(sep)`. */
  function Split(s: string, sep: char): (parts: seq<string>)
    ensures |parts| >= 1
  {
    if s == "" then [""]
    else
      var rest := Split(s[1..], sep);
      if s[0] == sep then [""] + rest else [[s[0]] + rest[0]] + rest[1..]
  }

  /** `sep.join(parts)`. */
  function Join(parts: seq<string>, sep: char): string {
    if |parts| == 0 then ""
    else if |parts| == 1 then parts[0]
    else parts[0] + [sep] + Join(parts[1..], sep)
  }

  lemma {:induction false} JoinSplit(s: string, sep: char)
    ensures Join(Split(s, sep), sep) == s
    decreases |s|
  {
    if s != "" {
      JoinSplit(s[1..], sep);
      var rest := Split(s[1..], sep);
      var whole := Split(s, sep);
      assert [s[0]] + s[1..] == s;
      if s[0] == sep {
        assert whole[1..] == rest;
      } else if |rest| > 1 {
        assert whole[1..] == rest[1..];
      }
    }
  }

  /** A part that holds no separator is split off whole. */
  lemma {:induction false} SplitHead(head: string, sep: char, tail: string)
    requires sep !in head
    ensures Split(head + [sep] + tail, sep) == [head] + Split(tail, sep)
    decreases |head|
  {
    var s := head + [sep] + tail;
    if head == "" {
      assert s[1..] == tail;
    } else {
      assert s[1..] == head[1..] + [sep] + tail;
      SplitHead(head[1..], sep, tail);
      assert [head[0]] + head[1..] == head;
    }
  }

  lemma {:induction false} SplitWhole(s: string, sep: char)
    requires sep !in s
    ensures Split(s, sep) == [s]
    decreases |s|
  {
    if s != "" {
      SplitWhole(s[1..], sep);
      assert [s[0]] + s[1..] == s;
    }
  }

  lemma {:induction false} SplitJoin(parts: seq<string>, sep: char)
    requires |parts| >= 1
    requires forall p :: p in parts ==> sep !in p
    ensures Split(Join(parts, sep), sep) == parts
    decreases |parts|
  {
    if |parts| == 1 {
      SplitWhole(parts[0], sep);
    } else {
      SplitJoin(parts[1..], sep);
      SplitHead(parts[0], sep, Join(parts[1..], sep));
    }
  }

  lemma {:induction false} SplitFree(s: string, sep: char)
    ensures forall p :: p in Split(s, sep) ==> sep !in p
    decreases |s|
  {
    if s != "" {
      SplitFree(s[1..], sep);
    }
  }

  /** No part holds a character the whole does not. */
  lemma {:induction false} SplitWithin(s: string)
    ensures forall p, c :: p in Split(s, '/') && c in p ==> c in s
    decreases |s|
  {
    if s != "" {
      SplitWithin(s[1..]);
      var rest := Split(s[1..], '/');
      forall p, c | p in Split(s, '/') && c in p ensures c in s {
        if s[0] != '/' && p == [s[0]] + rest[0] {
          assert c == s[0] || c in rest[0];
        } else if p != "" {
          assert p in rest;
        }
      }
    }
  }

  /** Stripping never adds a part. */
  lemma StrippingSplits(s: string)
    ensures |Split(Strip(s), '/')| <= |Split(s, '/')|
  {
    LStripSplits(s);
    RStripSplits(LStrip(s));
  }

  lemma {:induction false} LStripSplits(s: string)
    ensures |Split(LStrip(s), '/')| <= |Split(s, '/')|
    decreases |s|
  {
    if s != "" && IsSpace(s[0]) {
      LStripSplits(s[1..]);
    }
  }

  lemma {:induction false} RStripSplits(s: string)
    ensures |Split(RStrip(s), '/')| <= |Split(s, '/')|
    decreases |s|
  {
    if s != "" && IsSpace(s[|s| - 1]) {
      RStripSplits(s[..|s| - 1]);
      SplitFront(s);
    }
  }

  lemma {:induction false} SplitFront(s: string)
    requires s != ""
    ensures |Split(s[..|s| - 1], '/')| <= |Split(s, '/')|
    decreases |s|
  {
    if |s| > 1 {
      assert s[..|s| - 1][1..] == s[1..][..|s| - 2];
      SplitFront(s[1..]);
    }
  }

  // ---- Decimal numbers -------------------------------------------------------------------------

  predicate IsDigit(c: char) { '0' <= c <= '9' }

  predicate AllDigits(s: string) { forall i :: 0 <= i < |s| ==> IsDigit(s[i]) }

  function AsciiDigit(c: char): Option<nat> {
    if IsDigit(c) then Some((c - '0') as nat) else None
  }

  /** Within ASCII the decimal digits are `0` to `9`; outside it any character may be one. */
  ghost predicate IsDecimalTable(t: char -> Option<nat>) {
    forall c: char :: (c < '\U{80}' ==> t(c) == AsciiDigit(c)) && (t(c).Some? ==> t(c).value < 10)
  }

  type DecimalTable = t: char -> Option<nat> | IsDecimalTable(t) witness AsciiDigit

  /**
   * The decimal digits of the running interpreter's Unicode version, which `int`, `float` and the pattern `\d`
   * all accept. No value is given: what is proved holds of every such table.
   */
  const DECIMALS: DecimalTable

  predicate IsDecimal(c: char) { DECIMALS(c).Some? }

  predicate AllDecimal(s: string) { forall i :: 0 <= i < |s| ==> IsDecimal(s[i]) }

  lemma AsciiDecimals(c: char)
    ensures c < '\U{80}' ==> DECIMALS(c) == AsciiDigit(c) && (IsDecimal(c) <==> IsDigit(c))
  {
    assert IsDecimalTable(DECIMALS);
  }

  lemma DigitsAreDecimal(s: string)
    requires AllDigits(s)
    ensures AllDecimal(s)
  {
    forall i | 0 <= i < |s| ensures IsDecimal(s[i]) {
      AsciiDecimals(s[i]);
    }
  }

  /** `str(n)` for a natural number. */
  function Digits(n: nat): (s: string)
    ensures |s| >= 1 && AllDigits(s)
  {
    var last := [(n % 10) as char + '0'];
    if n < 10 then last else Digits(n / 10) + last
  }

  /** `int(s)` for a string of decimal digits. */
  function Value(s: string): nat
    requires AllDecimal(s)
  {
    if s == "" then 0 else 10 * Value(s[..|s| - 1]) + DECIMALS(s[|s| - 1]).value
  }

  /** Reading back what was printed. */
  lemma {:induction false} ValueDigits(n: nat)
    ensures AllDecimal(Digits(n)) && Value(Digits(n)) == n
    decreases n
  {
    var s := Digits(n);
    DigitsAreDecimal(s);
    AsciiDecimals(s[|s| - 1]);
    if n >= 10 {
      ValueDigits(n / 10);
      assert s[..|s| - 1] == Digits(n / 10);
    } else {
      assert s[..|s| - 1] == "";
    }
  }

  /** Different numbers print differently. */
  lemma DigitsInjective(m: nat, n: nat)
    requires Digits(m) == Digits(n)
    ensures m == n
  {
    ValueDigits(m);
    ValueDigits(n);
  }
}
