/** Human TTLs such as `1d2h` or `30m`: the token loop against the grammar it is meant to accept. */
module Ttl {
  import opened Text

  datatype TimeUnit = Day | Hour | Minute | Second

  function Seconds(u: TimeUnit): nat {
    match u case Day => 86400 case Hour => 3600 case Minute => 60 case Second => 1
  }

  /** Position in the order d, h, m, s. */
  function Rank(u: TimeUnit): nat {
    match u case Day => 0 case Hour => 1 case Minute => 2 case Second => 3
  }

  function Letter(u: TimeUnit): char {
    match u case Day => 'd' case Hour => 'h' case Minute => 'm' case Second => 's'
  }

  function UnitOf(c: char): Option<TimeUnit> {
    if c == 'd' then Some(Day) else if c == 'h' then Some(Hour)
    else if c == 'm' then Some(Minute) else if c == 's' then Some(Second) else None
  }

  datatype Term = Term(digits: string, unit: TimeUnit)

  // ---- The grammar -----------------------------------------------------------------------------

  predicate IsTerm(t: Term) {
    t.digits != "" && AllDecimal(t.digits)
  }

  function Render(terms: seq<Term>): string {
    if terms == [] then "" else terms[0].digits + [Letter(terms[0].unit)] + Render(terms[1..])
  }

  /** At least one term, every amount at least 1, units strictly descending. */
  ghost predicate IsDuration(terms: seq<Term>) {
    && terms != []
    && InOrder(terms)
  }

  ghost predicate InOrder(terms: seq<Term>) {
    && (forall i :: 0 <= i < |terms| ==> IsTerm(terms[i]) && Value(terms[i].digits) >= 1)
    && (forall i, j :: 0 <= i < j < |terms| ==> Rank(terms[i].unit) < Rank(terms[j].unit))
  }

  /** The weighted sum of the amounts. */
  function Total(terms: seq<Term>): nat
    requires forall i :: 0 <= i < |terms| ==> IsTerm(terms[i])
  {
    if terms == [] then 0
    else
      var last := terms[|terms| - 1];
      assert IsTerm(last);
      Total(terms[..|terms| - 1]) + Value(last.digits) * Seconds(last.unit)
  }

  // ---- The grammar spelled out -----------------------------------------------------------------

  /** An amount of one unit: absent, or digits of a value of at least 1 followed by the unit's letter. */
  ghost predicate IsAmount(digits: Option<string>) {
    digits.Some? ==> digits.value != "" && AllDecimal(digits.value) && Value(digits.value) >= 1
  }

  function Spelled(digits: Option<string>, letter: char): string {
    if digits.Some? then digits.value + [letter] else ""
  }

  function Amount(digits: Option<string>): nat {
    if digits.Some? && AllDecimal(digits.value) then Value(digits.value) else 0
  }

  /** `text` names days, hours, minutes and seconds in this order, at least one of them. */
  ghost predicate Spells(text: string, d: Option<string>, h: Option<string>, m: Option<string>, s: Option<string>) {
    && IsAmount(d) && IsAmount(h) && IsAmount(m) && IsAmount(s) && (d.Some? || h.Some? || m.Some? || s.Some?)
    && text == Spelled(d, 'd') + Spelled(h, 'h') + Spelled(m, 'm') + Spelled(s, 's')
  }

  function Part(digits: Option<string>, u: TimeUnit): (terms: seq<Term>)
    ensures |terms| <= 1 && (terms != [] ==> digits == Some(terms[0].digits) && terms[0].unit == u)
    ensures digits.Some? ==> terms == [Term(digits.value, u)]
  {
    if digits.Some? then [Term(digits.value, u)] else []
  }

  lemma PartRenders(digits: Option<string>, u: TimeUnit)
    requires IsAmount(digits)
    ensures Render(Part(digits, u)) == Spelled(digits, Letter(u))
    ensures forall i :: 0 <= i < |Part(digits, u)| ==> IsTerm(Part(digits, u)[i])
    ensures Total(Part(digits, u)) == Amount(digits) * Seconds(u)
  {
    if digits.Some? {
      var part := [Term(digits.value, u)];
      assert part[1..] == [] && part[..0] == [];
    }
  }

  lemma {:induction false} TotalAppend(a: seq<Term>, b: seq<Term>)
    requires forall i :: 0 <= i < |a| ==> IsTerm(a[i])
    requires forall i :: 0 <= i < |b| ==> IsTerm(b[i])
    ensures Total(a + b) == Total(a) + Total(b)
    decreases |b|
  {
    if b == [] {
      assert a + b == a;
    } else {
      assert (a + b)[..|a + b| - 1] == a + b[..|b| - 1];
      TotalAppend(a, b[..|b| - 1]);
    }
  }

  function Parts(d: Option<string>, h: Option<string>, m: Option<string>, s: Option<string>): seq<Term> {
    Part(d, Day) + (Part(h, Hour) + (Part(m, Minute) + Part(s, Second)))
  }

  lemma PartsRender(d: Option<string>, h: Option<string>, m: Option<string>, s: Option<string>)
    requires IsAmount(d) && IsAmount(h) && IsAmount(m) && IsAmount(s)
    ensures Render(Parts(d, h, m, s)) == Spelled(d, 'd') + Spelled(h, 'h') + Spelled(m, 'm') + Spelled(s, 's')
  {
    hide Value, AllDecimal, Render, Spelled, IsAmount, Part;
    PartRenders(d, Day);
    PartRenders(h, Hour);
    PartRenders(m, Minute);
    PartRenders(s, Second);
    RenderAppend(Part(d, Day), Part(h, Hour) + (Part(m, Minute) + Part(s, Second)));
    RenderAppend(Part(h, Hour), Part(m, Minute) + Part(s, Second));
    RenderAppend(Part(m, Minute), Part(s, Second));
  }

  lemma PartsTotal(d: Option<string>, h: Option<string>, m: Option<string>, s: Option<string>)
    requires IsAmount(d) && IsAmount(h) && IsAmount(m) && IsAmount(s)
    ensures forall i :: 0 <= i < |Parts(d, h, m, s)| ==> IsTerm(Parts(d, h, m, s)[i])
    ensures Total(Parts(d, h, m, s)) == Amount(d) * 86400 + Amount(h) * 3600 + Amount(m) * 60 + Amount(s)
  {
    hide Value, AllDecimal, Total, Amount, IsAmount, Part, IsTerm;
    PartRenders(d, Day);
    PartRenders(h, Hour);
    PartRenders(m, Minute);
    PartRenders(s, Second);
    TotalAppend(Part(m, Minute), Part(s, Second));
    TotalAppend(Part(h, Hour), Part(m, Minute) + Part(s, Second));
    TotalAppend(Part(d, Day), Part(h, Hour) + (Part(m, Minute) + Part(s, Second)));
  }

  /** A larger unit in front of an ordered list of smaller ones. */
  lemma PartInFront(digits: Option<string>, u: TimeUnit, rest: seq<Term>)
    requires IsAmount(digits) && InOrder(rest) && forall i :: 0 <= i < |rest| ==> Rank(u) < Rank(rest[i].unit)
    ensures InOrder(Part(digits, u) + rest)
    ensures forall i :: 0 <= i < |Part(digits, u) + rest| ==> Rank(u) <= Rank((Part(digits, u) + rest)[i].unit)
  {
    hide Value, AllDecimal;
  }

  lemma PartsInOrder(d: Option<string>, h: Option<string>, m: Option<string>, s: Option<string>)
    requires IsAmount(d) && IsAmount(h) && IsAmount(m) && IsAmount(s)
    ensures InOrder(Parts(d, h, m, s))
  {
    hide Value, AllDecimal, IsAmount, Part, InOrder;
    assert InOrder([]) by { NoneInOrder(); }
    PartInFront(s, Second, []);
    assert Part(s, Second) + [] == Part(s, Second);
    PartInFront(m, Minute, Part(s, Second));
    PartInFront(h, Hour, Part(m, Minute) + Part(s, Second));
    PartInFront(d, Day, Part(h, Hour) + (Part(m, Minute) + Part(s, Second)));
  }

  lemma NoneInOrder()
    ensures InOrder([])
  {
  }

  /** The terms of such a text, how it reads and what it lasts. */
  lemma SpellingReads(text: string, d: Option<string>, h: Option<string>, m: Option<string>, s: Option<string>)
    requires Spells(text, d, h, m, s)
    ensures Reads(text, Parts(d, h, m, s))
    ensures Total(Parts(d, h, m, s)) == Amount(d) * 86400 + Amount(h) * 3600 + Amount(m) * 60 + Amount(s)
  {
    hide Value, Render, Total, AllDecimal, IsAmount, InOrder, Amount, Spelled;
    PartsRender(d, h, m, s);
    PartsTotal(d, h, m, s);
    PartsInOrder(d, h, m, s);
  }

  /** The amount of the largest unit still possible, and the terms after it. */
  lemma Peel(terms: seq<Term>, u: TimeUnit) returns (digits: Option<string>, rest: seq<Term>)
    requires InOrder(terms) && forall i :: 0 <= i < |terms| ==> Rank(u) <= Rank(terms[i].unit)
    ensures IsAmount(digits) && terms == Part(digits, u) + rest && InOrder(rest)
    ensures forall i :: 0 <= i < |rest| ==> Rank(u) < Rank(rest[i].unit)
  {
    hide Value, AllDecimal, InOrder;
    if terms != [] && terms[0].unit == u {
      digits, rest := Some(terms[0].digits), terms[1..];
      TailInOrder(terms);
      assert terms == [terms[0]] + rest;
    } else {
      digits, rest := None, terms;
      HeadRank(terms, u);
    }
  }

  lemma TailInOrder(terms: seq<Term>)
    requires InOrder(terms) && terms != []
    ensures InOrder(terms[1..]) && IsAmount(Some(terms[0].digits))
    ensures forall i :: 0 <= i < |terms[1..]| ==> Rank(terms[0].unit) < Rank(terms[1..][i].unit)
  {
    hide Value, AllDecimal, Rank;
  }

  /** Without a term of the unit in front all terms rank behind it. */
  lemma HeadRank(terms: seq<Term>, u: TimeUnit)
    requires InOrder(terms) && (forall i :: 0 <= i < |terms| ==> Rank(u) <= Rank(terms[i].unit))
    requires terms == [] || terms[0].unit != u
    ensures forall i :: 0 <= i < |terms| ==> Rank(u) < Rank(terms[i].unit)
  {
    hide Value, AllDecimal;
  }

  /** Conversely every reading spells one. */
  lemma ReadingSpells(text: string, terms: seq<Term>)
    returns (d: Option<string>, h: Option<string>, m: Option<string>, s: Option<string>)
    requires Reads(text, terms)
    ensures Spells(text, d, h, m, s)
  {
    hide Value, Render, AllDecimal, InOrder, IsAmount, Spelled;
    var hours, minutes, seconds, none: seq<Term>;
    d, hours := Peel(terms, Day);
    h, minutes := Peel(hours, Hour);
    m, seconds := Peel(minutes, Minute);
    s, none := Peel(seconds, Second);
    assert none == [] by {
      assert none != [] ==> Rank(Second) < Rank(none[0].unit);
    }
    assert terms == Parts(d, h, m, s);
    PartsRender(d, h, m, s);
    assert d.Some? || h.Some? || m.Some? || s.Some? by {
      assert terms[0] in terms;
    }
  }

  // ---- The loop --------------------------------------------------------------------------------

  datatype TtlError = TtlRequired | BareSeconds | InvalidTtl | ZeroAmount | RepeatedUnit | WrongOrder | NotPositive

  /** How many digits `s` starts with: the greedy `\d+` of the token pattern. */
  function DigitRun(s: string): (n: nat)
    ensures n <= |s| && AllDecimal(s[..n])
    ensures n < |s| ==> !IsDecimal(s[n])
  {
    if s == "" || !IsDecimal(s[0]) then 0
    else
      var n := DigitRun(s[1..]);
      assert s[..n + 1] == [s[0]] + s[1..][..n];
      n + 1
  }

  ghost predicate Reads(text: string, terms: seq<Term>) {
    IsDuration(terms) && Render(terms) == text
  }

  /** The text a reading must spell is `done` followed by `remaining`, and every reading starts with `done`. */
  ghost predicate ReadSoFar(text: string, done: seq<Term>, remaining: string) {
    && InOrder(done)
    && text == Render(done) + remaining
    && forall all :: Reads(text, all) ==> done <= all
  }

  /** The token at the front of `remaining` may follow `done`. */
  ghost predicate CanFollow(done: seq<Term>, remaining: string) {
    var n := DigitRun(remaining);
    && 0 < n < |remaining|
    && UnitOf(remaining[n]).Some?
    && InOrder(done + [Term(remaining[..n], UnitOf(remaining[n]).value)])
  }

  /**
   * A TTL is accepted exactly when its trimmed, lower-case text names days, hours, minutes and seconds in this order,
   * and the answer is their length in seconds.
   */
  method ParseTtl(value: string) returns (r: Result<nat, TtlError>)
    ensures r.Ok? <==> exists d, h, m, s :: Spells(Lower(Strip(value)), d, h, m, s)
    ensures forall d, h, m, s :: Spells(Lower(Strip(value)), d, h, m, s) ==>
      r == Ok(Amount(d) * 86400 + Amount(h) * 3600 + Amount(m) * 60 + Amount(s))
    ensures r.Ok? ==> r.value >= 1
  {
    hide Value, Strip, Lower, Reads, Spells, Total, Amount;
    var text := Lower(Strip(value));
    r := ReadTokens(text);
    forall d, h, m, s | Spells(text, d, h, m, s)
      ensures r == Ok(Amount(d) * 86400 + Amount(h) * 3600 + Amount(m) * 60 + Amount(s))
    {
      SpellingReads(text, d, h, m, s);
    }
    if r.Ok? {
      ghost var terms :| Reads(text, terms);
      ghost var d, h, m, s := ReadingSpells(text, terms);
    }
  }

  /** The token loop accepts exactly the durations of the grammar and answers the weighted sum. */
  method ReadTokens(text: string) returns (r: Result<nat, TtlError>)
    ensures r.Ok? <==> exists terms :: Reads(text, terms)
    ensures forall terms :: Reads(text, terms) ==> r == Ok(Total(terms))
    ensures r.Ok? ==> r.value >= 1
  {
    hide DigitRun, Value, UnitOf, Letter, ReadSoFar, Reads, Render, InOrder, Units;
    if text == "" {
      NoReading();
      return Err(TtlRequired);
    }
    Starts(text);
    if DigitRun(text) == |text| {
      CannotContinue(text, [], text);
      return Err(BareSeconds);
    }
    var remaining, total, seen := text, 0, [];
    ghost var done: seq<Term> := [];
    while remaining != ""
      invariant ReadSoFar(text, done, remaining) && forall i :: 0 <= i < |done| ==> IsTerm(done[i])
      invariant total == Total(done) && seen == Units(done)
      invariant remaining == "" ==> done != []
      decreases |remaining|
    {
      var n := DigitRun(remaining);
      if !CanFollow(done, remaining) {
        CannotContinue(text, done, remaining);
      }
      if n == 0 || n == |remaining| || UnitOf(remaining[n]).None? {
        return Err(InvalidTtl);
      }
      var amount, unit := Value(remaining[..n]), UnitOf(remaining[n]).value;
      ghost var term := Term(remaining[..n], unit);
      DoneInOrder(text, done, remaining);
      FollowsIff(done, term);
      UnitsOf(done, term);
      if amount <= 0 {
        return Err(ZeroAmount);
      }
      if unit in seen {
        return Err(RepeatedUnit);
      }
      if seen != [] && Rank(unit) <= Rank(seen[|seen| - 1]) {
        return Err(WrongOrder);
      }
      Continue(text, done, remaining);
      assert (done + [term])[..|done|] == done;
      seen := seen + [unit];
      total := total + amount * Seconds(unit);
      done := done + [term];
      remaining := remaining[n + 1..];
    }
    Ends(text, done);
    return Ok(total);
  }

  lemma NoReading()
    ensures forall terms :: !Reads("", terms)
  {
    forall terms | Reads("", terms) ensures false {
      NextTerm(terms);
    }
  }

  lemma Starts(text: string)
    ensures ReadSoFar(text, [], text) && Units([]) == []
  {
    assert Render([]) + text == text;
  }

  lemma DoneInOrder(text: string, done: seq<Term>, remaining: string)
    requires ReadSoFar(text, done, remaining)
    ensures InOrder(done) && forall i :: 0 <= i < |done| ==> IsTerm(done[i])
  {
  }

  lemma UnitsOf(done: seq<Term>, t: Term)
    ensures Units(done + [t]) == Units(done) + [t.unit] && |Units(done)| == |done|
  {
  }

  /** When nothing remains, what was read is the reading. */
  lemma Ends(text: string, done: seq<Term>)
    requires ReadSoFar(text, done, "") && done != []
    ensures Reads(text, done) && Total(done) >= 1 && forall all :: Reads(text, all) ==> all == done
  {
    hide Value;
    assert Render(done) + "" == Render(done);
    DurationPositive(done);
    forall all | Reads(text, all) ensures all == done {
      ReadingUnique(all, done);
    }
  }

  function Units(terms: seq<Term>): seq<TimeUnit> {
    seq(|terms|, i requires 0 <= i < |terms| => terms[i].unit)
  }

  /** The three checks of the loop body decide whether the order is kept. */
  lemma FollowsIff(done: seq<Term>, t: Term)
    requires InOrder(done) && IsTerm(t)
    ensures InOrder(done + [t]) <==>
      && Value(t.digits) >= 1
      && t.unit !in Units(done)
      && (done != [] ==> Rank(t.unit) > Rank(Units(done)[|done| - 1]))
  {
    var more := done + [t];
    assert more[|done|] == t;
    forall i | 0 <= i < |done| ensures more[i] == done[i] && Units(done)[i] == done[i].unit {
    }
    if done != [] && Rank(t.unit) > Rank(Units(done)[|done| - 1]) {
      forall i | 0 <= i < |done| ensures Rank(done[i].unit) < Rank(t.unit) {
        assert i == |done| - 1 || Rank(done[i].unit) < Rank(done[|done| - 1].unit);
      }
    }
    if InOrder(more) {
      forall i | 0 <= i < |done| ensures Units(done)[i] != t.unit {
        assert Rank(more[i].unit) < Rank(more[|done|].unit);
      }
    }
  }

  /** When the next token cannot follow, no reading exists. */
  lemma CannotContinue(text: string, done: seq<Term>, remaining: string)
    requires ReadSoFar(text, done, remaining) && remaining != ""
    requires !CanFollow(done, remaining)
    ensures forall all :: !Reads(text, all)
  {
    forall all | Reads(text, all) ensures false {
      TokenOf(text, done, remaining, all);
    }
  }

  lemma LetterOfUnit(c: char)
    requires UnitOf(c).Some?
    ensures Letter(UnitOf(c).value) == c
  {
  }

  /** When it can, every reading takes it. */
  lemma Continue(text: string, done: seq<Term>, remaining: string)
    requires ReadSoFar(text, done, remaining) && CanFollow(done, remaining)
    ensures
      var n := DigitRun(remaining);
      ReadSoFar(text, done + [Term(remaining[..n], UnitOf(remaining[n]).value)], remaining[n + 1..])
  {
    hide DigitRun, Value, UnitOf, Letter;
    var n := DigitRun(remaining);
    var term := Term(remaining[..n], UnitOf(remaining[n]).value);
    LetterOfUnit(remaining[n]);
    assert text == Render(done + [term]) + remaining[n + 1..] by {
      RenderAppend(done, [term]);
      assert [term][1..] == [];
      assert remaining == Render([term]) + remaining[n + 1..];
    }
    forall all | Reads(text, all) ensures done + [term] <= all {
      TokenOf(text, done, remaining, all);
      assert all[..|done| + 1] == done + [term];
    }
  }

  /** What a reading holds after `done` spells the rest of the text. */
  lemma RestRenders(text: string, done: seq<Term>, remaining: string, all: seq<Term>)
    requires ReadSoFar(text, done, remaining) && remaining != "" && Reads(text, all)
    ensures done < all && all == done + all[|done|..] && InOrder(all)
    ensures all[|done|..] != [] && Render(all[|done|..]) == remaining
  {
    hide Value, InOrder;
    var rest := all[|done|..];
    assert all == done + rest;
    RenderAppend(done, rest);
    Cancel(Render(done), Render(rest), remaining);
    assert rest != [];
  }

  /** The term of a reading after `done` is the token at the front of `remaining`. */
  lemma TokenOf(text: string, done: seq<Term>, remaining: string, all: seq<Term>)
    requires ReadSoFar(text, done, remaining) && remaining != "" && Reads(text, all)
    ensures done < all && CanFollow(done, remaining)
    ensures
      var n := DigitRun(remaining);
      all[|done|] == Term(remaining[..n], UnitOf(remaining[n]).value)
  {
    hide DigitRun, Value, UnitOf, Render, Reads, ReadSoFar;
    RestRenders(text, done, remaining, all);
    var rest := all[|done|..];
    assert rest[0] == all[|done|];
    NextTerm(rest);
    assert InOrder(done + [rest[0]]) by {
      PrefixInOrder(all, |done| + 1);
      assert all[..|done| + 1] == done + [rest[0]];
    }
  }

  lemma PrefixInOrder(all: seq<Term>, n: nat)
    requires InOrder(all) && n <= |all|
    ensures InOrder(all[..n])
  {
  }

  lemma Cancel(a: string, b: string, c: string)
    requires a + b == a + c
    ensures b == c
  {
    assert (a + b)[|a|..] == b && (a + c)[|a|..] == c;
  }

  lemma LetterIsUnit(u: TimeUnit)
    ensures UnitOf(Letter(u)) == Some(u) && !IsDecimal(Letter(u))
  {
    AsciiDecimals(Letter(u));
  }

  lemma NextTerm(terms: seq<Term>)
    requires terms != [] && IsTerm(terms[0])
    ensures
      var s, n := Render(terms), DigitRun(Render(terms));
      && 0 < n < |s| && s[..n] == terms[0].digits && UnitOf(s[n]) == Some(terms[0].unit)
      && s[n + 1..] == Render(terms[1..])
  {
    hide DigitRun, Value, IsDecimal;
    LetterIsUnit(terms[0].unit);
    var tail := [Letter(terms[0].unit)] + Render(terms[1..]);
    assert Render(terms) == terms[0].digits + tail;
    DigitRunOf(terms[0].digits, tail);
  }

  lemma {:induction false} DigitRunOf(digits: string, rest: string)
    requires AllDecimal(digits) && rest != "" && !IsDecimal(rest[0])
    ensures DigitRun(digits + rest) == |digits|
    decreases |digits|
  {
    if digits == "" {
      assert digits + rest == rest;
    } else {
      assert (digits + rest)[1..] == digits[1..] + rest;
      DigitRunOf(digits[1..], rest);
    }
  }

  lemma {:induction false} RenderAppend(a: seq<Term>, b: seq<Term>)
    ensures Render(a + b) == Render(a) + Render(b)
    decreases |a|
  {
    if a == [] {
      assert a + b == b;
    } else {
      assert (a + b)[1..] == a[1..] + b;
      RenderAppend(a[1..], b);
    }
  }

  /** Every duration lasts at least one second. */
  lemma {:induction false} DurationPositive(terms: seq<Term>)
    requires IsDuration(terms)
    ensures Total(terms) >= 1
  {
    var last := terms[|terms| - 1];
    assert Value(last.digits) >= 1 && Seconds(last.unit) >= 1;
    assert Value(last.digits) * Seconds(last.unit) >= 1;
  }

  /** One text, one reading: no two term lists print the same. */
  lemma {:induction false} ReadingUnique(a: seq<Term>, b: seq<Term>)
    requires InOrder(a) && InOrder(b) && Render(a) == Render(b)
    ensures a == b
    decreases |a|
  {
    if a != [] && b != [] {
      NextTerm(a);
      NextTerm(b);
      ReadingUnique(a[1..], b[1..]);
      assert a == [a[0]] + a[1..] && b == [b[0]] + b[1..];
    } else if a != [] {
      NextTerm(a);
    } else if b != [] {
      NextTerm(b);
    }
  }
}
