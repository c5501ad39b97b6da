/** What the relative phrases mean, read off the text itself: where a phrase stands, which of several
    counts, and the date-time it gives. */
module RelativePhrases {
  import opened Options
  import opened DateTimes
  import opened Weekdays
  import opened Text
  import opened RelativeSchedule
  import IsoFormat

  // ---------------------------------------------------------------- words in a text

  function Lowered(s: string): (r: string)
    ensures |r| == |s|
  {
    seq(|s|, k requires 0 <= k < |s| => Lower(s[k]))
  }

  lemma LettersAre(k: nat)
    requires k < 26
    ensures Lower("ABCDEFGHIJKLMNOPQRSTUVWXYZ"[k]) == Lower("abcdefghijklmnopqrstuvwxyz"[k]) ==
            "abcdefghijklmnopqrstuvwxyz"[k]
  {}

  /** What words are made of, by character code. */
  lemma WordCodes(c: char)
    ensures IsLetter(c) <==> 97 <= c as int <= 122 || 65 <= c as int <= 90
    ensures IsWord(c) <==> IsLetter(c) || 48 <= c as int <= 57 || c as int == 95
    ensures IsSpace(c) <==> c as int == 32 || 9 <= c as int <= 13 || 28 <= c as int <= 31
  {}

  /** The text from `i` to `j`, in lower case. */
  function Part(s: string, i: nat, j: nat): string
    requires i <= j <= |s|
  {
    Lowered(s[i..j])
  }

  predicate Spaces(s: string, i: nat, j: nat) {
    i < j <= |s| && forall k :: i <= k < j ==> IsSpace(s[k])
  }

  predicate Letters(s: string, i: nat, j: nat) {
    i < j <= |s| && forall k :: i <= k < j ==> IsLetter(s[k])
  }

  predicate Digits(s: string, i: nat, j: nat) {
    i < j <= |s| && forall k :: i <= k < j ==> IsDigit(s[k])
  }

  predicate StartsAfresh(s: string, i: nat)
    requires i <= |s|
  {
    i == 0 || !IsWord(s[i - 1])
  }

  predicate EndsThere(s: string, j: nat) {
    j < |s| ==> !IsWord(s[j])
  }

  lemma WordAtIsPart(s: string, i: nat, w: string)
    requires i + |w| <= |s|
    ensures WordAt(s, i, w) <==> Part(s, i, i + |w|) == w
  {
    var p := s[i..i + |w|];
    assert forall k :: 0 <= k < |w| ==> p[k] == s[i + k];
    if WordAt(s, i, w) {
      assert Lowered(p) == w;
    } else {
      var k :| 0 <= k < |w| && Lower(s[i + k]) != w[k];
      assert Lowered(p)[k] != w[k];
    }
  }

  predicate AllLetters(w: string) {
    w != "" && forall k :: 0 <= k < |w| ==> IsLetter(w[k])
  }

  lemma WordOfLetters(s: string, i: nat, w: string)
    requires WordAt(s, i, w) && AllLetters(w)
    ensures Letters(s, i, i + |w|)
  {
    forall k | i <= k < i + |w| ensures IsLetter(s[k]) {
      assert Lower(s[i + (k - i)]) == w[k - i];
    }
  }

  /** A whole word of letters has one length. */
  lemma OneWordEnds(s: string, i: nat, v: string, w: string)
    requires WordAt(s, i, v) && Boundary(s, i + |v|) && AllLetters(v)
    requires WordAt(s, i, w) && Boundary(s, i + |w|) && AllLetters(w)
    ensures v == w
  {
    WordOfLetters(s, i, v);
    WordOfLetters(s, i, w);
    assert |v| == |w|;
    forall k | 0 <= k < |v| ensures v[k] == w[k] { assert Lower(s[i + k]) == v[k]; }
  }

  predicate WordTable(names: seq<string>) {
    && (forall k :: 0 <= k < |names| ==> AllLetters(names[k]))
    && (forall j, k :: 0 <= j < k < |names| ==> names[j] != names[k])
  }

  /** A whole word of the table is found in its own place. */
  lemma WordFound(s: string, i: nat, names: seq<string>, k: nat)
    requires i <= |s| && WordTable(names) && k < |names|
    requires WordAt(s, i, names[k]) && Boundary(s, i + |names[k]|)
    ensures WordAtEnd(s, i, names, 0) == Some(k)
  {
    var r := WordAtEnd(s, i, names, 0);
    OneWordEnds(s, i, names[k], names[r.value]);
  }

  lemma UnitsAreTable()
    ensures WordTable(UNITS)
  {
    assert forall k :: 0 <= k < |UNITS| ==> AllLetters(UNITS[k]);
    assert forall j, k :: 0 <= j < k < |UNITS| ==> |UNITS[j]| != |UNITS[k]| || UNITS[j][0] != UNITS[k][0];
  }

  lemma WeekdaysAreTable()
    ensures WordTable(WEEKDAY_NAMES)
  {
    assert forall k :: 0 <= k < |WEEKDAY_NAMES| ==> AllLetters(WEEKDAY_NAMES[k]);
    assert forall j, k :: 0 <= j < k < |WEEKDAY_NAMES| ==>
      |WEEKDAY_NAMES[j]| != |WEEKDAY_NAMES[k]| || WEEKDAY_NAMES[j][0] != WEEKDAY_NAMES[k][0];
  }

  // ---------------------------------------------------------------- "in 30 minutes"

  /** The number of seconds in one of the eight words. */
  predicate UnitSays(w: string, seconds: int) {
    || (w in ["second", "seconds"] && seconds == 1)
    || (w in ["minute", "minutes"] && seconds == 60)
    || (w in ["hour", "hours"] && seconds == 3600)
    || (w in ["day", "days"] && seconds == 86400)
  }

  /** The number that digits, an article or one of ten words give. */
  predicate AmountSays(w: string, n: nat) {
    || (w != "" && IsoFormat.AllDigits(w) && n == IsoFormat.Number(w))
    || (w in ["a", "an"] && n == 1)
    || (1 <= n <= 10
        && w == ["one", "two", "three", "four", "five", "six", "seven", "eight", "nine", "ten"][n - 1])
  }

  /** From `i`, in any case: the word "in", white space, an amount from `a` to `b`, white space, and from
      `c` to `d` the word for a unit of so many seconds. */
  predicate DurationAt(s: string, i: nat, a: nat, b: nat, c: nat, d: nat, seconds: int) {
    && i + 2 <= |s| && StartsAfresh(s, i) && Part(s, i, i + 2) == "in" && Spaces(s, i + 2, a)
    && (Letters(s, a, b) || Digits(s, a, b)) && Spaces(s, b, c)
    && c <= d <= |s| && UnitSays(Part(s, c, d), seconds) && EndsThere(s, d)
  }

  /** `y` stands in `s` from `i` to `j`. */
  predicate Stands(s: string, i: nat, j: nat, y: string) {
    j == i + |y| && j <= |s| && forall k :: 0 <= k < |y| ==> s[i + k] == y[k]
  }

  lemma StandsPart(s: string, i: nat, j: nat, y: string)
    requires Stands(s, i, j, y)
    ensures Part(s, i, j) == Lowered(y)
  {
    assert s[i..j] == y;
  }

  lemma SpacesStand(s: string, i: nat, j: nat, y: string)
    requires Stands(s, i, j, y) && y != "" && forall k :: 0 <= k < |y| ==> IsSpace(y[k])
    ensures Spaces(s, i, j)
  {
    forall k | i <= k < j ensures IsSpace(s[k]) { assert s[i + (k - i)] == y[k - i]; }
  }

  lemma AmountStandsAt(s: string, i: nat, j: nat, y: string)
    requires Stands(s, i, j, y) && (Letters(y, 0, |y|) || Digits(y, 0, |y|))
    ensures Letters(s, i, j) || Digits(s, i, j)
  {
    forall k | i <= k < j ensures s[k] == y[k - i] { assert s[i + (k - i)] == y[k - i]; }
  }

  function Joined(pieces: seq<string>): string {
    if pieces == [] then "" else Joined(pieces[..|pieces| - 1]) + pieces[|pieces| - 1]
  }

  /** Where piece `k` begins. */
  function Start(pieces: seq<string>, k: nat): nat
    requires k <= |pieces|
  {
    |Joined(pieces[..k])|
  }

  lemma {:induction false} PieceStands(pieces: seq<string>, k: nat)
    requires k < |pieces|
    ensures Start(pieces, k + 1) == Start(pieces, k) + |pieces[k]|
    ensures Stands(Joined(pieces), Start(pieces, k), Start(pieces, k + 1), pieces[k])
    decreases |pieces|
  {
    var init := pieces[..|pieces| - 1];
    assert pieces[..k + 1][..k] == pieces[..k];
    if k < |init| {
      PieceStands(init, k);
      assert init[..k] == pieces[..k] && init[..k + 1] == pieces[..k + 1];
    } else {
      assert pieces[..k + 1] == pieces;
    }
  }

  lemma DurationPieces(prefix: string, lead: string, gap: string, amount: string, gap': string, unit: string,
                       rest: string)
    ensures var s := Joined([prefix, lead, gap, amount, gap', unit, rest]);
            var i, e := |prefix|, |prefix| + |lead|;
            var a := e + |gap|;
            var b := a + |amount|;
            var c := b + |gap'|;
            var d := c + |unit|;
            && Stands(s, 0, i, prefix) && Stands(s, i, e, lead) && Stands(s, e, a, gap) && Stands(s, a, b, amount)
            && Stands(s, b, c, gap') && Stands(s, c, d, unit) && Stands(s, d, |s|, rest)
  {
    hide Joined, Stands;
    var pieces := [prefix, lead, gap, amount, gap', unit, rest];
    assert pieces[..0] == [] && Joined([]) == "" by { StandsNowhere(); }
    PieceStands(pieces, 0);
    PieceStands(pieces, 1);
    PieceStands(pieces, 2);
    PieceStands(pieces, 3);
    PieceStands(pieces, 4);
    PieceStands(pieces, 5);
    PieceStands(pieces, 6);
    assert pieces[..7] == pieces;
  }

  lemma StandsNowhere()
    ensures Joined([]) == ""
  {}

  /** Such a phrase put together, between any two pieces of text that do not run into it. */
  lemma DurationWritten(prefix: string, lead: string, gap: string, amount: string, gap': string, unit: string,
                        rest: string, seconds: int) returns (a: nat, b: nat, c: nat, d: nat)
    requires Lowered(lead) == "in" && UnitSays(Lowered(unit), seconds)
    requires gap != "" && forall k :: 0 <= k < |gap| ==> IsSpace(gap[k])
    requires gap' != "" && forall k :: 0 <= k < |gap'| ==> IsSpace(gap'[k])
    requires Letters(amount, 0, |amount|) || Digits(amount, 0, |amount|)
    requires (prefix != "" ==> !IsWord(prefix[|prefix| - 1])) && (rest != "" ==> !IsWord(rest[0]))
    ensures var s := Joined([prefix, lead, gap, amount, gap', unit, rest]);
            DurationAt(s, |prefix|, a, b, c, d, seconds) && Part(s, a, b) == Lowered(amount)
  {
    hide UnitSays, IsWord, IsSpace, IsLetter, IsDigit, Part, Lowered, Lower, Spaces, Letters, Digits, Joined;
    var s := Joined([prefix, lead, gap, amount, gap', unit, rest]);
    DurationPieces(prefix, lead, gap, amount, gap', unit, rest);
    var i, e := |prefix|, |prefix| + |lead|;
    a, b := e + |gap|, e + |gap| + |amount|;
    c, d := b + |gap'|, b + |gap'| + |unit|;
    assert prefix != "" ==> s[0 + (i - 1)] == prefix[i - 1];
    assert rest != "" ==> s[d + 0] == rest[0];
    hide Stands;
    StandsPart(s, i, e, lead);
    StandsPart(s, a, b, amount);
    StandsPart(s, c, d, unit);
    SpacesStand(s, e, a, gap);
    SpacesStand(s, b, c, gap');
    AmountStandsAt(s, a, b, amount);
  }

  lemma UnitOf(w: string, seconds: int) returns (k: nat)
    requires UnitSays(w, seconds)
    ensures k < |UNITS| && UNITS[k] == w && UnitMicros(k) == seconds * 1000000
  {
    k := if w == "second" then 0 else if w == "seconds" then 1
         else if w == "minute" then 2 else if w == "minutes" then 3
         else if w == "hour" then 4 else if w == "hours" then 5
         else if w == "day" then 6 else 7;
  }

  lemma UnitAt(k: nat) returns (seconds: int)
    requires k < |UNITS|
    ensures UnitSays(UNITS[k], seconds) && UnitMicros(k) == seconds * 1000000
  {
    seconds := if k < 2 then 1 else if k < 4 then 60 else if k < 6 then 3600 else 86400;
  }

  lemma {:induction false} LettersEnd(s: string, i: nat, j: nat)
    requires i <= j <= |s| && (forall k :: i <= k < j ==> IsLetter(s[k])) && (j < |s| ==> !IsLetter(s[j]))
    ensures SkipLetters(s, i) == j
    decreases j - i
  {
    if i < j { LettersEnd(s, i + 1, j); }
  }

  lemma {:induction false} DigitsEnd(s: string, i: nat, j: nat)
    requires i <= j <= |s| && (forall k :: i <= k < j ==> IsDigit(s[k])) && (j < |s| ==> !IsDigit(s[j]))
    ensures SkipDigits(s, i) == j
    decreases j - i
  {
    if i < j { DigitsEnd(s, i + 1, j); }
  }

  lemma LeadFound(s: string, i: nat, w: string, a: nat)
    requires i + |w| <= |s| && StartsAfresh(s, i) && Part(s, i, i + |w|) == w && AllLetters(w)
    requires Spaces(s, i + |w|, a) && (a < |s| ==> !IsSpace(s[a]))
    ensures WordThenSpaces(s, i, w) == Some(a)
  {
    WordAtIsPart(s, i, w);
    WordOfLetters(s, i, w);
    SkipSpacesTo(s, i + |w|, a);
  }

  lemma NamedFound(s: string, c: nat, d: nat, names: seq<string>, k: nat)
    requires c <= d <= |s| && WordTable(names) && k < |names| && Part(s, c, d) == names[k] && EndsThere(s, d)
    ensures WordAtEnd(s, c, names, 0) == Some(k) && Letters(s, c, d)
  {
    WordAtIsPart(s, c, names[k]);
    WordOfLetters(s, c, names[k]);
    WordFound(s, c, names, k);
  }

  lemma DurationFound(s: string, i: nat, a: nat, b: nat, c: nat, d: nat, seconds: int) returns (k: nat)
    requires DurationAt(s, i, a, b, c, d, seconds)
    ensures InDurationAt(s, i) ==
            Some(Duration(if IsLetter(s[a]) then WordNumber(s, a, b) else Some(NumberAt(s, a, b - a)), k))
    ensures UnitMicros(k) == seconds * 1000000
  {
    hide UnitSays, IsSpace, IsLetter, IsDigit, IsWord, WordTable, UnitMicros, UNITS;
    hide SkipSpaces, SkipLetters, SkipDigits;
    hide WordNumber, WordAtEnd, WordThenSpaces;
    k := UnitOf(Part(s, c, d), seconds);
    UnitsAreTable();
    NamedFound(s, c, d, UNITS, k);
    LeadWords();
    AmountFound(s, a, b);
    LeadFound(s, i, "in", a);
    NoSpaceThere(s, c, d);
    SkipSpacesTo(s, b, c);
  }

  lemma LeadWords()
    ensures AllLetters("in") && AllLetters("next")
  {}

  lemma NoSpaceThere(s: string, i: nat, j: nat)
    requires Letters(s, i, j) || Digits(s, i, j)
    ensures !IsSpace(s[i])
  {}

  lemma AmountFound(s: string, a: nat, b: nat)
    requires (Letters(s, a, b) || Digits(s, a, b)) && b < |s| && IsSpace(s[b])
    ensures !IsSpace(s[a]) && (SkipLetters(s, a) > a <==> IsLetter(s[a]))
    ensures (if SkipLetters(s, a) > a then SkipLetters(s, a) else SkipDigits(s, a)) == b
  {
    if Letters(s, a, b) {
      LettersEnd(s, a, b);
    } else {
      LettersEnd(s, a, a);
      DigitsEnd(s, a, b);
    }
  }

  /** What the search finds at `i` is such a phrase. */
  lemma DurationIs(s: string, i: nat) returns (a: nat, b: nat, c: nat, d: nat, seconds: int)
    requires i <= |s| && InDurationAt(s, i).Some?
    ensures DurationAt(s, i, a, b, c, d, seconds)
  {
    hide UnitSays, WordTable, UnitMicros, UNITS, WordAt;
    a := WordThenSpaces(s, i, "in").value;
    WordAtIsPart(s, i, "in");
    LeadWords();
    WordOfLetters(s, i, "in");
    b := if SkipLetters(s, a) > a then SkipLetters(s, a) else SkipDigits(s, a);
    c := SkipSpaces(s, b);
    var k := WordAtEnd(s, c, UNITS, 0).value;
    d := c + |UNITS[k]|;
    UnitsAreTable();
    WordOfLetters(s, c, UNITS[k]);
    WordAtIsPart(s, c, UNITS[k]);
    seconds := UnitAt(k);
  }

  // ---------------------------------------------------------------- the amount

  lemma NumberWordsAreTable()
    ensures WordTable(NUMBER_WORDS) && |NUMBER_WORDS| == 10
    ensures forall k :: 0 <= k < 10 ==> |NUMBER_WORDS[k]| >= 3
  {
    assert forall k :: 0 <= k < |NUMBER_WORDS| ==> AllLetters(NUMBER_WORDS[k]);
    assert forall j, k :: 0 <= j < k < |NUMBER_WORDS| ==>
      NUMBER_WORDS[j][0] != NUMBER_WORDS[k][0] || NUMBER_WORDS[j][1] != NUMBER_WORDS[k][1];
  }

  lemma {:induction false} NumberWordFound(s: string, i: nat, j: nat, from: nat, k: nat)
    requires i <= j <= |s| && from <= k < |NUMBER_WORDS| && Part(s, i, j) == NUMBER_WORDS[k]
    requires WordTable(NUMBER_WORDS)
    ensures NumberWordFrom(s, i, j, from) == Some(k + 1)
    decreases k - from
  {
    WordAtIsPart(s, i, NUMBER_WORDS[k]);
    if from < k {
      if j - i == |NUMBER_WORDS[from]| { WordAtIsPart(s, i, NUMBER_WORDS[from]); }
      NumberWordFound(s, i, j, from + 1, k);
    }
  }

  lemma {:induction false} NumberWordIs(s: string, i: nat, j: nat, from: nat)
    requires i <= j <= |s| && from <= |NUMBER_WORDS| && NumberWordFrom(s, i, j, from).Some?
    ensures var n := NumberWordFrom(s, i, j, from).value;
            from < n <= |NUMBER_WORDS| && Part(s, i, j) == NUMBER_WORDS[n - 1]
    decreases |NUMBER_WORDS| - from
  {
    if j - i == |NUMBER_WORDS[from]| && WordAt(s, i, NUMBER_WORDS[from]) {
      WordAtIsPart(s, i, NUMBER_WORDS[from]);
    } else {
      NumberWordIs(s, i, j, from + 1);
    }
  }

  lemma AmountWordFound(s: string, a: nat, b: nat, n: nat)
    requires Letters(s, a, b) && AmountSays(Part(s, a, b), n)
    ensures WordNumber(s, a, b) == Some(n)
  {
    var w := Part(s, a, b);
    assert s[a..b][0] == s[a];
    assert w[0] == Lower(s[a]) && !IsDigit(w[0]);
    NumberWordsAreTable();
    if w in ["a", "an"] {
      WordAtIsPart(s, a, w);
    } else {
      assert w == NUMBER_WORDS[n - 1];
      NumberWordFound(s, a, b, 0, n - 1);
    }
  }

  lemma AmountWordIs(s: string, a: nat, b: nat)
    requires Letters(s, a, b) && WordNumber(s, a, b).Some?
    ensures AmountSays(Part(s, a, b), WordNumber(s, a, b).value)
  {
    if b - a == 1 && WordAt(s, a, "a") {
      WordAtIsPart(s, a, "a");
    } else if b - a == 2 && WordAt(s, a, "an") {
      WordAtIsPart(s, a, "an");
    } else {
      NumberWordIs(s, a, b, 0);
    }
  }

  lemma AmountDigits(s: string, a: nat, b: nat, n: nat)
    requires Digits(s, a, b)
    ensures AmountSays(Part(s, a, b), n) <==> n == NumberAt(s, a, b - a)
  {
    assert s[a..b] == Part(s, a, b);
    assert IsDigit(Part(s, a, b)[0]);
  }

  /** The amount that the search finds is the one the text names, if it names any. */
  lemma AmountIs(s: string, a: nat, b: nat, n: nat)
    requires Letters(s, a, b) || Digits(s, a, b)
    ensures AmountSays(Part(s, a, b), n) <==>
            Some(n) == if IsLetter(s[a]) then WordNumber(s, a, b) else Some(NumberAt(s, a, b - a))
  {
    hide AmountSays, WordNumber;
    if Letters(s, a, b) {
      if AmountSays(Part(s, a, b), n) { AmountWordFound(s, a, b, n); }
      if WordNumber(s, a, b).Some? { AmountWordIs(s, a, b); }
    } else {
      AmountDigits(s, a, b, n);
    }
  }

  // ---------------------------------------------------------------- the first duration of a text

  ghost predicate HasDurationAt(s: string, i: nat) {
    exists a, b, c, d, seconds :: DurationAt(s, i, a, b, c, d, seconds)
  }

  lemma HasDurationIff(s: string, i: nat)
    ensures HasDurationAt(s, i) <==> i <= |s| && InDurationAt(s, i).Some?
  {
    hide DurationAt, InDurationAt;
    if HasDurationAt(s, i) {
      var a, b, c, d, seconds :| DurationAt(s, i, a, b, c, d, seconds);
      DurationFits(s, i, a, b, c, d, seconds);
      var k := DurationFound(s, i, a, b, c, d, seconds);
    }
    if i <= |s| && InDurationAt(s, i).Some? {
      var a, b, c, d, seconds := DurationIs(s, i);
    }
  }

  lemma DurationFits(s: string, i: nat, a: nat, b: nat, c: nat, d: nat, seconds: int)
    requires DurationAt(s, i, a, b, c, d, seconds)
    ensures i <= |s|
  {}

  /** The search stops at the first place where there is one. */
  lemma {:induction false} FirstDurationFound(s: string, from: nat, i: nat)
    requires from <= i <= |s| && HasDurationAt(s, i) && forall k: nat :: from <= k < i ==> !HasDurationAt(s, k)
    ensures SearchInDuration(s, from) == InDurationAt(s, i) && InDurationAt(s, i).Some?
    decreases i - from
  {
    hide InDurationAt, HasDurationAt;
    HasDurationIff(s, from);
    if from < i { FirstDurationFound(s, from + 1, i); }
  }

  lemma {:induction false} NoDurationFound(s: string, from: nat)
    requires from <= |s| && forall k: nat :: from <= k ==> !HasDurationAt(s, k)
    ensures SearchInDuration(s, from).None?
    decreases |s| - from
  {
    hide InDurationAt, HasDurationAt;
    HasDurationIff(s, from);
    if from < |s| { NoDurationFound(s, from + 1); }
  }

  /** The first duration of a text without recurring words decides: the run is so many seconds after now,
      past year 9999 it is an error, and an amount that names no number leaves the text to the model. */
  lemma DurationPhrase(
      text: string, now: DateTime, i: nat, a: nat, b: nat, c: nat, d: nat, seconds: int, n: nat)
    requires Valid(now) && !IsRecurring(text)
    requires DurationAt(text, i, a, b, c, d, seconds) && forall k: nat :: k < i ==> !HasDurationAt(text, k)
    ensures AmountSays(Part(text, a, b), n) ==>
      Parse(text, now) == match Plus(now, n * seconds * 1000000)
                          case None => OverflowError
                          case Some(t) => Phrase(t)
    ensures (forall m :: !AmountSays(Part(text, a, b), m)) ==> Parse(text, now) == NoPhrase
  {
    hide DurationAt, SearchInDuration, AmountSays, UnitMicros, HasDurationAt, IsRecurring, HasKeyword, Part;
    AmountStands(text, i, a, b, c, d, seconds);
    var amount, u := DurationSearched(text, i, a, b, c, d, seconds);
    assert n * (seconds * 1000000) == n * seconds * 1000000;
  }

  lemma DurationSearched(s: string, i: nat, a: nat, b: nat, c: nat, d: nat, seconds: int)
    returns (amount: Option<nat>, u: nat)
    requires a < b <= |s|
    requires DurationAt(s, i, a, b, c, d, seconds) && forall k: nat :: k < i ==> !HasDurationAt(s, k)
    ensures SearchInDuration(s, 0) == Some(Duration(amount, u)) && UnitMicros(u) == seconds * 1000000
    ensures forall n: nat :: AmountSays(Part(s, a, b), n) <==> amount == Some(n)
  {
    hide AmountSays, InDurationAt, HasDurationAt, DurationAt, UnitMicros, SearchInDuration, WordNumber, Part, IsLetter;
    DurationFits(s, i, a, b, c, d, seconds);
    assert HasDurationAt(s, i) by { HasDurationHere(s, i, a, b, c, d, seconds); }
    FirstDurationFound(s, 0, i);
    u := DurationFound(s, i, a, b, c, d, seconds);
    AmountStands(s, i, a, b, c, d, seconds);
    amount := if IsLetter(s[a]) then WordNumber(s, a, b) else Some(NumberAt(s, a, b - a));
    forall n: nat ensures AmountSays(Part(s, a, b), n) <==> amount == Some(n) { AmountIs(s, a, b, n); }
  }

  lemma AmountStands(s: string, i: nat, a: nat, b: nat, c: nat, d: nat, seconds: int)
    requires DurationAt(s, i, a, b, c, d, seconds)
    ensures (Letters(s, a, b) || Digits(s, a, b)) && a < b <= |s|
  {}

  lemma HasDurationHere(s: string, i: nat, a: nat, b: nat, c: nat, d: nat, seconds: int)
    requires DurationAt(s, i, a, b, c, d, seconds)
    ensures HasDurationAt(s, i)
  {}

  // ---------------------------------------------------------------- "5 pm", "8:15 am"

  /** From `i`: an hour of one or two digits to `a`, minutes after a colon to `e` or none, white space
      or none to `j`, and "am" or "pm" in any case. */
  predicate ClockAt(s: string, i: nat, a: nat, e: nat, j: nat, hour: nat, minute: nat, pm: bool) {
    && Digits(s, i, a) && a <= i + 2 && hour == IsoFormat.Number(s[i..a])
    && (if e == a then minute == 0
        else e == a + 3 && Digits(s, a + 1, e) && s[a] == ':' && minute == IsoFormat.Number(s[a + 1..e]))
    && e <= j && j + 2 <= |s| && (forall k :: e <= k < j ==> IsSpace(s[k]))
    && Part(s, j, j + 2) == (if pm then "pm" else "am") && EndsThere(s, j + 2)
  }

  lemma NoSuffixTwice(s: string, j: nat)
    requires j + 2 <= |s|
    ensures !(WordAt(s, j, "am") && WordAt(s, j, "pm"))
    ensures WordAt(s, j, "am") || WordAt(s, j, "pm") ==> IsLetter(s[j]) && IsLetter(s[j + 1])
  {
    assert "am"[0] == 'a' && "pm"[0] == 'p' && "am"[1] == "pm"[1] == 'm';
    assert Lower(s[j + 0]) == Lower(s[j]);
  }

  lemma SuffixFound(s: string, e: nat, j: nat, pm: bool)
    requires e <= j && j + 2 <= |s| && (forall k :: e <= k < j ==> IsSpace(s[k]))
    requires Part(s, j, j + 2) == (if pm then "pm" else "am") && EndsThere(s, j + 2)
    ensures MeridiemAt(s, e) == Some(pm) && IsLetter(s[j])
  {
    WordAtIsPart(s, j, if pm then "pm" else "am");
    NoSuffixTwice(s, j);
    SkipSpacesTo(s, e, j);
  }

  lemma SuffixIs(s: string, e: nat) returns (j: nat)
    requires e <= |s| && MeridiemAt(s, e).Some?
    ensures e <= j && j + 2 <= |s| && (forall k :: e <= k < j ==> IsSpace(s[k]))
    ensures Part(s, j, j + 2) == (if MeridiemAt(s, e).value then "pm" else "am") && EndsThere(s, j + 2)
  {
    j := SkipSpaces(s, e);
    NoSuffixTwice(s, j);
    WordAtIsPart(s, j, if MeridiemAt(s, e).value then "pm" else "am");
  }

  lemma ClockFound(s: string, i: nat, a: nat, e: nat, j: nat, hour: nat, minute: nat, pm: bool)
    requires ClockAt(s, i, a, e, j, hour, minute, pm)
    ensures HourAt(s, i) == Some(Written(hour, minute, pm))
  {
    SuffixFound(s, e, j, pm);
    hide MeridiemAt, Part;
    assert AfterHour(s, a, hour) == Some(Written(hour, minute, pm));
    if a == i + 1 { assert !DigitsAt(s, i, 2); }
  }

  lemma ClockIs(s: string, i: nat) returns (a: nat, e: nat, j: nat)
    requires i <= |s| && HourAt(s, i).Some?
    ensures var w := HourAt(s, i).value; ClockAt(s, i, a, e, j, w.hour, w.minute, w.pm)
  {
    hide MeridiemAt, Part;
    a := if DigitsAt(s, i, 2) && AfterHour(s, i + 2, NumberAt(s, i, 2)).Some? then i + 2 else i + 1;
    e := if a < |s| && s[a] == ':' && DigitsAt(s, a + 1, 2) && MeridiemAt(s, a + 3).Some? then a + 3 else a;
    j := SuffixIs(s, e);
  }

  ghost predicate HasClockAt(s: string, i: nat) {
    exists a, e, j, hour, minute, pm :: ClockAt(s, i, a, e, j, hour, minute, pm)
  }

  lemma HasClockIff(s: string, i: nat)
    ensures HasClockAt(s, i) <==> i <= |s| && HourAt(s, i).Some?
  {
    hide HourAt;
    if HasClockAt(s, i) {
      var a, e, j, hour, minute, pm :| ClockAt(s, i, a, e, j, hour, minute, pm);
      ClockFound(s, i, a, e, j, hour, minute, pm);
    }
    if i <= |s| && HourAt(s, i).Some? {
      hide ClockAt;
      var a, e, j := ClockIs(s, i);
    }
  }

  lemma {:induction false} FirstClockFound(s: string, from: nat, i: nat)
    requires from <= i <= |s| && HasClockAt(s, i) && forall k: nat :: from <= k < i ==> !HasClockAt(s, k)
    ensures SearchHour(s, from) == HourAt(s, i)
    decreases i - from
  {
    hide HourAt, HasClockAt;
    HasClockIff(s, from);
    if from < i { FirstClockFound(s, from + 1, i); }
  }

  lemma {:induction false} NoClockFound(s: string, from: nat)
    requires from <= |s| && forall k: nat :: from <= k ==> !HasClockAt(s, k)
    ensures SearchHour(s, from).None?
    decreases |s| - from
  {
    hide HourAt, HasClockAt;
    HasClockIff(s, from);
    if from < |s| { NoClockFound(s, from + 1); }
  }

  /** The first written time of a text is read as on a 12-hour clock, 12 being midnight or noon; hours past
      23 and minutes past 59 are no time of day. */
  lemma WrittenTime(s: string, i: nat, a: nat, e: nat, j: nat, hour: nat, minute: nat, pm: bool)
    requires ClockAt(s, i, a, e, j, hour, minute, pm) && forall k: nat :: k < i ==> !HasClockAt(s, k)
    ensures var h := if hour == 12 then (if pm then 12 else 0) else if pm then hour + 12 else hour;
            AtTime(s) == if h <= 23 && minute <= 59 then Some(ClockTime(h, minute)) else None
  {
    ClockFound(s, i, a, e, j, hour, minute, pm);
    assert i <= |s|;
    assert HasClockAt(s, i);
    hide ClockAt, HourAt, HasClockAt, Part;
    FirstClockFound(s, 0, i);
    AtIsIdle(s, 0);
  }

  lemma NoWrittenTime(s: string)
    requires forall k: nat :: !HasClockAt(s, k)
    ensures AtTime(s).None?
  {
    NoClockFound(s, 0);
    AtIsIdle(s, 0);
  }

  /** The time of day of a text: its time-of-day word counts most, then its written time, then 9 o'clock. */
  ghost predicate TimeSays(s: string, hour: int, minute: int) {
    if HasKeyword(s, "morning") then hour == 9 && minute == 0
    else if HasKeyword(s, "noon") then hour == 12 && minute == 0
    else if HasKeyword(s, "afternoon") then hour == 14 && minute == 0
    else if HasKeyword(s, "evening") then hour == 18 && minute == 0
    else if HasKeyword(s, "midnight") then hour == 0 && minute == 0
    else if AtTime(s).Some? then AtTime(s).value == ClockTime(hour, minute)
    else hour == 9 && minute == 0
  }

  lemma TimeOfDaySays(s: string) returns (c: ClockTime)
    ensures TimeSays(s, c.hour, c.minute) && 0 <= c.hour <= 23 && 0 <= c.minute <= 59
    ensures c == if TimeOfDay(s).Some? then TimeOfDay(s).value else DEFAULT_TIME
  {
    hide HasKeyword, AtTime;
    assert TimeOfDayFrom(s, 5) == AtTime(s);
    assert TimeOfDayFrom(s, 3) == if HasKeyword(s, "evening") then Some(ClockTime(18, 0)) else TimeOfDayFrom(s, 4);
    assert TimeOfDayFrom(s, 1) == if HasKeyword(s, "noon") then Some(ClockTime(12, 0)) else TimeOfDayFrom(s, 2);
    c := if TimeOfDay(s).Some? then TimeOfDay(s).value else DEFAULT_TIME;
  }

  // ---------------------------------------------------------------- "tomorrow", "next friday"

  /** The date `days` ahead at the text's time of day, or an error past year 9999. */
  ghost predicate RunsAt(p: Parsed, text: string, now: DateTime, day: int) {
    if day > MAX_ORDINAL then p == OverflowError
    else p.Phrase? && TimeSays(text, p.runAt.hour, p.runAt.minute)
         && p.runAt == DateTime(day, p.runAt.hour, p.runAt.minute, 0, 0, now.offset)
  }

  lemma OnDayRuns(text: string, now: DateTime, days: int)
    requires Valid(now) && days >= 1
    ensures RunsAt(OnDay(text, now, days), text, now, now.day + days)
  {
    var c := TimeOfDaySays(text);
    ClockRange(now);
    var target := Plus(now, days * DAY_MICROS);
    if target.Some? { MovedByDays(now, target.value, days); }
    hide TimeSays, TimeOfDay;
  }

  /** A text without recurring words and without a duration that holds "tomorrow" means the next day. */
  lemma TomorrowPhrase(text: string, now: DateTime)
    requires Valid(now) && !IsRecurring(text) && HasKeyword(text, "tomorrow")
    requires forall k: nat :: !HasDurationAt(text, k)
    ensures RunsAt(Parse(text, now), text, now, now.day + 1)
  {
    NoDurationFound(text, 0);
    hide IsRecurring, HasKeyword, HasDurationAt;
    OnDayRuns(text, now, 1);
  }

  /** The number of a weekday's name. */
  predicate WeekdaySays(w: string, n: int) {
    0 <= n < 7 && w == ["monday", "tuesday", "wednesday", "thursday", "friday", "saturday", "sunday"][n]
  }

  /** From `i`, in any case: the word "next", white space, and from `a` to `b` the name of weekday `n`. */
  predicate NextAt(s: string, i: nat, a: nat, b: nat, n: int) {
    && i + 4 <= |s| && StartsAfresh(s, i) && Part(s, i, i + 4) == "next" && Spaces(s, i + 4, a)
    && a <= b <= |s| && WeekdaySays(Part(s, a, b), n) && EndsThere(s, b)
  }

  ghost predicate HasNextAt(s: string, i: nat) {
    exists a, b, n :: NextAt(s, i, a, b, n)
  }

  lemma NextFound(s: string, i: nat, a: nat, b: nat, n: int)
    requires NextAt(s, i, a, b, n)
    ensures NextWeekdayAt(s, i) == Some(n)
  {
    WeekdaysAreTable();
    LeadWords();
    NamedFound(s, a, b, WEEKDAY_NAMES, n);
    hide WordTable, Part;
    NoSpaceThere(s, a, b);
    LeadFound(s, i, "next", a);
  }

  lemma NextIs(s: string, i: nat) returns (a: nat, b: nat)
    requires i <= |s| && NextWeekdayAt(s, i).Some?
    ensures NextAt(s, i, a, b, NextWeekdayAt(s, i).value)
  {
    hide WordTable, WordAt;
    a := WordThenSpaces(s, i, "next").value;
    LeadWords();
    WordOfLetters(s, i, "next");
    WordAtIsPart(s, i, "next");
    var name := WEEKDAY_NAMES[NextWeekdayAt(s, i).value];
    b := a + |name|;
    WeekdaysAreTable();
    TableWord(WEEKDAY_NAMES, NextWeekdayAt(s, i).value);
    WordOfLetters(s, a, name);
    WordAtIsPart(s, a, name);
  }

  lemma TableWord(names: seq<string>, k: nat)
    requires WordTable(names) && k < |names|
    ensures AllLetters(names[k])
  {}

  lemma HasNextIff(s: string, i: nat)
    ensures HasNextAt(s, i) <==> i <= |s| && NextWeekdayAt(s, i).Some?
  {
    hide NextWeekdayAt;
    if HasNextAt(s, i) {
      var a, b, n :| NextAt(s, i, a, b, n);
      NextFound(s, i, a, b, n);
    }
    if i <= |s| && NextWeekdayAt(s, i).Some? {
      hide NextAt;
      var a, b := NextIs(s, i);
    }
  }

  lemma {:induction false} FirstNextFound(s: string, from: nat, i: nat)
    requires from <= i <= |s| && HasNextAt(s, i) && forall k: nat :: from <= k < i ==> !HasNextAt(s, k)
    ensures SearchNextWeekday(s, from) == NextWeekdayAt(s, i)
    decreases i - from
  {
    hide NextWeekdayAt, HasNextAt;
    HasNextIff(s, from);
    if from < i { FirstNextFound(s, from + 1, i); }
  }

  lemma {:induction false} NoNextFound(s: string, from: nat)
    requires from <= |s| && forall k: nat :: from <= k ==> !HasNextAt(s, k)
    ensures SearchNextWeekday(s, from).None?
    decreases |s| - from
  {
    hide NextWeekdayAt, HasNextAt;
    HasNextIff(s, from);
    if from < |s| { NoNextFound(s, from + 1); }
  }

  lemma NextSearched(s: string, i: nat, a: nat, b: nat, n: int)
    requires NextAt(s, i, a, b, n) && forall k: nat :: k < i ==> !HasNextAt(s, k)
    ensures SearchNextWeekday(s, 0) == Some(n)
  {
    NextFound(s, i, a, b, n);
    assert HasNextAt(s, i);
    assert i <= |s|;
    hide NextAt, HasNextAt, NextWeekdayAt;
    FirstNextFound(s, 0, i);
  }

  /** A text that holds none of these means the first weekday it names after "next", one to seven days
      ahead. */
  lemma NextPhrase(text: string, now: DateTime, i: nat, a: nat, b: nat, n: int) returns (day: int)
    requires Valid(now) && !IsRecurring(text) && !HasKeyword(text, "tomorrow")
    requires forall k: nat :: !HasDurationAt(text, k)
    requires NextAt(text, i, a, b, n) && forall k: nat :: k < i ==> !HasNextAt(text, k)
    ensures now.day < day <= now.day + 7 && DayOfWeek(day) == n
    ensures RunsAt(Parse(text, now), text, now, day)
  {
    hide HasDurationAt, IsRecurring, HasKeyword, SearchInDuration, SearchNextWeekday, NextAt, HasNextAt, Plus, RunsAt;
    NextSearched(text, i, a, b, n);
    NoDurationFound(text, 0);
    DaysAheadIsLeast(now, n);
    day := now.day + DaysAhead(now, n);
    OnDayRuns(text, now, DaysAhead(now, n));
  }

  // ---------------------------------------------------------------- what is left to the language model

  /** The words that make a schedule recurring. */
  lemma RecurringIff(s: string)
    ensures IsRecurring(s) <==>
      || HasKeyword(s, "every") || HasKeyword(s, "each") || HasKeyword(s, "daily") || HasKeyword(s, "weekly")
      || HasKeyword(s, "hourly") || HasKeyword(s, "biweekly") || HasKeyword(s, "fortnightly")
      || HasKeyword(s, "weekday") || HasKeyword(s, "weekdays") || HasKeyword(s, "weekend")
      || HasKeyword(s, "weekends")
  {
    hide HasKeyword;
    assert RECURRING[0] == "every" && RECURRING[1] == "each" && RECURRING[2] == "daily" && RECURRING[3] == "weekly";
    assert RECURRING[4] == "hourly" && RECURRING[5] == "biweekly" && RECURRING[6] == "fortnightly";
    assert RECURRING[7] == "weekday" && RECURRING[8] == "weekdays" && RECURRING[9] == "weekend";
    assert RECURRING[10] == "weekends";
  }

  /** A duration whose amount is a word that names no number. */
  ghost predicate NoNumberAt(s: string, i: nat) {
    exists a: nat, b: nat, c: nat, d: nat, seconds ::
      DurationAt(s, i, a, b, c, d, seconds) && a <= b <= |s| && forall n: nat :: !AmountSays(Part(s, a, b), n)
  }

  lemma {:induction false} DurationPlace(s: string, from: nat) returns (i: nat)
    requires from <= |s| && SearchInDuration(s, from).Some?
    ensures from <= i <= |s| && HasDurationAt(s, i) && forall k: nat :: from <= k < i ==> !HasDurationAt(s, k)
    ensures InDurationAt(s, i) == SearchInDuration(s, from)
    decreases |s| - from
  {
    hide InDurationAt, HasDurationAt;
    HasDurationIff(s, from);
    i := from;
    if InDurationAt(s, from).None? { i := DurationPlace(s, from + 1); }
  }

  lemma {:induction false} NextPlace(s: string, from: nat) returns (i: nat)
    requires from <= |s| && SearchNextWeekday(s, from).Some?
    ensures HasNextAt(s, i)
    decreases |s| - from
  {
    hide NextWeekdayAt, HasNextAt;
    HasNextIff(s, from);
    i := from;
    if NextWeekdayAt(s, from).None? { i := NextPlace(s, from + 1); }
  }

  ghost predicate FirstHasNoNumber(s: string) {
    exists i: nat :: NoNumberAt(s, i) && forall k: nat :: k < i ==> !HasDurationAt(s, k)
  }

  lemma NoNumberIff(s: string)
    ensures FirstHasNoNumber(s) <==> SearchInDuration(s, 0).Some? && SearchInDuration(s, 0).value.amount.None?
  {
    hide HasDurationAt, DurationAt, AmountSays, SearchInDuration, InDurationAt, Part;
    if FirstHasNoNumber(s) {
      var i: nat :| NoNumberAt(s, i) && forall k: nat :: k < i ==> !HasDurationAt(s, k);
      var a: nat, b: nat, c: nat, d: nat, seconds :|
        DurationAt(s, i, a, b, c, d, seconds) && a <= b <= |s| && forall n: nat :: !AmountSays(Part(s, a, b), n);
      AmountStands(s, i, a, b, c, d, seconds);
      var amount, u := DurationSearched(s, i, a, b, c, d, seconds);
      assert forall n: nat :: amount != Some(n);
    }
    if SearchInDuration(s, 0).Some? && SearchInDuration(s, 0).value.amount.None? {
      var i := DurationPlace(s, 0);
      var a, b, c, d, seconds := DurationIs(s, i);
      AmountStands(s, i, a, b, c, d, seconds);
      var amount, u := DurationSearched(s, i, a, b, c, d, seconds);
      assert NoNumberAt(s, i);
    }
  }

  /** Exactly these texts hold no phrase: those with a recurring word, those whose first duration has an
      amount that names no number, and those without a duration, "tomorrow" and a next weekday. */
  lemma NoPhraseIff(text: string, now: DateTime)
    requires Valid(now)
    ensures Parse(text, now).NoPhrase? <==>
      || IsRecurring(text)
      || FirstHasNoNumber(text)
      || ((forall k: nat :: !HasDurationAt(text, k)) && !HasKeyword(text, "tomorrow")
          && forall k: nat :: !HasNextAt(text, k))
  {
    hide HasDurationAt, HasNextAt, FirstHasNoNumber, IsRecurring, HasKeyword, SearchInDuration, SearchNextWeekday, Plus;
    NoNumberIff(text);
    if SearchInDuration(text, 0).Some? {
      var i := DurationPlace(text, 0);
    } else if exists k: nat :: HasDurationAt(text, k) {
      DurationIsSearched(text);
    }
    if SearchNextWeekday(text, 0).Some? {
      var i := NextPlace(text, 0);
    } else if exists k: nat :: HasNextAt(text, k) {
      NextIsSearched(text);
    }
  }

  lemma DurationIsSearched(s: string)
    requires exists k: nat :: HasDurationAt(s, k)
    ensures SearchInDuration(s, 0).Some?
  {
    hide HasDurationAt;
    var k: nat :| HasDurationAt(s, k);
    HasDurationIff(s, k);
    var i := LeastDuration(s, k, 0);
    FirstDurationFound(s, 0, i);
  }

  lemma {:induction false} LeastDuration(s: string, k: nat, from: nat) returns (i: nat)
    requires from <= k && HasDurationAt(s, k)
    ensures from <= i <= k && HasDurationAt(s, i) && forall n: nat :: from <= n < i ==> !HasDurationAt(s, n)
    decreases k - from
  {
    hide HasDurationAt;
    i := from;
    if !HasDurationAt(s, from) { i := LeastDuration(s, k, from + 1); }
  }

  lemma NextIsSearched(s: string)
    requires exists k: nat :: HasNextAt(s, k)
    ensures SearchNextWeekday(s, 0).Some?
  {
    hide HasNextAt;
    var k: nat :| HasNextAt(s, k);
    HasNextIff(s, k);
    var i := LeastNext(s, k, 0);
    FirstNextFound(s, 0, i);
    HasNextIff(s, i);
  }

  lemma {:induction false} LeastNext(s: string, k: nat, from: nat) returns (i: nat)
    requires from <= k && HasNextAt(s, k)
    ensures from <= i <= k && HasNextAt(s, i) && forall n: nat :: from <= n < i ==> !HasNextAt(s, n)
    decreases k - from
  {
    hide HasNextAt;
    i := from;
    if !HasNextAt(s, from) { i := LeastNext(s, k, from + 1); }
  }
}
