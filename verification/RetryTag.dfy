/**
 The Retry-After tag that services append to a message and the gateway takes off again: a number printed
 as "[Retry-After: n]", two regular expressions, and the proof that the round trip loses nothing.
 */
module RetryTag {
  import opened Wrappers

  /** The characters matched by \s and removed by trim. */
  predicate IsSpace(c: char) {
    || '\t' <= c <= '\r' || c == ' ' || c == '\U{00A0}' || c == '\U{1680}' || '\U{2000}' <= c <= '\U{200A}'
    || c == '\U{2028}' || c == '\U{2029}' || c == '\U{202F}' || c == '\U{205F}' || c == '\U{3000}'
    || c == '\U{FEFF}'
  }

  predicate IsDigit(c: char) {
    '0' <= c <= '9'
  }

  // ---------------------------------------------------------------------------------------------
  // Numbers
  // ---------------------------------------------------------------------------------------------

  function Digit(d: nat): (c: char)
    requires d < 10
    ensures IsDigit(c) && (c as int) == ('0' as int) + d
  {
    '0' + (d as char)
  }

  /** A number in a template literal. */
  function Print(n: nat): (s: string)
    ensures s != [] && forall i :: 0 <= i < |s| ==> IsDigit(s[i])
  {
    if n < 10 then [Digit(n)] else Print(n / 10) + [Digit(n % 10)]
  }

  function Value(c: char): (d: nat)
    requires IsDigit(c)
    ensures d < 10
  {
    (c as int) - ('0' as int)
  }

  /** parseInt of a string of digits. */
  function ParseInt(s: string): nat
    requires forall i :: 0 <= i < |s| ==> IsDigit(s[i])
  {
    if s == [] then 0 else ParseInt(s[..|s| - 1]) * 10 + Value(s[|s| - 1])
  }

  lemma {:induction false} ParsePrinted(n: nat)
    ensures ParseInt(Print(n)) == n
  {
    if n >= 10 {
      ParsePrinted(n / 10);
      assert Print(n)[..|Print(n)| - 1] == Print(n / 10);
    }
  }

  // ---------------------------------------------------------------------------------------------
  // Matching
  // ---------------------------------------------------------------------------------------------

  function SkipSpaces(s: string, i: nat): (j: nat)
    requires i <= |s|
    ensures i <= j <= |s|
    ensures forall k :: i <= k < j ==> IsSpace(s[k])
    ensures j < |s| ==> !IsSpace(s[j])
    decreases |s| - i
  {
    if i < |s| && IsSpace(s[i]) then SkipSpaces(s, i + 1) else i
  }

  function SkipDigits(s: string, i: nat): (j: nat)
    requires i <= |s|
    ensures i <= j <= |s|
    ensures forall k :: i <= k < j ==> IsDigit(s[k])
    ensures j < |s| ==> !IsDigit(s[j])
    decreases |s| - i
  {
    if i < |s| && IsDigit(s[i]) then SkipDigits(s, i + 1) else i
  }

  const OPEN: string := "[Retry-After:"

  /** Where the digits of a match lie; the match ends with the bracket after them. */
  datatype Tag = Tag(from: nat, to: nat)

  /**
   \[Retry-After:\s*(\d+)\] at position i.  No character is both a space and a digit or a bracket, so
   greedy matching needs no backtracking.
   */
  function TagAt(s: string, i: nat): (r: Option<Tag>)
    ensures r.Some? ==> i < r.value.from < r.value.to < |s|
    ensures r.Some? ==> forall k :: r.value.from <= k < r.value.to ==> IsDigit(s[k])
  {
    if i + |OPEN| <= |s| && s[i..i + |OPEN|] == OPEN then
      var from := SkipSpaces(s, i + |OPEN|);
      var to := SkipDigits(s, from);
      if from < to < |s| && s[to] == ']' then Some(Tag(from, to)) else None
    else None
  }

  /** \s*\[Retry-After:\s*\d+\] at position i. */
  function SpacedTagAt(s: string, i: nat): Option<Tag>
    requires i <= |s|
  {
    TagAt(s, SkipSpaces(s, i))
  }

  /** The leftmost position from i to n that is a hit. */
  function First(hit: nat -> bool, i: nat, n: nat): (r: Option<nat>)
    requires i <= n
    ensures r.Some? ==> i <= r.value <= n && hit(r.value) && forall k :: i <= k < r.value ==> !hit(k)
    ensures r.None? ==> forall k :: i <= k <= n ==> !hit(k)
    decreases n - i
  {
    if hit(i) then Some(i) else if i < n then First(hit, i + 1, n) else None
  }

  function TagHit(s: string): nat -> bool {
    (i: nat) => TagAt(s, i).Some?
  }

  function SpacedTagHit(s: string): nat -> bool {
    (i: nat) => i <= |s| && SpacedTagAt(s, i).Some?
  }

  /** The leftmost match. */
  function FindTag(s: string): (r: Option<nat>)
    ensures r.Some? ==> TagAt(s, r.value).Some?
  {
    First(TagHit(s), 0, |s|)
  }

  function FindSpacedTag(s: string): (r: Option<nat>)
    ensures r.Some? ==> r.value <= |s| && SpacedTagAt(s, r.value).Some?
  {
    First(SpacedTagHit(s), 0, |s|)
  }

  function TrimStart(s: string): string {
    s[SkipSpaces(s, 0)..]
  }

  function TrimEnd(s: string): string {
    if s != [] && IsSpace(s[|s| - 1]) then TrimEnd(s[..|s| - 1]) else s
  }

  function Trim(s: string): string {
    TrimEnd(TrimStart(s))
  }

  // ---------------------------------------------------------------------------------------------
  // The matches are those of the regular expressions
  // ---------------------------------------------------------------------------------------------

  /** A match of the first expression at i: the opening, any spaces, digits from `from` to `to`, the bracket. */
  predicate Matches(s: string, i: nat, from: nat, to: nat) {
    && i + 13 <= from < to < |s| && s[i..i + 13] == "[Retry-After:" && s[to] == ']'
    && (forall k :: i + 13 <= k < from ==> IsSpace(s[k]))
    && (forall k :: from <= k < to ==> IsDigit(s[k]))
  }

  /** TagAt finds the match exactly when there is one, and it is the only one at its position. */
  lemma {:induction false} TagIsTheMatch(s: string, i: nat, from: nat, to: nat)
    ensures TagAt(s, i) == Some(Tag(from, to)) <==> Matches(s, i, from, to)
  {
    if Matches(s, i, from, to) {
      var j := SkipSpaces(s, i + 13);
      assert !IsSpace(s[from]) by { assert IsDigit(s[from]); }
      assert j == from;
      assert SkipDigits(s, from) == to;
    }
  }

  /** The second expression matches at i exactly when the first does after spaces. */
  lemma {:induction false} SpacedTagIsTheMatch(s: string, i: nat)
    requires i <= |s|
    ensures SpacedTagAt(s, i).Some? <==>
      exists j :: i <= j <= |s| && TagAt(s, j).Some? && forall k :: i <= k < j ==> IsSpace(s[k])
  {
    if j :| i <= j <= |s| && TagAt(s, j).Some? && forall k :: i <= k < j ==> IsSpace(s[k]) {
      assert s[j] == s[j..j + |OPEN|][0];
      assert SkipSpaces(s, i) == j;
    }
  }

  /** Whatever comes in, the message of the response begins and ends with a visible character, if it has any. */
  lemma {:induction false} MessageIsTrimmed(raw: string, default: nat)
    ensures Trimmed(HandleRateLimitError(raw, default).message)
  {
    var spaced := FindSpacedTag(raw);
    var stripped :=
      if spaced.Some? then raw[..spaced.value] + raw[SpacedTagAt(raw, spaced.value).value.to + 1..] else raw;
    TrimEndTrims(TrimStart(stripped));
  }

  lemma {:induction false} TrimEndTrims(s: string)
    ensures TrimEnd(s) != [] ==> s != [] && TrimEnd(s)[0] == s[0] && !IsSpace(TrimEnd(s)[|TrimEnd(s)| - 1])
    decreases |s|
  {
    if s != [] && IsSpace(s[|s| - 1]) { TrimEndTrims(s[..|s| - 1]); }
  }

  // ---------------------------------------------------------------------------------------------
  // The two sides
  // ---------------------------------------------------------------------------------------------

  /** The service's message: the text, a space, and the tag. */
  function Tagged(text: string, n: nat): string {
    text + " " + OPEN + " " + Print(n) + "]"
  }

  /** What the gateway puts into its 429 response. */
  datatype Response = Response(message: string, retryAfter: nat)

  function HandleRateLimitError(raw: string, default: nat): Response {
    var found := FindTag(raw);
    var seconds :=
      if found.Some? then var t := TagAt(raw, found.value).value; ParseInt(raw[t.from..t.to]) else default;
    var spaced := FindSpacedTag(raw);
    var stripped :=
      if spaced.Some? then raw[..spaced.value] + raw[SpacedTagAt(raw, spaced.value).value.to + 1..] else raw;
    Response(Trim(stripped), seconds)
  }

  // ---------------------------------------------------------------------------------------------
  // The round trip
  // ---------------------------------------------------------------------------------------------

  predicate TagFree(s: string) {
    forall i :: 0 <= i <= |s| ==> TagAt(s, i).None?
  }

  /** Trimming changes nothing: the text is empty or begins and ends with a visible character. */
  predicate Trimmed(s: string) {
    s == [] || (!IsSpace(s[0]) && !IsSpace(s[|s| - 1]))
  }

  lemma {:induction false} TrimmedIsFixed(s: string)
    requires Trimmed(s)
    ensures Trim(s) == s
  {
    assert SkipSpaces(s, 0) == 0;
    assert s[0..] == s;
  }

  lemma {:induction false} TaggedParts(text: string, n: nat)
    ensures var s := Tagged(text, n);
      var b := |text|;
      var d := |Print(n)|;
      && |s| == b + 1 + |OPEN| + 1 + d + 1
      && s[..b] == text && s[b] == ' ' && s[b + 1] == '['
      && s[b + 1..b + 1 + |OPEN|] == OPEN
      && s[b + 1 + |OPEN|] == ' '
      && s[b + 2 + |OPEN|..b + 2 + |OPEN| + d] == Print(n)
      && s[b + 2 + |OPEN| + d] == ']'
      && s[b + 3 + |OPEN| + d..] == []
  {
    assert Tagged(text, n) == text + (" " + OPEN + " " + Print(n) + "]");
    assert (" " + OPEN + " " + Print(n) + "]")[1..1 + |OPEN|] == OPEN;
    assert (" " + OPEN + " " + Print(n) + "]")[2 + |OPEN|..2 + |OPEN| + |Print(n)|] == Print(n);
  }

  /** The appended tag is matched in full. */
  lemma {:induction false} OwnTagMatches(text: string, n: nat)
    ensures var b := |text|;
      TagAt(Tagged(text, n), b + 1) == Some(Tag(b + 2 + |OPEN|, b + 2 + |OPEN| + |Print(n)|))
  {
    TaggedParts(text, n);
    var s := Tagged(text, n);
    var from := |text| + 2 + |OPEN|;
    var to := from + |Print(n)|;
    assert forall k :: from <= k < to ==> s[k] == Print(n)[k - from];
    assert IsDigit(s[from]);
    assert SkipSpaces(s, |text| + 1 + |OPEN|) == from;
    assert SkipDigits(s, from) == to;
  }

  /** `s` continues `text` with a space and a bracket. */
  predicate Continues(s: string, text: string) {
    |text| + 1 < |s| && s[..|text|] == text && s[|text|] == ' ' && s[|text| + 1] == '['
  }

  lemma {:induction false} SameChars(s: string, text: string)
    requires Continues(s, text)
    ensures forall k :: 0 <= k < |text| ==> s[k] == text[k]
  {
    assert forall k :: 0 <= k < |text| ==> s[k] == s[..|text|][k];
  }

  lemma {:induction false} InsideMatch(s: string, text: string, i: nat, t: Tag)
    requires Continues(s, text) && i + |OPEN| <= |text|
    requires TagAt(s, i) == Some(t)
    ensures TagAt(text, i) == Some(t)
  {
    var m := i + |OPEN|;
    SameChars(s, text);
    assert text[i..m] == s[i..m];
    assert t.from < |text| && t.to < |text|;
    assert SkipSpaces(text, m) == t.from;
    assert SkipDigits(text, t.from) == t.to;
  }

  /** The opening of the tag contains no space, so it cannot lie across the one that follows the text. */
  lemma {:induction false} OpeningDoesNotCross(s: string, text: string, i: nat)
    requires Continues(s, text) && i <= |text| < i + |OPEN| <= |s|
    ensures s[i..i + |OPEN|] != OPEN
  {
    assert s[i..i + |OPEN|][|text| - i] == ' ';
    assert OPEN[|text| - i] != ' ';
  }

  /** A match that starts inside the text lies wholly inside it. */
  lemma {:induction false} NoMatchCrosses(s: string, text: string, i: nat)
    requires Continues(s, text) && TagFree(text) && i <= |text|
    ensures TagAt(s, i).None?
  {
    if i + |OPEN| <= |s| && i + |OPEN| > |text| {
      OpeningDoesNotCross(s, text, i);
    } else if TagAt(s, i).Some? {
      InsideMatch(s, text, i, TagAt(s, i).value);
    }
  }

  /**
   For every tag-free, trimmed text and every n, the gateway's leftmost match recovers n and its strip
   recovers the text from the message the service printed.
   */
  lemma {:induction false} RetryAfterRoundTrip(text: string, n: nat, default: nat)
    requires TagFree(text) && Trimmed(text)
    ensures HandleRateLimitError(Tagged(text, n), default) == Response(text, n)
  {
    NumberIsRecovered(text, n);
    TextIsRecovered(text, n);
    TrimmedIsFixed(text);
  }

  lemma {:induction false} TaggedContinues(text: string, n: nat)
    ensures Continues(Tagged(text, n), text)
  {
    TaggedParts(text, n);
  }

  lemma {:induction false} NumberIsRecovered(text: string, n: nat)
    requires TagFree(text)
    ensures var s := Tagged(text, n);
      && FindTag(s) == Some(|text| + 1)
      && var t := TagAt(s, |text| + 1).value;
      && ParseInt(s[t.from..t.to]) == n
  {
    var s := Tagged(text, n);
    TaggedContinues(text, n);
    OwnTagMatches(text, n);
    forall i | 0 <= i <= |text| ensures TagAt(s, i).None? { NoMatchCrosses(s, text, i); }
    FirstIs(TagHit(s), |text| + 1, |s|);
    DigitsOfTag(text, n);
    ParsePrinted(n);
  }

  lemma {:induction false} FirstIs(hit: nat -> bool, j: nat, n: nat)
    requires j <= n && hit(j) && forall i :: 0 <= i < j ==> !hit(i)
    ensures First(hit, 0, n) == Some(j)
  {
    var r := First(hit, 0, n);
    assert r.Some?;
  }

  lemma {:induction false} DigitsOfTag(text: string, n: nat)
    ensures var s := Tagged(text, n);
      var from := |text| + 2 + |OPEN|;
      from + |Print(n)| < |s| && s[from..from + |Print(n)|] == Print(n)
    ensures Tagged(text, n)[..|text|] + Tagged(text, n)[|text| + 3 + |OPEN| + |Print(n)|..] == text
  {
    TaggedParts(text, n);
  }

  lemma {:induction false} TextIsRecovered(text: string, n: nat)
    requires TagFree(text) && Trimmed(text)
    ensures var s := Tagged(text, n);
      && FindSpacedTag(s) == Some(|text|)
      && SpacedTagAt(s, |text|).Some?
      && s[..|text|] + s[SpacedTagAt(s, |text|).value.to + 1..] == text
  {
    var s := Tagged(text, n);
    TaggedContinues(text, n);
    OwnTagMatches(text, n);
    DigitsOfTag(text, n);
    assert SkipSpaces(s, |text|) == |text| + 1;
    forall i | 0 <= i < |text| ensures SpacedTagAt(s, i).None? { NoSpacedMatchInside(s, text, i); }
    FirstIs(SpacedTagHit(s), |text|, |s|);
  }

  /** Spaces inside trimmed text end before the text does, so a spaced match starts at a match inside it. */
  lemma {:induction false} NoSpacedMatchInside(s: string, text: string, i: nat)
    requires Continues(s, text) && TagFree(text) && Trimmed(text) && i < |text|
    ensures SpacedTagAt(s, i).None?
  {
    SameChars(s, text);
    var q := SkipSpaces(s, i);
    assert s[|text| - 1] == text[|text| - 1];
    assert q < |text|;
    NoMatchCrosses(s, text, q);
  }

  /** A message without a tag keeps its text and gets the endpoint's default delay. */
  lemma {:induction false} NoTagGivesDefault(text: string, default: nat)
    requires TagFree(text) && Trimmed(text)
    ensures HandleRateLimitError(text, default) == Response(text, default)
  {
    TrimmedIsFixed(text);
    forall i | 0 <= i <= |text| ensures SpacedTagAt(text, i).None? {
      assert TagAt(text, SkipSpaces(text, i)).None?;
    }
  }

  lemma {:induction false} NoBracketNoTag(s: string)
    requires '[' !in s
    ensures TagFree(s)
  {
    forall i | 0 <= i <= |s| ensures TagAt(s, i).None? {
      if i + |OPEN| <= |s| {
        assert s[i] in s;
        assert s[i..i + |OPEN|][0] != OPEN[0];
      }
    }
  }
}
