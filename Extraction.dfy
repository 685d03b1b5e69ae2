/**
 * The code-block extraction of `get_completion` (run.py): the compiled pattern
 *
 *     ```(?:[Pp]ython|[Pp]y)\s*([\s\S]+?)\s*```
 *
 * is searched for in the model's response; on a match the result is group 1,
 * otherwise the whole response.
 *
 * The matcher below is written out in the order a backtracking regex engine
 * explores the pattern: start positions left to right; at a start, the
 * alternative `[Pp]ython` before `[Pp]y`; the first `\s*` greedily (longest run
 * first, then one character less each time); the body lazily (shortest first);
 * the second `\s*` greedily, which forces the closing fence to sit right after
 * the maximal whitespace run that follows the body.  `IsMatch` states
 * declaratively what it means for the pattern to match, and the lemmas at the
 * end tie the two together.
 */
module Extraction {

  import opened Wrappers

  /** What `\s` matches in a pattern over `str`: the characters for which
      Python's `str.isspace()` holds. */
  predicate IsSpace(c: char) {
    var n := c as int;
    (0x09 <= n <= 0x0D) || (0x1C <= n <= 0x20) || n == 0x85 || n == 0xA0 ||
    n == 0x1680 || (0x2000 <= n <= 0x200A) || n == 0x2028 || n == 0x2029 ||
    n == 0x202F || n == 0x205F || n == 0x3000
  }

  /** `\s` matches the character at position k. */
  predicate SpaceAt(s: string, k: nat) {
    k < |s| && IsSpace(s[k])
  }

  predicate AllSpace(s: string, i: nat, j: nat)
    requires i <= j <= |s|
  {
    forall k :: i <= k < j ==> SpaceAt(s, k)
  }

  /** The number of characters a greedy `\s*` consumes at position i. */
  function SpaceRun(s: string, i: nat): (n: nat)
    requires i <= |s|
    ensures i + n <= |s| && AllSpace(s, i, i + n)
    ensures !SpaceAt(s, i + n)
    decreases |s| - i
  {
    if SpaceAt(s, i) then 1 + SpaceRun(s, i + 1) else 0
  }

  /** Three backticks start at position i. */
  predicate FenceAt(s: string, i: nat) {
    i + 3 <= |s| && s[i] == '`' && s[i + 1] == '`' && s[i + 2] == '`'
  }

  /** `[Pp]ython` starts at position i. */
  predicate LongLabelAt(s: string, i: nat) {
    i + 6 <= |s| && (s[i] == 'P' || s[i] == 'p') && s[i + 1] == 'y' &&
    s[i + 2] == 't' && s[i + 3] == 'h' && s[i + 4] == 'o' && s[i + 5] == 'n'
  }

  /** `[Pp]y` starts at position i. */
  predicate ShortLabelAt(s: string, i: nat) {
    i + 2 <= |s| && (s[i] == 'P' || s[i] == 'p') && s[i + 1] == 'y'
  }

  /** One way the pattern can match: the opening fence at `start`, the label
      ending at `labelEnd`, group 1 = s[bodyStart..bodyEnd], the closing fence
      at `closeStart`. */
  datatype Match = Match(start: nat, labelEnd: nat, bodyStart: nat, bodyEnd: nat, closeStart: nat)

  predicate IsMatch(s: string, m: Match) {
    FenceAt(s, m.start) &&
    ((m.labelEnd == m.start + 9 && LongLabelAt(s, m.start + 3)) ||
     (m.labelEnd == m.start + 5 && ShortLabelAt(s, m.start + 3))) &&
    m.labelEnd <= m.bodyStart < m.bodyEnd <= m.closeStart &&
    FenceAt(s, m.closeStart) &&
    AllSpace(s, m.labelEnd, m.bodyStart) &&
    AllSpace(s, m.bodyEnd, m.closeStart)
  }

  /** A body may end at e: the closing fence follows the whitespace run at e. */
  predicate ClosesAt(s: string, e: nat) {
    e <= |s| && FenceAt(s, e + SpaceRun(s, e))
  }

  /** The lazy body and the trailing `\s*`: the least body end e >= from at
      which the closing fence follows the whitespace run at e. */
  function CloseFrom(s: string, from: nat): (r: Option<nat>)
    requires from <= |s|
    ensures r.Some? ==> from <= r.value && ClosesAt(s, r.value)
    ensures forall e :: from <= e && (r.Some? ==> e < r.value) ==> !ClosesAt(s, e)
    decreases |s| - from
  {
    if ClosesAt(s, from) then Some(from)
    else if from == |s| then None
    else CloseFrom(s, from + 1)
  }

  /** A body of at least one character starting at b: its least end. */
  function BodyFrom(s: string, b: nat): (r: Option<nat>)
    requires b <= |s|
  {
    if b < |s| then CloseFrom(s, b + 1) else None
  }

  /** The leading `\s*` after the label end p, backtracking from k characters
      down to none: the first body start p + j (j = k, k - 1, ..., 0) for which
      a body exists, with that body's end. */
  function TrySpace(s: string, p: nat, k: nat): (r: Option<(nat, nat)>)
    requires p + k <= |s|
    ensures r.Some? ==> p <= r.value.0 <= p + k && BodyFrom(s, r.value.0) == Some(r.value.1)
    ensures forall b :: p <= b <= p + k && (r.Some? ==> r.value.0 < b) ==> BodyFrom(s, b).None?
    decreases k
  {
    var body := BodyFrom(s, p + k);
    if body.Some? then Some((p + k, body.value))
    else if k == 0 then None
    else TrySpace(s, p, k - 1)
  }

  function FromLabel(s: string, p: nat): Option<(nat, nat)>
    requires p <= |s|
  {
    TrySpace(s, p, SpaceRun(s, p))
  }

  function MatchOf(s: string, start: nat, p: nat, body: (nat, nat)): Match
    requires body.1 <= |s|
  {
    Match(start, p, body.0, body.1, body.1 + SpaceRun(s, body.1))
  }

  /** The match the engine reports for a search attempt at position i, if any. */
  function MatchAt(s: string, i: nat): (r: Option<Match>)
    ensures r.Some? ==> r.value.start == i && IsMatch(s, r.value)
  {
    if !FenceAt(s, i) || !ShortLabelAt(s, i + 3) then None
    else
      var long := if LongLabelAt(s, i + 3) then FromLabel(s, i + 9) else None;
      if long.Some? then
        FromLabelIsMatch(s, i, i + 9);
        Some(MatchOf(s, i, i + 9, long.value))
      else
        var short := FromLabel(s, i + 5);
        if short.Some? then
          FromLabelIsMatch(s, i, i + 5);
          Some(MatchOf(s, i, i + 5, short.value))
        else None
  }

  /** An attempt that gets past its label yields a match. */
  lemma FromLabelIsMatch(s: string, start: nat, p: nat)
    requires FenceAt(s, start) && p <= |s| && FromLabel(s, p).Some?
    requires (p == start + 9 && LongLabelAt(s, start + 3)) ||
             (p == start + 5 && ShortLabelAt(s, start + 3))
    ensures IsMatch(s, MatchOf(s, start, p, FromLabel(s, p).value))
  {
    var b := FromLabel(s, p).value.0;
    assert p <= b <= p + SpaceRun(s, p);
  }

  /** `pattern.search`: the first position, from i on, where an attempt succeeds. */
  function SearchFrom(s: string, i: nat): (r: Option<Match>)
    requires i <= |s|
    ensures r.Some? ==> i <= r.value.start && MatchAt(s, r.value.start) == r
    ensures forall j :: i <= j && (r.Some? ==> j < r.value.start) ==> MatchAt(s, j).None?
    decreases |s| - i
  {
    var m := MatchAt(s, i);
    if m.Some? then m
    else if i == |s| then None
    else SearchFrom(s, i + 1)
  }

  /** The completion kept from a response (run.py:42-47): group 1 of some
      match, or the response itself. */
  function Extract(response: string): (r: string)
    ensures r == response || exists m :: IsMatch(response, m) && r == response[m.bodyStart..m.bodyEnd]
  {
    match SearchFrom(response, 0)
    case Some(m) => response[m.bodyStart..m.bodyEnd]
    case None => response
  }

  /** The match `pattern.search` reports, stated without the engine: it is a
      match; no match starts further left; at its start the `[Pp]ython`
      alternative wins whenever it can match; for its label the leading `\s*`
      is as long as possible; for its label and body start the body is as
      short as possible. */
  ghost predicate Reported(s: string, m: Match) {
    IsMatch(s, m) &&
    forall m' :: IsMatch(s, m') ==>
      m.start <= m'.start &&
      (m'.start == m.start ==>
        (m'.labelEnd == m.start + 9 ==> m.labelEnd == m.start + 9) &&
        (m'.labelEnd == m.labelEnd ==> m'.bodyStart <= m.bodyStart) &&
        (m'.labelEnd == m.labelEnd && m'.bodyStart == m.bodyStart ==> m.bodyEnd <= m'.bodyEnd))
  }

  /** A closing fence preceded only by whitespace from e on sits exactly where
      the greedy `\s*` at e stops. */
  lemma {:induction false} CloseAfterRun(s: string, e: nat, c: nat)
    requires e <= c <= |s| && AllSpace(s, e, c) && FenceAt(s, c)
    ensures c == e + SpaceRun(s, e)
    decreases c - e
  {
    assert !SpaceAt(s, c);
    if e < c {
      CloseAfterRun(s, e + 1, c);
    }
  }

  /** Leading whitespace can never extend past the greedy run. */
  lemma {:induction false} SpaceWithinRun(s: string, p: nat, b: nat)
    requires p <= b <= |s| && AllSpace(s, p, b)
    ensures b <= p + SpaceRun(s, p)
    decreases b - p
  {
    if p < b {
      SpaceWithinRun(s, p + 1, b);
    }
  }

  /** Every match is found by the attempt at its own start, and the attempt
      prefers the long label, the longest leading whitespace and the shortest
      body exactly as `Reported` says. */
  lemma {:induction false} MatchAtComplete(s: string, m: Match)
    requires IsMatch(s, m)
    ensures MatchAt(s, m.start).Some?
    ensures var r := MatchAt(s, m.start).value;
      (m.labelEnd == m.start + 9 ==> r.labelEnd == m.start + 9) &&
      (m.labelEnd == r.labelEnd ==> m.bodyStart <= r.bodyStart) &&
      (m.labelEnd == r.labelEnd && m.bodyStart == r.bodyStart ==> r.bodyEnd <= m.bodyEnd)
  {
    var i := m.start;
    CloseAfterRun(s, m.bodyEnd, m.closeStart);
    FromLabelComplete(s, m.labelEnd, m.bodyStart, m.bodyEnd);
    if m.labelEnd == i + 9 || (LongLabelAt(s, i + 3) && FromLabel(s, i + 9).Some?) {
      AttemptLong(s, i);
    } else {
      AttemptShort(s, i);
    }
  }

  /** The attempt at i when `[Pp]ython` leads to a match. */
  lemma AttemptLong(s: string, i: nat)
    requires FenceAt(s, i) && LongLabelAt(s, i + 3) && FromLabel(s, i + 9).Some?
    ensures MatchAt(s, i) == Some(MatchOf(s, i, i + 9, FromLabel(s, i + 9).value))
  {
  }

  /** The attempt at i when only `[Pp]y` leads to a match. */
  lemma AttemptShort(s: string, i: nat)
    requires FenceAt(s, i) && ShortLabelAt(s, i + 3) && FromLabel(s, i + 5).Some?
    requires !(LongLabelAt(s, i + 3) && FromLabel(s, i + 9).Some?)
    ensures MatchAt(s, i) == Some(MatchOf(s, i, i + 5, FromLabel(s, i + 5).value))
  {
  }

  /** After a label ending at p, a body s[b..e] preceded by whitespace is
      found, unless the engine finds one with a later start or, for the same
      start, an earlier end. */
  lemma FromLabelComplete(s: string, p: nat, b: nat, e: nat)
    requires p <= b < e <= |s| && AllSpace(s, p, b) && ClosesAt(s, e)
    ensures FromLabel(s, p).Some?
    ensures b <= FromLabel(s, p).value.0
    ensures b == FromLabel(s, p).value.0 ==> FromLabel(s, p).value.1 <= e
  {
    assert BodyFrom(s, b).Some? && BodyFrom(s, b).value <= e;
    SpaceWithinRun(s, p, b);
  }

  /** The engine's answer is the `Reported` match. */
  lemma SearchReports(s: string)
    requires SearchFrom(s, 0).Some?
    ensures Reported(s, SearchFrom(s, 0).value)
  {
    var r := SearchFrom(s, 0).value;
    forall m' | IsMatch(s, m')
      ensures r.start <= m'.start
      ensures m'.start == r.start ==>
        (m'.labelEnd == r.start + 9 ==> r.labelEnd == r.start + 9) &&
        (m'.labelEnd == r.labelEnd ==> m'.bodyStart <= r.bodyStart) &&
        (m'.labelEnd == r.labelEnd && m'.bodyStart == r.bodyStart ==> r.bodyEnd <= m'.bodyEnd)
    {
      MatchAtComplete(s, m');
    }
  }

  /** `Reported` pins the match down completely. */
  lemma ReportedUnique(s: string, m1: Match, m2: Match)
    requires Reported(s, m1) && Reported(s, m2)
    ensures m1 == m2
  {
    CloseAfterRun(s, m1.bodyEnd, m1.closeStart);
    CloseAfterRun(s, m2.bodyEnd, m2.closeStart);
  }

  /** When the pattern matches, the completion is group 1 of the reported
      match: a non-empty slice of the response, strictly shorter than it. */
  lemma ExtractMatched(s: string, m: Match)
    requires Reported(s, m)
    ensures Extract(s) == s[m.bodyStart..m.bodyEnd]
    ensures 0 < |Extract(s)| < |s|
  {
    MatchAtComplete(s, m);
    var r := SearchFrom(s, 0);
    assert r.Some?;
    SearchReports(s);
    ReportedUnique(s, r.value, m);
  }

  /** Whenever the pattern can match at all, some match is the reported one. */
  lemma ReportedExists(s: string, m: Match)
    requires IsMatch(s, m)
    ensures SearchFrom(s, 0).Some? && Reported(s, SearchFrom(s, 0).value)
  {
    MatchAtComplete(s, m);
    SearchReports(s);
  }

  /** The response comes back unchanged exactly when the pattern has no match. */
  lemma FallbackIff(s: string)
    ensures Extract(s) == s <==> forall m :: !IsMatch(s, m)
  {
    if m :| IsMatch(s, m) {
      ReportedExists(s, m);
      ExtractMatched(s, SearchFrom(s, 0).value);
    }
  }
}
