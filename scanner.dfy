/** A model of the .NET regular-expression engine on the five patterns the core uses
    (all in `RegexOptions.Singleline`, so `.` matches every character):

      StepSql      `@(?<sql>.+?)@3\s*-\s*(?<n>\d+)`
      StepPython   "```python(?<code>.*?)```\s*@3\s*-\s*(?<n>\d+)"
      FlaggedSql   `@(.+?)@(0|1)`
      PythonBlock  "```python(.*?)```"
      and the multi-step trigger `@3\s*-\s*\d+`.

    Each pattern is an opener, a lazy body and a tail. At a fixed position a tail
    matches in at most one way: `\s*` is followed by a literal that is not white space,
    and the digit run `\d+` ends the pattern, so backtracking into them never helps.
    The engine therefore tries start positions left to right and, from each opener,
    body lengths shortest first; the first tail that matches wins. `Matches` resumes
    the search where the previous match ended. */
module Scanner {
  import opened Wrappers
  import opened Text

  datatype Pattern = StepSql | StepPython | FlaggedSql | PythonBlock

  /** Where a match sits in the text: the match is `s[start..tagEnd]`, its body group
      `s[bodyStart..bodyEnd]` and its number or flag group `s[tagStart..tagEnd]`. */
  datatype Hit = Hit(start: nat, bodyStart: nat, bodyEnd: nat, tagStart: nat, tagEnd: nat)

  function Opener(p: Pattern): (o: string)
    ensures |o| >= 1
  {
    match p
    case StepSql => "@"
    case FlaggedSql => "@"
    case StepPython => "```python"
    case PythonBlock => "```python"
  }

  /** `.+?` needs one character, `.*?` none. */
  function MinBody(p: Pattern): nat {
    match p
    case StepSql => 1
    case FlaggedSql => 1
    case StepPython => 0
    case PythonBlock => 0
  }

  predicate OpenerAt(p: Pattern, s: string, i: nat) {
    i + |Opener(p)| <= |s| && s[i..i + |Opener(p)|] == Opener(p)
  }

  /** The number of characters `\s*` consumes at position i. */
  function SpacesFrom(s: string, i: nat): (n: nat)
    requires i <= |s|
    ensures i + n <= |s|
    ensures i + n < |s| ==> !IsWhiteSpace(s[i + n])
  {
    Leading(s[i..], IsWhiteSpace)
  }

  /** The number of characters `\d*` consumes at position i. */
  function DigitsFrom(s: string, i: nat): (n: nat)
    requires i <= |s|
    ensures i + n <= |s|
    ensures AllDigits(s[i..i + n])
  {
    var n := Leading(s[i..], IsDigit);
    assert s[i..i + n] == s[i..][..n];
    n
  }

  /** `@3\s*-\s*\d+` anchored at j: the bounds of its digit run, if it matches there. */
  function StepTagAt(s: string, j: nat): (t: Option<(nat, nat)>)
    ensures t.Some? ==> j < t.value.0 < t.value.1 <= |s| && AllDigits(s[t.value.0..t.value.1])
  {
    if j + 2 <= |s| && s[j] == '@' && s[j + 1] == '3' then
      var q := j + 2 + SpacesFrom(s, j + 2);
      if q < |s| && s[q] == '-' then
        var r := q + 1 + SpacesFrom(s, q + 1);
        var d := DigitsFrom(s, r);
        if d > 0 then Some((r, r + d)) else None
      else None
    else None
  }

  /** The tail of pattern p anchored at j (where the body ends): the bounds of the
      number or flag group, if the tail matches there. */
  function TailAt(p: Pattern, s: string, j: nat): (t: Option<(nat, nat)>)
    ensures t.Some? ==> j < t.value.0 <= t.value.1 <= |s|
  {
    match p
    case StepSql => StepTagAt(s, j)
    case StepPython =>
      if j + 3 <= |s| && s[j..j + 3] == "```" then StepTagAt(s, j + 3 + SpacesFrom(s, j + 3))
      else None
    case FlaggedSql =>
      if j + 2 <= |s| && s[j] == '@' && (s[j + 1] == '0' || s[j + 1] == '1') then Some((j + 1, j + 2))
      else None
    case PythonBlock =>
      if j + 3 <= |s| && s[j..j + 3] == "```" then Some((j + 3, j + 3)) else None
  }

  /** The reference definition of a match: an opener at i, a body of at least the
      minimum length, and a tail at j. */
  predicate MatchAt(p: Pattern, s: string, i: nat, j: nat) {
    OpenerAt(p, s, i) && i + |Opener(p)| + MinBody(p) <= j && TailAt(p, s, j).Some?
  }

  predicate ValidHit(s: string, h: Hit) {
    h.start < h.bodyStart <= h.bodyEnd < h.tagStart <= h.tagEnd <= |s|
  }

  function HitOf(p: Pattern, s: string, i: nat, j: nat): (h: Hit)
    requires MatchAt(p, s, i, j)
    ensures ValidHit(s, h) && h.start == i && h.bodyEnd == j
  {
    var t := TailAt(p, s, j).value;
    Hit(i, i + |Opener(p)|, j, t.0, t.1)
  }

  /** The body group of a hit. */
  function Body(s: string, h: Hit): string
    requires ValidHit(s, h)
  {
    s[h.bodyStart..h.bodyEnd]
  }

  /** The number or flag group of a hit. */
  function Tag(s: string, h: Hit): string
    requires ValidHit(s, h)
  {
    s[h.tagStart..h.tagEnd]
  }

  /** What the last group of each pattern can hold. */
  predicate TagShape(p: Pattern, s: string, h: Hit)
    requires ValidHit(s, h)
  {
    match p
    case StepSql => |Tag(s, h)| >= 1 && AllDigits(Tag(s, h))
    case StepPython => |Tag(s, h)| >= 1 && AllDigits(Tag(s, h))
    case FlaggedSql => Tag(s, h) == "0" || Tag(s, h) == "1"
    case PythonBlock => Tag(s, h) == ""
  }

  lemma HitOfShape(p: Pattern, s: string, i: nat, j: nat)
    requires MatchAt(p, s, i, j)
    ensures TagShape(p, s, HitOf(p, s, i, j))
  {
    var h := HitOf(p, s, i, j);
    if p == FlaggedSql {
      assert Tag(s, h) == [s[j + 1]];
    }
  }

  /** The lazy body: the first position k >= j where the tail matches. */
  function LazyTail(p: Pattern, s: string, j: nat): (r: Option<nat>)
    decreases |s| - j
    ensures r.Some? ==> j <= r.value < |s| && TailAt(p, s, r.value).Some?
    ensures r.Some? ==> forall k :: j <= k < r.value ==> TailAt(p, s, k).None?
    ensures r.None? ==> forall k :: j <= k ==> TailAt(p, s, k).None?
  {
    if j >= |s| then None
    else if TailAt(p, s, j).Some? then Some(j)
    else LazyTail(p, s, j + 1)
  }

  /** `Regex.Match(s, i)`: the leftmost match starting at or after i, with the
      shortest body among the matches at that start. */
  function FirstFrom(p: Pattern, s: string, i: nat): (r: Option<Hit>)
    decreases |s| - i
    ensures r.Some? ==> i <= r.value.start && MatchAt(p, s, r.value.start, r.value.bodyEnd)
                        && r.value == HitOf(p, s, r.value.start, r.value.bodyEnd)
    ensures r.Some? ==> forall j :: r.value.start + |Opener(p)| + MinBody(p) <= j < r.value.bodyEnd
                                    ==> TailAt(p, s, j).None?
    ensures r.Some? ==> forall i', j :: i <= i' < r.value.start ==> !MatchAt(p, s, i', j)
    ensures r.None? ==> forall i', j :: i <= i' ==> !MatchAt(p, s, i', j)
  {
    if i >= |s| then None
    else if OpenerAt(p, s, i) then
      match LazyTail(p, s, i + |Opener(p)| + MinBody(p))
      case Some(j) => Some(HitOf(p, s, i, j))
      case None => FirstFrom(p, s, i + 1)
    else FirstFrom(p, s, i + 1)
  }

  /** `Regex.Matches(s)` from position i: each search resumes where the previous
      match ended, so the hits are in text order and do not overlap. */
  function MatchesFrom(p: Pattern, s: string, i: nat): (hs: seq<Hit>)
    decreases |s| - i
    ensures forall k :: 0 <= k < |hs| ==> ValidHit(s, hs[k]) && i <= hs[k].start
    ensures forall k :: 0 <= k < |hs| ==> TagShape(p, s, hs[k])
    ensures forall k :: 0 < k < |hs| ==> hs[k - 1].tagEnd <= hs[k].start
  {
    match FirstFrom(p, s, i)
    case None => []
    case Some(h) =>
      HitOfShape(p, s, h.start, h.bodyEnd);
      [h] + MatchesFrom(p, s, h.tagEnd)
  }

  /** Every hit of `MatchesFrom` is a match of the pattern, per `MatchAt`. */
  lemma {:induction false} MatchesFromAreMatches(p: Pattern, s: string, i: nat)
    decreases |s| - i
    ensures var hs := MatchesFrom(p, s, i);
            forall k :: 0 <= k < |hs| ==> MatchAt(p, s, hs[k].start, hs[k].bodyEnd)
  {
    var hs := MatchesFrom(p, s, i);
    if hs != [] {
      MatchesFromStep(p, s, i);
      var rest := MatchesFrom(p, s, hs[0].tagEnd);
      MatchesFromAreMatches(p, s, hs[0].tagEnd);
      forall k | 0 < k < |hs|
        ensures MatchAt(p, s, hs[k].start, hs[k].bodyEnd)
      {
        assert hs[k] == rest[k - 1];
      }
    }
  }

  /** One step of `MatchesFrom`: the first hit is a match, and the search resumes
      after its tag. */
  lemma MatchesFromStep(p: Pattern, s: string, i: nat)
    ensures var hs := MatchesFrom(p, s, i);
            hs != [] ==>
              && i < hs[0].tagEnd
              && MatchAt(p, s, hs[0].start, hs[0].bodyEnd)
              && hs[1..] == MatchesFrom(p, s, hs[0].tagEnd)
  {
    match FirstFrom(p, s, i)
    case None =>
    case Some(h) =>
      assert MatchesFrom(p, s, i) == [h] + MatchesFrom(p, s, h.tagEnd);
  }

  function AllMatches(p: Pattern, s: string): seq<Hit>
  {
    MatchesFrom(p, s, 0)
  }

  /** `Regex.IsMatch(s, "@3\\s*-\\s*\\d+")`. */
  function HasStepMarker(s: string): (b: bool)
    ensures b <==> exists k :: StepTagAt(s, k).Some?
  {
    var r := LazyTail(StepSql, s, 0);
    forall k: nat ensures TailAt(StepSql, s, k) == StepTagAt(s, k) { }
    r.Some?
  }
}
