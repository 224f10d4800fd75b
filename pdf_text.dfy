/**
 * The string helpers of the memory saver panel
 * (ghost-ui/src/components/MemorySaver.tsx) that read a PDF file's bytes as
 * text: counting page objects, and collecting the literal strings written
 * between parentheses. Each byte is one character of the string.
 */
module PdfText {

  import opened Wrappers
  import opened Js

  // ---------------------------------------------------------------- page count

  /** Where a match of `/\/Type\s*\/Page[^s]/` starting at `i` ends, if one
      starts there. The white-space run is greedy, and no shorter run can
      be followed by `/`, so the match is unique. */
  function PageMatchEnd(s: string, i: nat): (r: Option<nat>)
    ensures r.Some? ==> i + 11 <= r.value <= |s|
    ensures r.Some? ==> OccursAt(s, "/Type", i) && OccursAt(s, "/Page", r.value - 6)
                        && s[r.value - 1] != 's'
  {
    if OccursAt(s, "/Type", i) then
      var k := SkipWhiteSpace(s, i + 5);
      if OccursAt(s, "/Page", k) && k + 5 < |s| && s[k + 5] != 's' then Some(k + 6) else None
    else None
  }

  /** The number of matches a global search finds from `i` on: after a
      match the search resumes where it ended. */
  function PageMatchesFrom(s: string, i: nat): nat
    decreases |s| - i
  {
    if i >= |s| then 0
    else match PageMatchEnd(s, i)
      case Some(e) => 1 + PageMatchesFrom(s, e)
      case None => PageMatchesFrom(s, i + 1)
  }

  /** `countPDFPages`: the number of page objects, or 1 when there are
      none. */
  function CountPdfPages(s: string): (r: nat)
    ensures r >= 1
    ensures PageMatchesFrom(s, 0) > 0 ==> r == PageMatchesFrom(s, 0)
  {
    var n := PageMatchesFrom(s, 0);
    if n == 0 then 1 else n
  }

  /** Every match takes at least eleven characters, so a string of length
      `L` holds at most `L / 11` page objects. */
  lemma {:induction false} PageMatchesBound(s: string, i: nat)
    requires i <= |s|
    ensures 11 * PageMatchesFrom(s, i) <= |s| - i
    decreases |s| - i
  {
    if i < |s| {
      match PageMatchEnd(s, i)
      case Some(e) => PageMatchesBound(s, e);
      case None => PageMatchesBound(s, i + 1);
    }
  }

  /** A string without any "/Type" counts as one page. */
  lemma {:induction false} NoTypeOnePage(s: string, i: nat)
    requires forall j :: i <= j ==> !OccursAt(s, "/Type", j)
    ensures PageMatchesFrom(s, i) == 0
    decreases |s| - i
  {
    if i < |s| {
      NoTypeOnePage(s, i + 1);
    }
  }

  // ---------------------------------------------------------------- text fragments

  /** The first index at or after `from` holding `c`. */
  function FindChar(s: string, c: char, from: nat): (r: Option<nat>)
    decreases |s| - from
    ensures r.Some? ==> from <= r.value < |s| && s[r.value] == c
    ensures r.Some? ==> forall j :: from <= j < r.value ==> s[j] != c
    ensures r.None? ==> forall j :: from <= j < |s| ==> s[j] != c
  {
    if from >= |s| then None
    else if s[from] == c then Some(from)
    else FindChar(s, c, from + 1)
  }

  /** A match of `/\(([^)]+)\)/`: an opening parenthesis, at least one
      character other than `)`, and a closing parenthesis. */
  predicate IsParenMatch(m: string) {
    && |m| >= 3 && m[0] == '(' && m[|m| - 1] == ')'
    && forall i :: 1 <= i < |m| - 1 ==> m[i] != ')'
  }

  /** The matches of `s.match(/\(([^)]+)\)/g)` from `from` on, in order.
      At an opening parenthesis the greedy `[^)]+` runs to the first `)`; a
      match needs one character before it, and without any `)` further on
      nothing more matches. */
  function ParenMatchesFrom(s: string, from: nat): (ms: seq<string>)
    decreases |s| - from
    ensures forall k :: 0 <= k < |ms| ==> IsParenMatch(ms[k])
    ensures forall k :: 0 <= k < |ms| ==> |ms[k]| <= |s| - from
  {
    if from >= |s| then []
    else if s[from] == '(' then
      match FindChar(s, ')', from + 1)
      case Some(j) =>
        if j >= from + 2 then
          var m := s[from..j + 1];
          assert forall i :: 1 <= i < |m| - 1 ==> m[i] == s[from + i];
          [m] + ParenMatchesFrom(s, j + 1)
        else ParenMatchesFrom(s, from + 1)
      case None => []
    else ParenMatchesFrom(s, from + 1)
  }

  /** `match.substring(1, match.length - 1)`: the text between the
      parentheses. */
  function Inner(m: string): (t: string)
    requires IsParenMatch(m)
    ensures |t| == |m| - 2 && |t| > 0
    ensures forall i :: 0 <= i < |t| ==> t[i] == m[i + 1] && t[i] != ')'
  {
    m[1..|m| - 1]
  }

  /** A fragment is kept when it is longer than two characters and holds
      an ASCII letter. */
  predicate KeepFragment(t: string) {
    |t| > 2 && HasAsciiLetter(t)
  }

  predicate AllParenMatches(ms: seq<string>) {
    forall k :: 0 <= k < |ms| ==> IsParenMatch(ms[k])
  }

  /** The text the fragment loop accumulates over `ms`, one match at a time:
      each kept fragment followed by a space. */
  function Collected(ms: seq<string>): string
    requires AllParenMatches(ms)
  {
    if ms == [] then ""
    else
      var t := Inner(ms[|ms| - 1]);
      Collected(ms[..|ms| - 1]) + (if KeepFragment(t) then t + " " else "")
  }

  /** The kept fragments, in order: the reference the loop is checked
      against. */
  function Kept(ms: seq<string>): (r: seq<string>)
    requires AllParenMatches(ms)
    ensures |r| <= |ms|
    ensures forall k :: 0 <= k < |r| ==> KeepFragment(r[k])
    ensures forall k :: 0 <= k < |ms| && KeepFragment(Inner(ms[k])) ==> Inner(ms[k]) in r
    ensures forall t :: t in r ==> exists k :: 0 <= k < |ms| && t == Inner(ms[k])
  {
    if ms == [] then []
    else
      var t := Inner(ms[0]);
      (if KeepFragment(t) then [t] else []) + Kept(ms[1..])
  }

  /** Each fragment followed by one space. */
  function SpaceJoined(ts: seq<string>): string {
    if ts == [] then [] else ts[0] + " " + SpaceJoined(ts[1..])
  }

  lemma {:induction false} SpaceJoinedAppend(a: seq<string>, b: seq<string>)
    ensures SpaceJoined(a + b) == SpaceJoined(a) + SpaceJoined(b)
  {
    if a != [] {
      SpaceJoinedAppend(a[1..], b);
      assert (a + b)[1..] == a[1..] + b;
    } else {
      assert a + b == b;
    }
  }

  lemma {:induction false} KeptAppend(a: seq<string>, b: seq<string>)
    requires AllParenMatches(a) && AllParenMatches(b)
    ensures AllParenMatches(a + b)
    ensures Kept(a + b) == Kept(a) + Kept(b)
  {
    if a != [] {
      assert (a + b)[1..] == a[1..] + b;
      KeptAppend(a[1..], b);
    } else {
      assert a + b == b;
    }
  }

  /** What the loop accumulates is exactly the kept fragments, in order,
      each followed by a space. */
  lemma {:induction false} CollectedIsKept(ms: seq<string>)
    requires AllParenMatches(ms)
    ensures Collected(ms) == SpaceJoined(Kept(ms))
  {
    if ms != [] {
      var init, last := ms[..|ms| - 1], ms[|ms| - 1];
      assert ms == init + [last];
      CollectedIsKept(init);
      KeptAppend(init, [last]);
      SpaceJoinedAppend(Kept(init), Kept([last]));
    }
  }

  const MaxExtractedText := 2000

  /** `extractTextFromPDF` on the file's text `pdf`. `streamText` stands for
      what the stream-block loop appends after the fragments. */
  method ExtractTextFromPdf(pdf: string, streamText: string) returns (r: string)
    ensures r == Prefix(Trim(SpaceJoined(Kept(ParenMatchesFrom(pdf, 0))) + streamText), MaxExtractedText)
    ensures |r| <= MaxExtractedText
  {
    var matches := ParenMatchesFrom(pdf, 0);
    var extracted := "";
    var i := 0;
    while i < |matches|
      invariant 0 <= i <= |matches|
      invariant extracted == Collected(matches[..i])
    {
      var m := matches[i];
      var text := m[1..|m| - 1];
      if |text| > 2 && HasAsciiLetter(text) {
        extracted := extracted + text + " ";
      }
      assert matches[..i + 1][..i] == matches[..i];
      i := i + 1;
    }
    assert matches[..i] == matches;
    CollectedIsKept(matches);
    extracted := extracted + streamText;
    r := Prefix(Trim(extracted), MaxExtractedText);
  }
}
