/**
 * How the study page reads the tutor's reply (gradeAnswer in
 * src/custom-page/CustomPage.jsx): the grade letter of the first match of
 * /Grade:\s*([A-F])/i, the line after "Explanation:" and "Feedback:"
 * (/Label:\s*([^\n]+)/i), the defaults when a tag is missing, and the
 * pass rule. The matcher is modelled by the positions it tries, leftmost
 * first, and by the greedy choice of how much white space \s* takes.
 */
module Grading {
  import opened Optional
  import opened Text

  /**
   * The literal `tag` read case-insensitively at index `i` of `s`. With
   * the `i` flag and no `u` flag, an ASCII letter of the pattern matches
   * only its two ASCII cases, so ASCII case mapping is exact here.
   */
  predicate LabelAt(s: string, i: int, tag: string) {
    0 <= i && i + |tag| <= |s| && Lower(s[i..i + |tag|]) == Lower(tag)
  }

  /** The index of the first character at or after `j` that \s does not match. */
  function SkipSpace(s: string, j: int): (k: int)
    requires 0 <= j <= |s|
    ensures j <= k <= |s|
    ensures forall q :: j <= q < k ==> IsSpace(s[q])
    ensures k == |s| || !IsSpace(s[k])
    decreases |s| - j
  {
    if j < |s| && IsSpace(s[j]) then SkipSpace(s, j + 1) else j
  }

  /** A run of white space followed by a character \s does not match ends where SkipSpace stops. */
  lemma {:induction false} SkipSpaceStops(s: string, j: int, n: int)
    requires 0 <= j && 0 <= n && j + n <= |s|
    requires forall q :: j <= q < j + n ==> IsSpace(s[q])
    requires j + n == |s| || !IsSpace(s[j + n])
    ensures SkipSpace(s, j) == j + n
    decreases n
  {
    if n > 0 {
      assert IsSpace(s[j]);
      SkipSpaceStops(s, j + 1, n - 1);
    }
  }

  /**
   * The position the regular-expression engine tries first among those
   * where `at` matches, scanning `i`, `i + 1`, …, `n`.
   */
  function Leftmost<T>(at: int -> Option<T>, i: int, n: int): (r: Option<T>)
    requires i <= n
    ensures r.None? <==> forall j :: i <= j <= n ==> at(j).None?
    ensures r.Some? ==> exists j :: i <= j <= n && at(j) == r && forall l :: i <= l < j ==> at(l).None?
    decreases n - i
  {
    if at(i).Some? then at(i)
    else if i == n then None
    else Leftmost(at, i + 1, n)
  }

  /** `[A-F]` under the `i` flag. */
  predicate IsGradeLetter(c: char) {
    'A' <= c <= 'F' || 'a' <= c <= 'f'
  }

  const GradeLabel := "Grade:"

  /**
   * The letter /Grade:\s*([A-F])/i captures when the match starts at `i`.
   * A letter is not white space, so greedy \s* never gives any back.
   */
  function GradeAt(s: string, i: int): Option<char> {
    if LabelAt(s, i, GradeLabel) then
      var k := SkipSpace(s, i + |GradeLabel|);
      if k < |s| && IsGradeLetter(s[k]) then Some(s[k]) else None
    else None
  }

  /** The regular expression matches at `i` with `n` characters of white space. */
  predicate GradeMatch(s: string, i: int, n: int, letter: char) {
    && LabelAt(s, i, GradeLabel) && 0 <= n
    && i + |GradeLabel| + n < |s|
    && (forall q :: i + |GradeLabel| <= q < i + |GradeLabel| + n ==> IsSpace(s[q]))
    && IsGradeLetter(s[i + |GradeLabel| + n])
    && letter == s[i + |GradeLabel| + n]
  }

  /** GradeAt captures exactly the letters the regular expression can match at `i`. */
  lemma GradeAtIsMatch(s: string, i: int, letter: char)
    ensures GradeAt(s, i) == Some(letter) <==> exists n :: GradeMatch(s, i, n, letter)
  {
    if GradeAt(s, i) == Some(letter) {
      var start := i + |GradeLabel|;
      assert GradeMatch(s, i, SkipSpace(s, start) - start, letter);
    }
    if n :| GradeMatch(s, i, n, letter) {
      var start := i + |GradeLabel|;
      assert !IsSpace(s[start + n]);
      SkipSpaceStops(s, start, n);
    }
  }

  /** The letter of the first match, if the text has one. */
  function FirstGradeLetter(text: string): (r: Option<char>)
    ensures r.None? <==> forall j :: 0 <= j <= |text| ==> GradeAt(text, j).None?
    ensures r.Some? ==>
              exists j :: 0 <= j <= |text| && GradeAt(text, j) == r && forall l :: 0 <= l < j ==> GradeAt(text, l).None?
  {
    var at := (j: int) => GradeAt(text, j);
    assert forall j :: at(j) == GradeAt(text, j);
    Leftmost(at, 0, |text|)
  }

  const NoGrade := "N/A"

  /**
   * `gradeMatch ? gradeMatch[1].toUpperCase() : "N/A"`: the upper-cased
   * letter of the first match, or "N/A" when nothing matches.
   */
  function ExtractGrade(text: string): (r: string)
    ensures r == NoGrade <==> forall j :: 0 <= j <= |text| ==> GradeAt(text, j).None?
    ensures r != NoGrade ==> |r| == 1 && 'A' <= r[0] <= 'F'
    ensures r != NoGrade ==>
              exists j :: 0 <= j <= |text| && GradeAt(text, j).Some? && r == [UpperChar(GradeAt(text, j).value)]
                          && forall l :: 0 <= l < j ==> GradeAt(text, l).None?
  {
    var first := FirstGradeLetter(text);
    if first.None? then NoGrade else [UpperChar(first.value)]
  }

  /** The reply in the requested format: the grade on its first line, in either case. */
  lemma GradeOfFormattedReply(spaces: string, letter: char, rest: string)
    requires forall q :: 0 <= q < |spaces| ==> IsSpace(spaces[q])
    requires IsGradeLetter(letter)
    ensures ExtractGrade(GradeLabel + spaces + [letter] + rest) == [UpperChar(letter)]
  {
    var text := GradeLabel + spaces + [letter] + rest;
    var start := |GradeLabel|;
    assert text[..start] == GradeLabel;
    assert LabelAt(text, 0, GradeLabel);
    forall q | start <= q < start + |spaces| ensures IsSpace(text[q]) {
      assert text[q] == spaces[q - start];
    }
    assert text[start + |spaces|] == letter;
    SkipSpaceStops(text, start, |spaces|);
    assert GradeAt(text, 0) == Some(letter);
  }

  /** `grade === "A" || grade === "B" || grade === "C"`. */
  predicate Passes(grade: string) {
    grade == "A" || grade == "B" || grade == "C"
  }

  /** An answer passes exactly when the first grade letter is A, B or C in either case. */
  lemma PassesIffGoodLetter(text: string)
    ensures Passes(ExtractGrade(text)) <==>
              FirstGradeLetter(text).Some? && FirstGradeLetter(text).value in "ABCabc"
  {
    if FirstGradeLetter(text).Some? {
      var c := FirstGradeLetter(text).value;
      assert ExtractGrade(text) == [UpperChar(c)];
      if c in "ABCabc" {
        assert c == 'A' || c == 'B' || c == 'C' || c == 'a' || c == 'b' || c == 'c';
      }
    }
  }

  /** A reply without any grade fails, as do the grades D, E and F. */
  lemma NoGradeFails(text: string)
    requires forall j :: 0 <= j <= |text| ==> !LabelAt(text, j, GradeLabel)
    ensures ExtractGrade(text) == NoGrade && !Passes(ExtractGrade(text))
    ensures !Passes("D") && !Passes("E") && !Passes("F")
  {
  }

  /** `s.indexOf("\n", k)`, or the length when there is none. */
  function LineEnd(s: string, k: int): (e: int)
    requires 0 <= k <= |s|
    ensures k <= e <= |s|
    ensures forall q :: k <= q < e ==> s[q] != '\n'
    ensures e == |s| || s[e] == '\n'
    decreases |s| - k
  {
    if k < |s| && s[k] != '\n' then LineEnd(s, k + 1) else k
  }

  /** The largest index in [j, e) whose character is not a line feed. */
  function LastNotLineFeed(s: string, j: int, e: int): (r: Option<int>)
    requires 0 <= j <= e <= |s|
    ensures r.None? ==> forall q :: j <= q < e ==> s[q] == '\n'
    ensures r.Some? ==> j <= r.value < e && s[r.value] != '\n' && forall q :: r.value < q < e ==> s[q] == '\n'
    decreases e - j
  {
    if e == j then None
    else if s[e - 1] != '\n' then Some(e - 1)
    else LastNotLineFeed(s, j, e - 1)
  }

  /**
   * The text /Label:\s*([^\n]+)/i captures when the match starts at `i`.
   * Greedy \s* takes all the white space; when the text then ends, the
   * engine gives back white space until [^\n]+ can take a character that
   * is not a line feed.
   */
  function LineCaptureAt(s: string, i: int, tag: string): Option<string> {
    if LabelAt(s, i, tag) then
      var start := i + |tag|;
      var k := SkipSpace(s, start);
      if k < |s| then Some(s[k..LineEnd(s, k)])
      else
        match LastNotLineFeed(s, start, |s|)
        case None => None
        case Some(p) => Some(s[p..LineEnd(s, p)])
    else None
  }

  /** The regular expression can match at `i` with `n` characters for \s*. */
  predicate LineMatch(s: string, i: int, tag: string, n: int) {
    && LabelAt(s, i, tag) && 0 <= n
    && i + |tag| + n < |s|
    && (forall q :: i + |tag| <= q < i + |tag| + n ==> IsSpace(s[q]))
    && s[i + |tag| + n] != '\n'
  }

  /**
   * LineCaptureAt is the greedy match: the largest count of white space
   * after which [^\n]+ can start, and then the whole rest of that line.
   */
  lemma LineCaptureIsGreedyMatch(s: string, i: int, tag: string)
    ensures LineCaptureAt(s, i, tag).Some? <==> exists n :: LineMatch(s, i, tag, n)
    ensures LineCaptureAt(s, i, tag).Some? ==>
              exists n :: && LineMatch(s, i, tag, n)
                          && (forall m :: LineMatch(s, i, tag, m) ==> m <= n)
                          && LineCaptureAt(s, i, tag).value == s[i + |tag| + n..LineEnd(s, i + |tag| + n)]
  {
    if LabelAt(s, i, tag) {
      var start := i + |tag|;
      if SkipSpace(s, start) < |s| {
        GreedyMatchAt(s, i, tag, SkipSpace(s, start) - start);
      } else if LastNotLineFeed(s, start, |s|).None? {
        NoMatchAtEnd(s, i, tag);
      } else {
        GreedyMatchAt(s, i, tag, LastNotLineFeed(s, start, |s|).value - start);
      }
    }
  }

  /**
   * The capture where \s* takes `n` characters: all the white space when
   * the text goes on after it, otherwise up to the last character that is
   * not a line feed.
   */
  lemma GreedyMatchAt(s: string, i: int, tag: string, n: int)
    requires LabelAt(s, i, tag) && 0 <= n
    requires var start := i + |tag|;
             || (SkipSpace(s, start) < |s| && n == SkipSpace(s, start) - start)
             || (SkipSpace(s, start) >= |s| && LastNotLineFeed(s, start, |s|).Some?
                 && n == LastNotLineFeed(s, start, |s|).value - start)
    ensures LineMatch(s, i, tag, n)
    ensures forall m :: LineMatch(s, i, tag, m) ==> m <= n
    ensures LineCaptureAt(s, i, tag) == Some(s[i + |tag| + n..LineEnd(s, i + |tag| + n)])
  {
    var start := i + |tag|;
    var k := SkipSpace(s, start);
    if k < |s| {
      assert s[k] != '\n';
      assert !IsSpace(s[k]);
    } else {
      var p := LastNotLineFeed(s, start, |s|).value;
      assert p == start + n;
    }
    forall m | LineMatch(s, i, tag, m) ensures m <= n {
    }
  }

  /** White space runs to the end and holds nothing but line feeds: no match. */
  lemma NoMatchAtEnd(s: string, i: int, tag: string)
    requires LabelAt(s, i, tag) && SkipSpace(s, i + |tag|) >= |s|
    requires LastNotLineFeed(s, i + |tag|, |s|).None?
    ensures LineCaptureAt(s, i, tag) == None
    ensures forall n :: !LineMatch(s, i, tag, n)
  {
    var start := i + |tag|;
    forall n | 0 <= n ensures !LineMatch(s, i, tag, n) {
      if start + n < |s| {
        assert s[start + n] == '\n';
      }
    }
  }

  /** What the reply says after `tag`, from the first match. */
  function LabelledLine(text: string, tag: string): (r: Option<string>)
    ensures r.None? <==> forall j :: 0 <= j <= |text| ==> LineCaptureAt(text, j, tag).None?
    ensures r.Some? ==>
              exists j :: 0 <= j <= |text| && LineCaptureAt(text, j, tag) == r
                          && forall l :: 0 <= l < j ==> LineCaptureAt(text, l, tag).None?
  {
    var at := (j: int) => LineCaptureAt(text, j, tag);
    assert forall j :: at(j) == LineCaptureAt(text, j, tag);
    Leftmost(at, 0, |text|)
  }

  /** Any capture with none before it is the one LabelledLine returns. */
  lemma LabelledLineIsLeftmostCapture(text: string, tag: string)
    ensures forall j :: 0 <= j <= |text| && LineCaptureAt(text, j, tag).Some?
                        && (forall l :: 0 <= l < j ==> LineCaptureAt(text, l, tag).None?)
                        ==> LabelledLine(text, tag) == LineCaptureAt(text, j, tag)
  {
    forall j | 0 <= j <= |text| && LineCaptureAt(text, j, tag).Some?
               && (forall l :: 0 <= l < j ==> LineCaptureAt(text, l, tag).None?)
      ensures LabelledLine(text, tag) == LineCaptureAt(text, j, tag)
    {
      var r := LabelledLine(text, tag);
      assert r.Some?;
      var w :| 0 <= w <= |text| && LineCaptureAt(text, w, tag) == r
               && forall l :: 0 <= l < w ==> LineCaptureAt(text, l, tag).None?;
      assert !(w < j) && !(j < w);
    }
  }

  const DefaultExplanation := "No explanation provided"
  const DefaultFeedback := "No feedback provided"

  /**
   * `match ? match[1] : fallback`: the leftmost capture after `tag`, or
   * `fallback` when the tag has no match.
   */
  function CaptureOr(text: string, tag: string, fallback: string): (r: string)
    ensures (forall j :: 0 <= j <= |text| ==> LineCaptureAt(text, j, tag).None?) ==> r == fallback
    ensures r != fallback ==>
              exists j :: 0 <= j <= |text| && LineCaptureAt(text, j, tag) == Some(r)
                          && forall l :: 0 <= l < j ==> LineCaptureAt(text, l, tag).None?
    ensures forall j :: 0 <= j <= |text| && LineCaptureAt(text, j, tag).Some?
                        && (forall l :: 0 <= l < j ==> LineCaptureAt(text, l, tag).None?)
                        ==> r == LineCaptureAt(text, j, tag).value
  {
    var line := LabelledLine(text, tag);
    LabelledLineIsLeftmostCapture(text, tag);
    if line.Some? then line.value else fallback
  }

  /** The `gradeResult` record of a reply. */
  datatype GradeResult = GradeResult(grade: string, explanation: string, feedback: string, fullResponse: string)

  /**
   * The record built from a reply: its grade, the captured explanation and
   * feedback, or the defaults when a tag has no match.
   */
  function GradeOfReply(text: string): (r: GradeResult)
    ensures r.grade == ExtractGrade(text) && r.fullResponse == text
    ensures (forall j :: 0 <= j <= |text| ==> LineCaptureAt(text, j, "Explanation:").None?)
              ==> r.explanation == DefaultExplanation
    ensures (forall j :: 0 <= j <= |text| ==> LineCaptureAt(text, j, "Feedback:").None?)
              ==> r.feedback == DefaultFeedback
    ensures r.explanation != DefaultExplanation ==>
              exists j :: 0 <= j <= |text| && LineCaptureAt(text, j, "Explanation:") == Some(r.explanation)
                          && forall l :: 0 <= l < j ==> LineCaptureAt(text, l, "Explanation:").None?
    ensures r.feedback != DefaultFeedback ==>
              exists j :: 0 <= j <= |text| && LineCaptureAt(text, j, "Feedback:") == Some(r.feedback)
                          && forall l :: 0 <= l < j ==> LineCaptureAt(text, l, "Feedback:").None?
    ensures forall j :: 0 <= j <= |text| && LineCaptureAt(text, j, "Explanation:").Some?
                        && (forall l :: 0 <= l < j ==> LineCaptureAt(text, l, "Explanation:").None?)
                        ==> r.explanation == LineCaptureAt(text, j, "Explanation:").value
    ensures forall j :: 0 <= j <= |text| && LineCaptureAt(text, j, "Feedback:").Some?
                        && (forall l :: 0 <= l < j ==> LineCaptureAt(text, l, "Feedback:").None?)
                        ==> r.feedback == LineCaptureAt(text, j, "Feedback:").value
  {
    GradeResult(
      ExtractGrade(text),
      CaptureOr(text, "Explanation:", DefaultExplanation),
      CaptureOr(text, "Feedback:", DefaultFeedback),
      text)
  }

  /** A tag without a line after it yields nothing: the reply ends in line feeds. */
  lemma LabelAtEndCapturesNothing(tag: string, feeds: string)
    requires forall q :: 0 <= q < |feeds| ==> feeds[q] == '\n'
    ensures LineCaptureAt(tag + feeds, 0, tag) == None
  {
    var s := tag + feeds;
    var start := |tag|;
    assert s[..start] == tag;
    forall q | start <= q < |s| ensures s[q] == '\n' && IsSpace(s[q]) {
      assert s[q] == feeds[q - start];
    }
    SkipSpaceStops(s, start, |feeds|);
  }

  /**
   * When only white space follows the tag up to the end, the engine backs
   * off to the last character that is not a line feed and captures it:
   * "Label: " followed by line feeds captures the single space.
   */
  lemma TrailingSpaceIsCaptured(tag: string, feeds: string)
    requires |feeds| >= 1 && forall q :: 0 <= q < |feeds| ==> feeds[q] == '\n'
    ensures LineCaptureAt(tag + " " + feeds, 0, tag) == Some(" ")
  {
    var s := tag + " " + feeds;
    var start := |tag|;
    assert s[..start] == tag;
    assert s[start] == ' ';
    forall q | start + 1 <= q < |s| ensures s[q] == '\n' {
      assert s[q] == feeds[q - start - 1];
    }
    SkipSpaceStops(s, start, |s| - start);
    var r := LastNotLineFeed(s, start, |s|);
    assert s[start] != '\n';
    assert r == Some(start);
    assert LineEnd(s, start + 1) == start + 1;
    assert s[start..start + 1] == " ";
  }
}
