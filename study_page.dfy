/**
 * The study page a blocked request lands on (src/custom-page/CustomPage.jsx):
 * the five-figure score and streak transition of `updateScore`, the
 * grading of a typed answer against the tutor's reply, and `resetCard`.
 * The tutor itself is outside the model: its reply, or the error it
 * raised, is an input; so is the floating-point percentage of correct
 * answers, given as `percent(correct, answered)`.
 */
module StudyPage {
  import opened Optional
  import opened Text
  import opened Grading
  import opened KoalaMood

  /** The figures `updateScore` writes back. */
  datatype ScoreStats = ScoreStats(score: int, streak: int, bestStreak: int, totalCorrect: int, totalAnswered: int)

  const NoAnswersYet := ScoreStats(0, 0, 0, 0, 0)

  /**
   * `updateScore(isCorrect)`: a correct answer adds one to the score, the
   * streak and both totals, and lifts the best streak to the new streak;
   * a wrong one takes one from the score (which may go below zero), ends
   * the streak and counts one more answer.
   */
  function NextScore(st: ScoreStats, isCorrect: bool): (r: ScoreStats)
    ensures r.totalAnswered == st.totalAnswered + 1
    ensures isCorrect ==> && r.score == st.score + 1 && r.streak == st.streak + 1
                          && r.totalCorrect == st.totalCorrect + 1
                          && r.bestStreak == (if r.streak > st.bestStreak then r.streak else st.bestStreak)
    ensures !isCorrect ==> && r.score == st.score - 1 && r.streak == 0
                           && r.totalCorrect == st.totalCorrect && r.bestStreak == st.bestStreak
  {
    if isCorrect then
      var streak := st.streak + 1;
      ScoreStats(st.score + 1, streak, if streak > st.bestStreak then streak else st.bestStreak,
                 st.totalCorrect + 1, st.totalAnswered + 1)
    else
      ScoreStats(st.score - 1, 0, st.bestStreak, st.totalCorrect, st.totalAnswered + 1)
  }

  /** What the figures keep from zero on: the streak never passes the best, nor the best the total. */
  predicate Consistent(st: ScoreStats) {
    0 <= st.streak <= st.bestStreak <= st.totalCorrect <= st.totalAnswered
  }

  lemma NextScoreKeepsConsistency(st: ScoreStats, isCorrect: bool)
    requires Consistent(st)
    ensures Consistent(NextScore(st, isCorrect)) && Consistent(NoAnswersYet)
  {
  }

  /** The figures after answering `answers` in order, `true` for a correct one. */
  function Replay(st: ScoreStats, answers: seq<bool>): ScoreStats
    decreases |answers|
  {
    if answers == [] then st
    else NextScore(Replay(st, answers[..|answers| - 1]), answers[|answers| - 1])
  }

  function CountCorrect(answers: seq<bool>): nat
    decreases |answers|
  {
    if answers == [] then 0
    else CountCorrect(answers[..|answers| - 1]) + (if answers[|answers| - 1] then 1 else 0)
  }

  /** The number of correct answers at the end of `answers`, after the last wrong one. */
  function TrailingCorrect(answers: seq<bool>): (r: nat)
    ensures r <= |answers|
    decreases |answers|
  {
    if answers == [] || !answers[|answers| - 1] then 0
    else TrailingCorrect(answers[..|answers| - 1]) + 1
  }

  /**
   * Over a run of answers both totals grow by the numbers of answers and of
   * correct ones, the score by their difference, and the streak is the run
   * of correct answers since the last wrong one (added to the old streak
   * when there was none).
   */
  lemma {:induction false} ReplayTotals(st: ScoreStats, answers: seq<bool>)
    ensures Replay(st, answers).totalAnswered == st.totalAnswered + |answers|
    ensures Replay(st, answers).totalCorrect == st.totalCorrect + CountCorrect(answers)
    ensures Replay(st, answers).score == st.score + CountCorrect(answers) - (|answers| - CountCorrect(answers))
    ensures Replay(st, answers).streak ==
              if TrailingCorrect(answers) == |answers| then st.streak + |answers| else TrailingCorrect(answers)
    decreases |answers|
  {
    if answers != [] {
      ReplayTotals(st, answers[..|answers| - 1]);
    }
  }

  /** Consistency holds after any run of answers from a consistent start. */
  lemma {:induction false} ReplayKeepsConsistency(st: ScoreStats, answers: seq<bool>)
    requires Consistent(st)
    ensures Consistent(Replay(st, answers))
    decreases |answers|
  {
    if answers != [] {
      ReplayKeepsConsistency(st, answers[..|answers| - 1]);
      NextScoreKeepsConsistency(Replay(st, answers[..|answers| - 1]), answers[|answers| - 1]);
    }
  }

  /**
   * The accuracy the page shows on loading: the percentage of correct
   * answers, and 0 when nothing has been answered.
   */
  function LoadedAccuracy(totalCorrect: int, totalAnswered: int, percent: (int, int) -> real): (r: real)
    ensures totalAnswered <= 0 ==> r == 0.0
    ensures totalAnswered > 0 ==> r == percent(totalCorrect, totalAnswered)
  {
    if totalAnswered > 0 then percent(totalCorrect, totalAnswered) else 0.0
  }

  /** With no answers yet the koala is sad: an accuracy of 0 is below the threshold. */
  lemma NoAnswersMeansSad(totalCorrect: int, percent: (int, int) -> real)
    ensures CalculateKoalaMood(LoadedAccuracy(totalCorrect, 0, percent)) == Sad
  {
  }

  /** Whether the tutor's reply counts the answer as correct. */
  predicate ReplyPasses(reply: string) {
    Passes(ExtractGrade(reply))
  }

  /** A reply carrying no grade costs a point and ends the streak. */
  lemma UngradedReplyCostsAPoint(st: ScoreStats, reply: string)
    requires forall j :: 0 <= j <= |reply| ==> !LabelAt(reply, j, GradeLabel)
    ensures NextScore(st, ReplyPasses(reply)).score == st.score - 1
    ensures NextScore(st, ReplyPasses(reply)).streak == 0
  {
    NoGradeFails(reply);
  }

  /** A reply in the requested format with grade A, B or C, in either case, earns a point. */
  lemma PassingReplyEarnsAPoint(st: ScoreStats, spaces: string, letter: char, rest: string)
    requires forall q :: 0 <= q < |spaces| ==> IsSpace(spaces[q])
    requires letter in "ABCabc"
    ensures NextScore(st, ReplyPasses(GradeLabel + spaces + [letter] + rest)).score == st.score + 1
  {
    assert IsGradeLetter(letter);
    GradeOfFormattedReply(spaces, letter, rest);
    assert letter == 'A' || letter == 'B' || letter == 'C' || letter == 'a' || letter == 'b' || letter == 'c';
  }

  const AnswerSection := "answer-input-section"
  const AnswerSectionSuccess := "answer-input-section bg-success"
  const AnswerSectionFailure := "answer-input-section bg-failure"
  const BlankAnswerMessage := "Please enter an answer before grading"
  const MissingKeyMessage := "Please set your GEMINI_API_KEY environment variable"

  /** The record shown when the tutor could not be reached. */
  function FailedGrading(message: string): GradeResult {
    GradeResult("Error", "Failed to grade answer", "Please check your API key and try again", message)
  }

  /** The page's state variables that the modelled handlers read and write. */
  class CustomPage {
    var score: int
    var streak: int
    var bestStreak: int
    var totalCorrect: int
    var totalAnswered: int
    var koalaMood: string
    var userAnswer: string
    var gradeResult: Option<GradeResult>
    var showAnswerInput: bool
    var isFlipped: bool
    var isGrading: bool
    var allowContinue: bool
    var answerSectionClass: string
    var bannerMessage: Option<string>
    var bannerType: string

    /** The initial values of the page's state. */
    constructor ()
      ensures Stats() == NoAnswersYet && koalaMood == Happy
      ensures userAnswer == "" && gradeResult == None && !showAnswerInput && !isFlipped
      ensures !isGrading && !allowContinue && answerSectionClass == AnswerSection
      ensures bannerMessage == None && bannerType == "error"
    {
      score, streak, bestStreak, totalCorrect, totalAnswered := 0, 0, 0, 0, 0;
      koalaMood := Happy;
      userAnswer := "";
      gradeResult := None;
      showAnswerInput, isFlipped, isGrading, allowContinue := false, false, false, false;
      answerSectionClass := AnswerSection;
      bannerMessage := None;
      bannerType := "error";
    }

    function Stats(): ScoreStats
      reads this`score, this`streak, this`bestStreak, this`totalCorrect, this`totalAnswered
    {
      ScoreStats(score, streak, bestStreak, totalCorrect, totalAnswered)
    }

    /**
     * `updateScore`: the figures move by NextScore and the koala's mood
     * follows the new percentage of correct answers.
     */
    method UpdateScore(isCorrect: bool, percent: (int, int) -> real)
      modifies this`score, this`streak, this`bestStreak, this`totalCorrect, this`totalAnswered, this`koalaMood
      ensures Stats() == NextScore(old(Stats()), isCorrect)
      ensures koalaMood == CalculateKoalaMood(percent(totalCorrect, totalAnswered))
    {
      var newScore := if isCorrect then score + 1 else score - 1;
      var newStreak := streak;
      var newTotalCorrect := totalCorrect;
      var newTotalAnswered := totalAnswered + 1;
      var newBestStreak := bestStreak;
      if isCorrect {
        newStreak := streak + 1;
        newTotalCorrect := totalCorrect + 1;
        if newStreak > bestStreak {
          newBestStreak := newStreak;
        }
      } else {
        newStreak := 0;
      }
      score, streak, totalCorrect, totalAnswered, bestStreak :=
        newScore, newStreak, newTotalCorrect, newTotalAnswered, newBestStreak;
      koalaMood := CalculateKoalaMood(percent(newTotalCorrect, newTotalAnswered));
    }

    /**
     * `gradeAnswer` once the tutor has replied: a blank answer only raises
     * the banner; without an API key the banner asks for one; a reply is
     * read into the grade record and scored, A, B and C counting as
     * correct; a failed call shows the error record and scores nothing.
     */
    method GradeAnswer(apiKey: Option<string>, reply: Result<string, string>, percent: (int, int) -> real)
      modifies this`score, this`streak, this`bestStreak, this`totalCorrect, this`totalAnswered, this`koalaMood
      modifies this`gradeResult, this`isGrading, this`allowContinue, this`answerSectionClass
      modifies this`bannerMessage, this`bannerType
      ensures Trim(old(userAnswer)) == "" ==>
                && bannerMessage == Some(BlankAnswerMessage) && bannerType == "error"
                && Stats() == old(Stats()) && koalaMood == old(koalaMood)
                && gradeResult == old(gradeResult) && isGrading == old(isGrading)
                && allowContinue == old(allowContinue) && answerSectionClass == old(answerSectionClass)
      ensures Trim(old(userAnswer)) != "" && (apiKey.None? || apiKey.value == "") ==>
                && bannerMessage == Some(MissingKeyMessage) && bannerType == "error" && !isGrading
                && Stats() == old(Stats()) && koalaMood == old(koalaMood)
                && gradeResult == old(gradeResult)
                && allowContinue == old(allowContinue) && answerSectionClass == old(answerSectionClass)
      ensures Trim(old(userAnswer)) != "" && apiKey.Some? && apiKey.value != "" && reply.Success? ==>
                && gradeResult == Some(GradeOfReply(reply.value)) && !isGrading
                && bannerMessage == old(bannerMessage) && bannerType == old(bannerType)
                && allowContinue == ReplyPasses(reply.value)
                && answerSectionClass == (if ReplyPasses(reply.value) then AnswerSectionSuccess else AnswerSectionFailure)
                && Stats() == NextScore(old(Stats()), ReplyPasses(reply.value))
                && koalaMood == CalculateKoalaMood(percent(totalCorrect, totalAnswered))
      ensures Trim(old(userAnswer)) != "" && apiKey.Some? && apiKey.value != "" && reply.Failure? ==>
                && gradeResult == Some(FailedGrading(reply.error)) && !isGrading
                && bannerMessage == old(bannerMessage) && bannerType == old(bannerType)
                && Stats() == old(Stats()) && koalaMood == old(koalaMood)
                && allowContinue == old(allowContinue) && answerSectionClass == old(answerSectionClass)
    {
      if Trim(userAnswer) == "" {
        bannerMessage := Some(BlankAnswerMessage);
        bannerType := "error";
        return;
      }
      isGrading := true;
      if apiKey.None? || apiKey.value == "" {
        bannerMessage := Some(MissingKeyMessage);
        bannerType := "error";
        isGrading := false;
        return;
      }
      if reply.Failure? {
        gradeResult := Some(FailedGrading(reply.error));
        isGrading := false;
        return;
      }
      ScoreReply(reply.value, percent);
      isGrading := false;
    }

    /**
     * The part of `gradeAnswer` that reads a reply: the grade record is
     * shown, and A, B or C counts the answer as correct (green section,
     * continue allowed), any other grade as wrong (red section).
     */
    method ScoreReply(generatedText: string, percent: (int, int) -> real)
      modifies this`score, this`streak, this`bestStreak, this`totalCorrect, this`totalAnswered, this`koalaMood
      modifies this`gradeResult, this`allowContinue, this`answerSectionClass
      ensures gradeResult == Some(GradeOfReply(generatedText))
      ensures allowContinue == ReplyPasses(generatedText)
      ensures answerSectionClass == if ReplyPasses(generatedText) then AnswerSectionSuccess else AnswerSectionFailure
      ensures Stats() == NextScore(old(Stats()), ReplyPasses(generatedText))
      ensures koalaMood == CalculateKoalaMood(percent(totalCorrect, totalAnswered))
    {
      gradeResult := Some(GradeOfReply(generatedText));
      var grade := ExtractGrade(generatedText);
      var isCorrect := Passes(grade);
      assert isCorrect == ReplyPasses(generatedText);
      ShowVerdict(isCorrect, percent);
    }

    /** The branch of `gradeAnswer` on the verdict: the section's colour, the continue button and the score. */
    method ShowVerdict(isCorrect: bool, percent: (int, int) -> real)
      modifies this`score, this`streak, this`bestStreak, this`totalCorrect, this`totalAnswered, this`koalaMood
      modifies this`allowContinue, this`answerSectionClass
      ensures allowContinue == isCorrect
      ensures answerSectionClass == if isCorrect then AnswerSectionSuccess else AnswerSectionFailure
      ensures Stats() == NextScore(old(Stats()), isCorrect)
      ensures koalaMood == CalculateKoalaMood(percent(totalCorrect, totalAnswered))
    {
      if isCorrect {
        allowContinue := true;
        answerSectionClass := AnswerSectionSuccess;
        UpdateScore(true, percent);
      } else {
        allowContinue := false;
        answerSectionClass := AnswerSectionFailure;
        UpdateScore(false, percent);
      }
    }

    /** `resetCard`: the answer, its grade and the card's sides back to the start. */
    method ResetCard()
      modifies this`userAnswer, this`gradeResult, this`showAnswerInput, this`isFlipped, this`answerSectionClass
      ensures userAnswer == "" && gradeResult == None && !showAnswerInput && !isFlipped
      ensures answerSectionClass == AnswerSection
    {
      userAnswer := "";
      gradeResult := None;
      showAnswerInput := false;
      isFlipped := false;
      answerSectionClass := AnswerSection;
    }
  }
}
