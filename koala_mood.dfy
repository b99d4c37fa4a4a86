/**
 * The koala's mood (src/utils/koalaMood.js): a threshold on the answer
 * accuracy, the picture and CSS class of a mood, and which encouragement
 * is shown. Accuracy is a percentage computed elsewhere; it is taken as a
 * number here.
 */
module KoalaMood {
  import opened Text

  const Happy := "happy"
  const Sad := "sad"

  /** ACCURACY_THRESHOLD. */
  const AccuracyThreshold: real := 80.0

  const HappyImage := "assets/icons/koala-happy.png"
  const SadImage := "assets/icons/koala-sad.png"

  /** `calculateKoalaMood`: happy from the threshold on, sad below it. */
  function CalculateKoalaMood(accuracy: real): (r: string)
    ensures r == Happy <==> accuracy >= AccuracyThreshold
    ensures r == Sad <==> accuracy < AccuracyThreshold
  {
    if accuracy >= AccuracyThreshold then Happy else Sad
  }

  /** Raising the accuracy never turns a happy koala sad. */
  lemma MoodIsMonotone(lower: real, higher: real)
    requires lower <= higher && CalculateKoalaMood(lower) == Happy
    ensures CalculateKoalaMood(higher) == Happy
  {
  }

  /** `getKoalaImage`: the sad picture for "sad", the happy one for anything else. */
  function GetKoalaImage(mood: string): (r: string)
    ensures r == SadImage <==> mood == Sad
    ensures r == HappyImage <==> mood != Sad
  {
    if mood == Happy then HappyImage
    else if mood == Sad then SadImage
    else HappyImage
  }

  /** The picture of a computed mood is sad exactly below the threshold. */
  lemma ImageOfAccuracy(accuracy: real)
    ensures GetKoalaImage(CalculateKoalaMood(accuracy)) == (if accuracy < AccuracyThreshold then SadImage else HappyImage)
  {
  }

  /** `getKoalaMoodClass`: "koala-" followed by the mood. */
  function GetKoalaMoodClass(mood: string): (r: string)
    ensures StartsWith(r, "koala-") && r[6..] == mood
  {
    "koala-" + mood
  }

  /** Distinct moods get distinct classes. */
  lemma MoodClassIsInjective(m1: string, m2: string)
    ensures GetKoalaMoodClass(m1) == GetKoalaMoodClass(m2) <==> m1 == m2
  {
    if GetKoalaMoodClass(m1) == GetKoalaMoodClass(m2) {
      assert m1 == GetKoalaMoodClass(m1)[6..];
    }
  }

  /** The figures `getKoalaMessage` reads. */
  datatype KoalaStats = KoalaStats(accuracy: real, streak: int, bestStreak: int)

  /**
   * The message `getKoalaMessage` shows, by the branch that chooses it;
   * the interpolated figure is kept, the wording is not.
   */
  datatype KoalaMessage =
    | Amazing(streak: int)
    | Excellent(accuracy: real)
    | GreatJob
    | DontGiveUp
    | KeepStudying
    | AlmostThere

  /** The message is a happy one. */
  predicate Cheerful(m: KoalaMessage) {
    m.Amazing? || m.Excellent? || m.GreatJob?
  }

  /**
   * `getKoalaMessage`: for "happy", a streak above 5 comes before an
   * accuracy of 90 or more, with "Great job" otherwise; any other mood
   * gets "Don't give up" for no streak and an accuracy below 50, else
   * "Keep studying" below 60, else "Almost there".
   */
  function GetKoalaMessage(mood: string, stats: KoalaStats): (r: KoalaMessage)
    ensures Cheerful(r) <==> mood == Happy
    ensures r == Amazing(stats.streak) <==> mood == Happy && stats.streak > 5
    ensures r == Excellent(stats.accuracy) <==> mood == Happy && stats.streak <= 5 && stats.accuracy >= 90.0
    ensures r == GreatJob <==> mood == Happy && stats.streak <= 5 && stats.accuracy < 90.0
    ensures r == DontGiveUp <==> mood != Happy && stats.streak == 0 && stats.accuracy < 50.0
    ensures r == KeepStudying <==> mood != Happy && stats.accuracy < 60.0 && (stats.streak != 0 || stats.accuracy >= 50.0)
    ensures r == AlmostThere <==> mood != Happy && stats.accuracy >= 60.0
  {
    if mood == Happy then
      if stats.streak > 5 then Amazing(stats.streak)
      else if stats.accuracy >= 90.0 then Excellent(stats.accuracy)
      else GreatJob
    else
      if stats.streak == 0 && stats.accuracy < 50.0 then DontGiveUp
      else if stats.accuracy < 60.0 then KeepStudying
      else AlmostThere
  }

  /**
   * With the mood computed from the same accuracy, each message fits the
   * accuracy band it belongs to: a cheerful one needs 80 or more, "Great
   * job" without a long streak means 80 to 90, "Almost there" 60 to 80.
   */
  lemma MessageFitsAccuracy(stats: KoalaStats)
    ensures var m := GetKoalaMessage(CalculateKoalaMood(stats.accuracy), stats);
      && (Cheerful(m) <==> stats.accuracy >= AccuracyThreshold)
      && (m == GreatJob ==> 80.0 <= stats.accuracy < 90.0)
      && (m == AlmostThere ==> 60.0 <= stats.accuracy < 80.0)
      && (m == KeepStudying ==> stats.accuracy < 60.0)
      && (m == DontGiveUp ==> stats.streak == 0 && stats.accuracy < 50.0)
  {
  }
}
