/**
 * The alignment scorer: a weighted composite in [0, 1] of the share of
 * required habits done, the share of bonus habits done, the mood's valence
 * and the reflection's sentiment, rounded to three decimal places.
 */
module Scoring {
  import opened Wrappers
  import opened Checkin

  /** The weights of the four components; they sum to one. */
  const REQUIRED_WEIGHT: real := 0.4
  const BONUS_WEIGHT: real := 0.2
  const MOOD_WEIGHT: real := 0.2
  const SENTIMENT_WEIGHT: real := 0.2

  /** The valence of each mood symbol of the form; any other mood gets DEFAULT_MOOD_SCORE. */
  const MOOD_SCORES: map<string, real> := map[HAPPY := 1.0, NEUTRAL := 0.5, FRUSTRATED := 0.25, CRYING := 0.0, CALM := 0.9]
  const DEFAULT_MOOD_SCORE: real := 0.5

  /** Dividing by the size of an empty habit mapping raises. */
  datatype ScoreError = ZeroDivisionError

  /** The share of a non-empty habit mapping that is done. */
  function Ratio(hs: seq<Habit>): (r: real)
    requires |hs| > 0
    ensures 0.0 <= r <= 1.0
    ensures r == 0.0 <==> NoneDone(hs)
    ensures r == 1.0 <==> AllDone(hs)
  {
    CountDoneExtremes(hs);
    var done, total := CountDone(hs) as real, |hs| as real;
    ShareBounds(done, total);
    done / total
  }

  /** A part of a positive whole is a share between zero and one, at either end exactly when the part is. */
  lemma ShareBounds(part: real, whole: real)
    requires 0.0 <= part <= whole && whole > 0.0
    ensures 0.0 <= part / whole <= 1.0
    ensures part / whole == 0.0 <==> part == 0.0
    ensures part / whole == 1.0 <==> part == whole
  {
    assert part / whole * whole == part;
  }

  /** The mood's valence: the table's entry, or the neutral default for a mood outside the table. */
  function MoodScore(mood: string): (v: real)
    ensures 0.0 <= v <= 1.0
    ensures mood !in MOOD_SCORES ==> v == DEFAULT_MOOD_SCORE
    ensures v == 1.0 <==> mood == HAPPY
    ensures v == 0.0 <==> mood == CRYING
  {
    if mood in MOOD_SCORES then MOOD_SCORES[mood] else DEFAULT_MOOD_SCORE
  }

  /** The sentiment polarity rescaled from [-1, 1] onto [0, 1]. */
  function NormalizeSentiment(sentiment: real): (n: real)
    ensures -1.0 <= sentiment <= 1.0 <==> 0.0 <= n <= 1.0
    ensures sentiment == -1.0 <==> n == 0.0
    ensures sentiment == 1.0 <==> n == 1.0
  {
    (sentiment + 1.0) / 2.0
  }

  /** The rescaling is affine: it maps a weighted mean of two polarities to the same mean of their images. */
  lemma NormalizeSentimentAffine(s: real, t: real, w: real)
    ensures NormalizeSentiment(w * s + (1.0 - w) * t) == w * NormalizeSentiment(s) + (1.0 - w) * NormalizeSentiment(t)
  {
  }

  /** The unrounded alignment score. */
  function Alignment(required: seq<Habit>, bonus: seq<Habit>, mood: string, sentiment: real): (a: real)
    requires |required| > 0 && |bonus| > 0
    ensures -1.0 <= sentiment <= 1.0 ==> 0.0 <= a <= 1.0
    ensures -1.0 <= sentiment <= 1.0 ==>
      (a == 1.0 <==> AllDone(required) && AllDone(bonus) && mood == HAPPY && sentiment == 1.0)
    ensures -1.0 <= sentiment <= 1.0 ==>
      (a == 0.0 <==> NoneDone(required) && NoneDone(bonus) && mood == CRYING && sentiment == -1.0)
  {
    Composite(Ratio(required), Ratio(bonus), MoodScore(mood), NormalizeSentiment(sentiment))
  }

  /** The weighted sum of the four components. */
  function Composite(requiredRatio: real, bonusRatio: real, moodScore: real, normalizedSentiment: real): (r: real)
    ensures (0.0 <= requiredRatio <= 1.0 && 0.0 <= bonusRatio <= 1.0 && 0.0 <= moodScore <= 1.0
             && 0.0 <= normalizedSentiment <= 1.0) ==> 0.0 <= r <= 1.0
    ensures requiredRatio == 1.0 && bonusRatio == 1.0 && moodScore == 1.0 && normalizedSentiment == 1.0 ==> r == 1.0
    ensures requiredRatio == 0.0 && bonusRatio == 0.0 && moodScore == 0.0 && normalizedSentiment == 0.0 ==> r == 0.0
  {
    REQUIRED_WEIGHT * requiredRatio + BONUS_WEIGHT * bonusRatio
      + MOOD_WEIGHT * moodScore + SENTIMENT_WEIGHT * normalizedSentiment
  }

  /**
   * Rounding to three decimal places: the multiple of 1/1000 nearest to x,
   * ties going up.
   */
  function Round3(x: real): (r: real)
    ensures (r * 1000.0).Floor as real == r * 1000.0
    ensures x - 0.0005 < r <= x + 0.0005
  {
    (x * 1000.0 + 0.5).Floor as real / 1000.0
  }

  /** Rounding keeps a score inside [0, 1]. */
  lemma Round3Bounds(x: real)
    ensures 0.0 <= x <= 1.0 ==> 0.0 <= Round3(x) <= 1.0
  {
    var k := (x * 1000.0 + 0.5).Floor;
    if 0.0 <= x <= 1.0 {
      assert 0 <= k <= 1000;
    }
  }

  /** Rounding never reverses the order of two scores. */
  lemma Round3Monotone(x: real, y: real)
    requires x <= y
    ensures Round3(x) <= Round3(y)
  {
    var kx, ky := (x * 1000.0 + 0.5).Floor, (y * 1000.0 + 0.5).Floor;
    assert kx as real <= y * 1000.0 + 0.5;
    assert kx <= ky;
  }

  /** A value that already has three decimal places is its own rounding. */
  lemma Round3Exact(k: int)
    ensures Round3(k as real / 1000.0) == k as real / 1000.0
  {
    assert (k as real / 1000.0) * 1000.0 + 0.5 == k as real + 0.5;
    assert (k as real + 0.5).Floor == k;
  }

  /**
   * `calculate_alignment_score`: fails when either habit mapping is empty,
   * and otherwise returns the rounded weighted composite.
   */
  function CalculateAlignmentScore(required: seq<Habit>, bonus: seq<Habit>, mood: string, sentiment: real): (r: Result<real, ScoreError>)
    ensures r.Failure? <==> |required| == 0 || |bonus| == 0
    ensures r.Success? ==> (r.value * 1000.0).Floor as real == r.value * 1000.0
    ensures r.Success? ==> -0.0005 < r.value - Alignment(required, bonus, mood, sentiment) <= 0.0005
    ensures r.Success? && -1.0 <= sentiment <= 1.0 ==> 0.0 <= r.value <= 1.0
  {
    if |required| == 0 || |bonus| == 0 then Failure(ZeroDivisionError)
    else
      var a := Alignment(required, bonus, mood, sentiment);
      Round3Bounds(a);
      Success(Round3(a))
  }

  /** A perfect day (everything done, the happiest mood, the most positive reflection) scores exactly 1.0. */
  lemma PerfectDayScoresOne(required: seq<Habit>, bonus: seq<Habit>)
    requires |required| > 0 && |bonus| > 0
    requires AllDone(required) && AllDone(bonus)
    ensures CalculateAlignmentScore(required, bonus, HAPPY, 1.0) == Success(1.0)
  {
    assert Alignment(required, bonus, HAPPY, 1.0) == 1000 as real / 1000.0;
    Round3Exact(1000);
  }

  /** The worst day (nothing done, the crying mood, the most negative reflection) scores exactly 0.0. */
  lemma WorstDayScoresZero(required: seq<Habit>, bonus: seq<Habit>)
    requires |required| > 0 && |bonus| > 0
    requires NoneDone(required) && NoneDone(bonus)
    ensures CalculateAlignmentScore(required, bonus, CRYING, -1.0) == Success(0.0)
  {
    assert Alignment(required, bonus, CRYING, -1.0) == 0 as real / 1000.0;
    Round3Exact(0);
  }

  /**
   * Completing one more required habit, all else fixed, adds exactly
   * REQUIRED_WEIGHT / |required| to the unrounded score, so the rounded
   * score never goes down.
   */
  lemma CompletingRequiredRaisesScore(required: seq<Habit>, bonus: seq<Habit>, mood: string, sentiment: real, i: nat)
    requires |bonus| > 0
    requires i < |required| && !required[i].done
    ensures Alignment(required[i := Habit(required[i].name, true)], bonus, mood, sentiment)
         == Alignment(required, bonus, mood, sentiment) + REQUIRED_WEIGHT / |required| as real
    ensures CalculateAlignmentScore(required, bonus, mood, sentiment).value
         <= CalculateAlignmentScore(required[i := Habit(required[i].name, true)], bonus, mood, sentiment).value
  {
    var required' := required[i := Habit(required[i].name, true)];
    var n := |required| as real;
    var r, r' := Ratio(required), Ratio(required');
    var b, m, s := Ratio(bonus), MoodScore(mood), NormalizeSentiment(sentiment);
    RatioComplete(required, i);
    assert r' == r + 1.0 / n;
    assert Composite(r', b, m, s) == Composite(r, b, m, s) + REQUIRED_WEIGHT / n by {
      assert REQUIRED_WEIGHT * (1.0 / n) == REQUIRED_WEIGHT / n;
    }
    Round3Monotone(Composite(r, b, m, s), Composite(r', b, m, s));
  }

  /** Completing one habit raises a mapping's done share by one over its size. */
  lemma RatioComplete(hs: seq<Habit>, i: nat)
    requires i < |hs| && !hs[i].done
    ensures Ratio(hs[i := Habit(hs[i].name, true)]) == Ratio(hs) + 1.0 / |hs| as real
  {
    var hs' := hs[i := Habit(hs[i].name, true)];
    var c, n := CountDone(hs) as real, |hs| as real;
    CountDoneComplete(hs, i);
    assert Ratio(hs') == (c + 1.0) / n;
    DivAddOne(c, n);
  }

  lemma DivAddOne(c: real, n: real)
    requires n > 0.0
    ensures (c + 1.0) / n == c / n + 1.0 / n
  {
  }

  /**
   * An example day: two of the seven required habits done, no bonus
   * habit done, the neutral mood and a neutral reflection score 0.314
   * (0.4 * 2/7 + 0.1 + 0.1, about 0.3143, before rounding).
   */
  lemma NeutralDayExample(required: seq<Habit>, bonus: seq<Habit>)
    requires required == [Habit("Fajr", true), Habit("Dhuhr", true), Habit("Asr", false), Habit("Maghrib", false),
                          Habit("Isha", false), Habit("Read Qur'an", false), Habit("No Caffeine", false)]
    requires bonus == [Habit("Stretch", false), Habit("Journal", false), Habit("Lowered Gaze", false)]
    ensures CalculateAlignmentScore(required, bonus, NEUTRAL, 0.0) == Success(0.314)
  {
    var done, missed := required[..2], required[2..];
    assert required == done + missed;
    CountDoneExtremes(done);
    CountDoneExtremes(missed);
    CountDoneConcat(done, missed);
    assert Ratio(required) == 2.0 / 7.0;
    CountDoneExtremes(bonus);
    assert Ratio(bonus) == 0.0;
    assert MoodScore(NEUTRAL) == 0.5;
    var a := Composite(2.0 / 7.0, 0.0, 0.5, NormalizeSentiment(0.0));
    assert Alignment(required, bonus, NEUTRAL, 0.0) == a;
    assert a == 0.4 * (2.0 / 7.0) + 0.2;
    assert (a * 1000.0 + 0.5).Floor == 314;
  }
}
