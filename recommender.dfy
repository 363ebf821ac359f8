/**
 * The habit recommender: tomorrow's focus list, built from the required
 * habits missed today and, on a low or upset day, the self-care boosters
 * not yet done, deduplicated and cut to three.
 */
module Recommender {
  import opened Wrappers
  import opened Checkin
  import Scoring

  /** Below this alignment the day counts as low. */
  const LOW_ALIGNMENT: real := 0.5
  /** The two lowest-valence moods. */
  const NEGATIVE_MOODS: seq<string> := [CRYING, FRUSTRATED]
  /** The self-care bonus habits, in the order they are proposed. */
  const EMOTIONAL_BOOSTERS: seq<string> := ["Stretch", "Journal", "Lowered Gaze"]
  const MAX_SUGGESTIONS: nat := 3

  predicate NoDuplicates<T(==)>(s: seq<T>)
  {
    forall i, j :: 0 <= i < j < |s| ==> s[i] != s[j]
  }

  /** The negative moods are exactly the two lowest-valence moods of the scorer's table. */
  lemma NegativeMoodsAreLowest()
    ensures |NEGATIVE_MOODS| == 2 && forall n :: n in NEGATIVE_MOODS ==> n in Scoring.MOOD_SCORES
    ensures forall m, n :: m in Scoring.MOOD_SCORES && m !in NEGATIVE_MOODS && n in NEGATIVE_MOODS ==>
      Scoring.MOOD_SCORES[n] < Scoring.MOOD_SCORES[m]
  {
  }

  /** Whether the day calls for the emotional boosters. */
  predicate NeedsBoost(mood: string, alignment: real)
    ensures NeedsBoost(mood, alignment) <==> alignment < LOW_ALIGNMENT || Scoring.MoodScore(mood) < LOW_ALIGNMENT
  {
    alignment < LOW_ALIGNMENT || mood in NEGATIVE_MOODS
  }

  /** The names of the required habits not done, in mapping order. */
  function MissedRequired(required: seq<Habit>): (r: seq<string>)
    ensures |r| == |required| - CountDone(required)
  {
    if |required| == 0 then []
    else
      var last := required[|required| - 1];
      MissedRequired(required[..|required| - 1]) + (if last.done then [] else [last.name])
  }

  /** The boosters, in their fixed order, that the bonus mapping holds and marks not done. */
  function AvailableBoosters(bonus: seq<Habit>, boosters: seq<string>): (r: seq<string>)
    ensures |r| <= |boosters|
  {
    if |boosters| == 0 then []
    else
      var last := boosters[|boosters| - 1];
      AvailableBoosters(bonus, boosters[..|boosters| - 1])
        + (if Lookup(bonus, last) == Some(false) then [last] else [])
  }

  /** Every suggestion before deduplication: missed required habits, then boosters if the day calls for them. */
  function Candidates(required: seq<Habit>, bonus: seq<Habit>, mood: string, alignment: real): (r: seq<string>)
    ensures MissedRequired(required) <= r
    ensures |r| <= |required| - CountDone(required) + |EMOTIONAL_BOOSTERS|
    ensures !NeedsBoost(mood, alignment) ==> |r| == |required| - CountDone(required)
  {
    MissedRequired(required)
      + (if NeedsBoost(mood, alignment) then AvailableBoosters(bonus, EMOTIONAL_BOOSTERS) else [])
  }

  /** `list(dict.fromkeys(s))`: the first occurrence of each element, in order. */
  function Unique(s: seq<string>): (r: seq<string>)
    ensures NoDuplicates(r)
    ensures forall x :: x in r <==> x in s
    ensures |r| <= |s|
  {
    if |s| == 0 then []
    else
      var u := Unique(s[..|s| - 1]);
      if s[|s| - 1] in u then u else u + [s[|s| - 1]]
  }

  /** The slice `s[:n]`. */
  function Take<T>(s: seq<T>, n: nat): (r: seq<T>)
    ensures r <= s
    ensures |r| == if |s| <= n then |s| else n
  {
    if |s| <= n then s else s[..n]
  }

  /** The recommendation list `suggest_habits` returns. */
  function Suggestions(required: seq<Habit>, bonus: seq<Habit>, mood: string, alignment: real): (r: seq<string>)
    ensures |r| <= MAX_SUGGESTIONS
    ensures NoDuplicates(r)
    ensures r <= Unique(Candidates(required, bonus, mood, alignment))
  {
    Take(Unique(Candidates(required, bonus, mood, alignment)), MAX_SUGGESTIONS)
  }

  /** `suggest_habits`: collects the candidates in two loops, then deduplicates and truncates. */
  method SuggestHabits(required: seq<Habit>, bonus: seq<Habit>, mood: string, alignment: real) returns (result: seq<string>)
    ensures result == Suggestions(required, bonus, mood, alignment)
    ensures |result| <= MAX_SUGGESTIONS
    ensures NoDuplicates(result)
    ensures forall x :: x in result ==>
      Habit(x, false) in required
      || (NeedsBoost(mood, alignment) && x in EMOTIONAL_BOOSTERS && Lookup(bonus, x) == Some(false))
  {
    var suggestions: seq<string> := [];

    for i := 0 to |required|
      invariant suggestions == MissedRequired(required[..i])
    {
      assert required[..i + 1][..i] == required[..i];
      if !required[i].done {
        suggestions := suggestions + [required[i].name];
      }
    }
    assert required[..|required|] == required;

    if alignment < LOW_ALIGNMENT || mood in NEGATIVE_MOODS {
      var boosters := EMOTIONAL_BOOSTERS;
      for k := 0 to |boosters|
        invariant suggestions == MissedRequired(required) + AvailableBoosters(bonus, boosters[..k])
      {
        assert boosters[..k + 1][..k] == boosters[..k];
        var habit := boosters[k];
        if Lookup(bonus, habit) == Some(false) {
          suggestions := suggestions + [habit];
        }
      }
      assert boosters[..|boosters|] == boosters;
    } else {
      assert suggestions == MissedRequired(required) + [];
    }
    assert suggestions == Candidates(required, bonus, mood, alignment);

    var unique := Unique(suggestions);
    result := Take(unique, MAX_SUGGESTIONS);
    SuggestionsSound(required, bonus, mood, alignment);
  }

  /** A name is a missed required habit exactly when the mapping holds it as not done. */
  lemma {:induction false} MissedRequiredMembers(required: seq<Habit>)
    ensures forall x :: x in MissedRequired(required) <==> Habit(x, false) in required
  {
    if |required| > 0 {
      var init := required[..|required| - 1];
      MissedRequiredMembers(init);
      assert required == init + [required[|required| - 1]];
    }
  }

  /** When every required habit is done, none is missed. */
  lemma {:induction false} MissedRequiredAllDone(required: seq<Habit>)
    requires AllDone(required)
    ensures MissedRequired(required) == []
  {
    if |required| > 0 {
      MissedRequiredAllDone(required[..|required| - 1]);
    }
  }

  /** Collecting missed habits distributes over concatenation. */
  lemma {:induction false} MissedRequiredConcat(hs: seq<Habit>, gs: seq<Habit>)
    ensures MissedRequired(hs + gs) == MissedRequired(hs) + MissedRequired(gs)
  {
    if |gs| == 0 {
      assert hs + gs == hs;
    } else {
      var gsInit := gs[..|gs| - 1];
      assert (hs + gs)[..|hs + gs| - 1] == hs + gsInit;
      MissedRequiredConcat(hs, gsInit);
    }
  }

  /** A dict never repeats a key, so no missed required habit is listed twice. */
  lemma {:induction false} MissedRequiredDistinct(required: seq<Habit>)
    requires DistinctNames(required)
    ensures NoDuplicates(MissedRequired(required))
  {
    if |required| > 0 {
      var init := required[..|required| - 1];
      var last := required[|required| - 1];
      assert DistinctNames(init);
      MissedRequiredDistinct(init);
      MissedRequiredMembers(init);
    }
  }

  /** A booster is offered exactly when it is one of the boosters and the bonus mapping marks it not done. */
  lemma {:induction false} AvailableBoostersMembers(bonus: seq<Habit>, boosters: seq<string>)
    ensures forall x :: x in AvailableBoosters(bonus, boosters) <==> x in boosters && Lookup(bonus, x) == Some(false)
  {
    if |boosters| > 0 {
      var init := boosters[..|boosters| - 1];
      AvailableBoostersMembers(bonus, init);
      assert boosters == init + [boosters[|boosters| - 1]];
    }
  }

  /** Collecting boosters distributes over concatenation, so earlier boosters come first. */
  lemma {:induction false} AvailableBoostersConcat(bonus: seq<Habit>, boosters: seq<string>, more: seq<string>)
    ensures AvailableBoosters(bonus, boosters + more) == AvailableBoosters(bonus, boosters) + AvailableBoosters(bonus, more)
  {
    if |more| == 0 {
      assert boosters + more == boosters;
    } else {
      var moreInit := more[..|more| - 1];
      assert (boosters + more)[..|boosters + more| - 1] == boosters + moreInit;
      AvailableBoostersConcat(bonus, boosters, moreInit);
    }
  }

  /** A booster list without repeats yields no booster twice. */
  lemma {:induction false} AvailableBoostersDistinct(bonus: seq<Habit>, boosters: seq<string>)
    requires NoDuplicates(boosters)
    ensures NoDuplicates(AvailableBoosters(bonus, boosters))
  {
    if |boosters| > 0 {
      var init := boosters[..|boosters| - 1];
      assert NoDuplicates(init);
      AvailableBoostersDistinct(bonus, init);
      AvailableBoostersMembers(bonus, init);
      assert boosters[|boosters| - 1] !in init;
    }
  }

  /** The boosters are offered in the fixed order Stretch, Journal, Lowered Gaze, each when present and not done. */
  lemma BoostersInFixedOrder(bonus: seq<Habit>)
    ensures AvailableBoosters(bonus, EMOTIONAL_BOOSTERS)
      == (if Lookup(bonus, "Stretch") == Some(false) then ["Stretch"] else [])
       + (if Lookup(bonus, "Journal") == Some(false) then ["Journal"] else [])
       + (if Lookup(bonus, "Lowered Gaze") == Some(false) then ["Lowered Gaze"] else [])
  {
    var stretch, journal, gaze := ["Stretch"], ["Journal"], ["Lowered Gaze"];
    assert EMOTIONAL_BOOSTERS == stretch + journal + gaze;
    AvailableBoostersConcat(bonus, stretch + journal, gaze);
    AvailableBoostersConcat(bonus, stretch, journal);
    AvailableBoostersSingle(bonus, "Stretch");
    AvailableBoostersSingle(bonus, "Journal");
    AvailableBoostersSingle(bonus, "Lowered Gaze");
  }

  /** A single booster is offered exactly when the bonus mapping holds it as not done. */
  lemma AvailableBoostersSingle(bonus: seq<Habit>, booster: string)
    ensures AvailableBoosters(bonus, [booster]) == if Lookup(bonus, booster) == Some(false) then [booster] else []
  {
    assert [booster][..0] == [];
  }

  /** Deduplicating a list that has no duplicates leaves it as it is. */
  lemma {:induction false} UniqueOfDistinct(s: seq<string>)
    requires NoDuplicates(s)
    ensures Unique(s) == s
  {
    if |s| > 0 {
      var init := s[..|s| - 1];
      UniqueOfDistinct(init);
      assert s[|s| - 1] !in init;
      assert s == init + [s[|s| - 1]];
    }
  }

  /** Deduplication keeps first occurrences: what comes later never displaces what came first. */
  lemma {:induction false} UniquePrefix(s: seq<string>, t: seq<string>)
    ensures Unique(s) <= Unique(s + t)
  {
    if |t| == 0 {
      assert s + t == s;
    } else {
      var tInit := t[..|t| - 1];
      UniquePrefix(s, tInit);
      assert (s + t)[..|s + t| - 1] == s + tInit;
    }
  }

  /** Every suggestion is a missed required habit, or a booster that the day calls for and that is not done. */
  lemma SuggestionsSound(required: seq<Habit>, bonus: seq<Habit>, mood: string, alignment: real)
    ensures var r := Suggestions(required, bonus, mood, alignment);
      |r| <= MAX_SUGGESTIONS && NoDuplicates(r)
      && forall x :: x in r ==>
        Habit(x, false) in required
        || (NeedsBoost(mood, alignment) && x in EMOTIONAL_BOOSTERS && Lookup(bonus, x) == Some(false))
  {
    var u := Unique(Candidates(required, bonus, mood, alignment));
    var r := Suggestions(required, bonus, mood, alignment);
    MissedRequiredMembers(required);
    AvailableBoostersMembers(bonus, EMOTIONAL_BOOSTERS);
    assert forall x :: x in r ==> x in u;
  }

  /**
   * Missed required habits come first, in mapping order: the first three of
   * them (or all, if fewer) open the list, so with three or more missed the
   * list is exactly the first three.
   */
  lemma RequiredFirst(required: seq<Habit>, bonus: seq<Habit>, mood: string, alignment: real)
    requires DistinctNames(required)
    ensures Take(MissedRequired(required), MAX_SUGGESTIONS) <= Suggestions(required, bonus, mood, alignment)
    ensures |MissedRequired(required)| >= MAX_SUGGESTIONS ==>
      Suggestions(required, bonus, mood, alignment) == MissedRequired(required)[..MAX_SUGGESTIONS]
  {
    var missed := MissedRequired(required);
    var boosters := if NeedsBoost(mood, alignment) then AvailableBoosters(bonus, EMOTIONAL_BOOSTERS) else [];
    assert Candidates(required, bonus, mood, alignment) == missed + boosters;
    MissedRequiredDistinct(required);
    UniqueOfDistinct(missed);
    UniquePrefix(missed, boosters);
    TakeOfPrefix(missed, Unique(missed + boosters), MAX_SUGGESTIONS);
  }

  /** Cutting two lists at the same length keeps one a prefix of the other. */
  lemma TakeOfPrefix(a: seq<string>, b: seq<string>, n: nat)
    requires a <= b
    ensures Take(a, n) <= Take(b, n)
    ensures |a| >= n ==> Take(b, n) == a[..n]
  {
  }

  /** On a day that does not call for boosters, no bonus habit is suggested: only missed required habits, in order. */
  lemma NoBoostOnlyRequired(required: seq<Habit>, bonus: seq<Habit>, mood: string, alignment: real)
    requires !NeedsBoost(mood, alignment)
    requires DistinctNames(required)
    ensures Suggestions(required, bonus, mood, alignment) == Take(MissedRequired(required), MAX_SUGGESTIONS)
  {
    var missed := MissedRequired(required);
    MissedRequiredDistinct(required);
    UniqueOfDistinct(missed);
    assert Candidates(required, bonus, mood, alignment) == missed;
  }

  /** With every required habit done and no call for boosters, there is nothing to suggest. */
  lemma AllRequiredDoneNoSuggestions(required: seq<Habit>, bonus: seq<Habit>, mood: string, alignment: real)
    requires !NeedsBoost(mood, alignment)
    requires AllDone(required)
    ensures Suggestions(required, bonus, mood, alignment) == []
  {
    MissedRequiredAllDone(required);
    assert Candidates(required, bonus, mood, alignment) == MissedRequired(required) + [];
  }

  /**
   * On a day that calls for boosters and with every required habit done, the
   * list is exactly the boosters present in the bonus mapping and not done,
   * in their fixed order.
   */
  lemma BoostDayBoostersOnly(required: seq<Habit>, bonus: seq<Habit>, mood: string, alignment: real)
    requires NeedsBoost(mood, alignment)
    requires AllDone(required)
    ensures Suggestions(required, bonus, mood, alignment) == AvailableBoosters(bonus, EMOTIONAL_BOOSTERS)
  {
    var boosters := AvailableBoosters(bonus, EMOTIONAL_BOOSTERS);
    MissedRequiredAllDone(required);
    assert Candidates(required, bonus, mood, alignment) == boosters;
    assert NoDuplicates(EMOTIONAL_BOOSTERS);
    AvailableBoostersDistinct(bonus, EMOTIONAL_BOOSTERS);
    UniqueOfDistinct(boosters);
  }

  /**
   * On a day that calls for boosters, the missed required habits come first
   * and the boosters present and not done fill the remaining slots in their
   * fixed order, up to three in all.
   */
  lemma BoostDayMissedThenBoosters(required: seq<Habit>, bonus: seq<Habit>, mood: string, alignment: real)
    requires NeedsBoost(mood, alignment)
    requires DistinctNames(required)
    requires forall i :: 0 <= i < |required| ==> required[i].name !in EMOTIONAL_BOOSTERS
    ensures Suggestions(required, bonus, mood, alignment)
      == Take(MissedRequired(required) + AvailableBoosters(bonus, EMOTIONAL_BOOSTERS), MAX_SUGGESTIONS)
  {
    var missed := MissedRequired(required);
    var boosters := AvailableBoosters(bonus, EMOTIONAL_BOOSTERS);
    assert Candidates(required, bonus, mood, alignment) == missed + boosters;
    MissedRequiredDistinct(required);
    MissedRequiredMembers(required);
    assert NoDuplicates(EMOTIONAL_BOOSTERS);
    AvailableBoostersDistinct(bonus, EMOTIONAL_BOOSTERS);
    AvailableBoostersMembers(bonus, EMOTIONAL_BOOSTERS);
    forall x | x in missed
      ensures x !in boosters
    {
      var i :| 0 <= i < |required| && required[i] == Habit(x, false);
    }
    DisjointConcatDistinct(missed, boosters);
    UniqueOfDistinct(missed + boosters);
  }

  /** Two lists without duplicates and with no element in common concatenate to a list without duplicates. */
  lemma DisjointConcatDistinct(a: seq<string>, b: seq<string>)
    requires NoDuplicates(a) && NoDuplicates(b)
    requires forall x :: x in a ==> x !in b
    ensures NoDuplicates(a + b)
  {
    forall i, j | 0 <= i < j < |a + b|
      ensures (a + b)[i] != (a + b)[j]
    {
      if i < |a| && j >= |a| {
        assert (a + b)[i] in a && (a + b)[j] in b;
      }
    }
  }

  /** A perfect day (everything done, the happiest mood, the most positive reflection) leaves nothing to suggest. */
  lemma PerfectDayNoSuggestions(required: seq<Habit>, bonus: seq<Habit>)
    requires |required| > 0 && |bonus| > 0
    requires AllDone(required) && AllDone(bonus)
    ensures var score := Scoring.CalculateAlignmentScore(required, bonus, HAPPY, 1.0);
      score.Success? && Suggestions(required, bonus, HAPPY, score.value) == []
  {
    Scoring.PerfectDayScoresOne(required, bonus);
    AllRequiredDoneNoSuggestions(required, bonus, HAPPY, 1.0);
  }

  /**
   * An example day: with Fajr and Dhuhr done, no bonus habit done and a
   * neutral mood, the day scores 0.314 and the suggestions are the first
   * three missed prayers.
   */
  lemma NeutralDaySuggestions(required: seq<Habit>, bonus: seq<Habit>)
    requires required == [Habit("Fajr", true), Habit("Dhuhr", true), Habit("Asr", false), Habit("Maghrib", false),
                          Habit("Isha", false), Habit("Read Qur'an", false), Habit("No Caffeine", false)]
    requires bonus == [Habit("Stretch", false), Habit("Journal", false), Habit("Lowered Gaze", false)]
    ensures var score := Scoring.CalculateAlignmentScore(required, bonus, NEUTRAL, 0.0);
      score == Success(0.314) && Suggestions(required, bonus, NEUTRAL, score.value) == ["Asr", "Maghrib", "Isha"]
  {
    Scoring.NeutralDayExample(required, bonus);
    var done := [Habit("Fajr", true), Habit("Dhuhr", true)];
    var prayers := [Habit("Asr", false), Habit("Maghrib", false), Habit("Isha", false)];
    var rest := [Habit("Read Qur'an", false), Habit("No Caffeine", false)];
    assert required == done + prayers + rest;
    MissedRequiredAllDone(done);
    assert MissedRequired(prayers) == ["Asr", "Maghrib", "Isha"];
    MissedRequiredConcat(done, prayers);
    MissedRequiredConcat(done + prayers, rest);
    assert MissedRequired(required)[..MAX_SUGGESTIONS] == ["Asr", "Maghrib", "Isha"];
    assert DistinctNames(required);
    RequiredFirst(required, bonus, NEUTRAL, 0.314);
  }
}
