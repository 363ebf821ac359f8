/**
 * The vocabulary of one day's check-in: habit completion mappings and the
 * mood symbols the form lets the user pick.
 */
module Checkin {
  import opened Wrappers

  /** One entry of a habit completion mapping: the habit's name and whether it was done. */
  datatype Habit = Habit(name: string, done: bool)

  /**
   * A habit completion mapping (a Python dict from name to bool) is a
   * sequence of entries in insertion order; a dict never repeats a key.
   */
  predicate DistinctNames(hs: seq<Habit>)
  {
    forall i, j :: 0 <= i < j < |hs| ==> hs[i].name != hs[j].name
  }

  predicate AllDone(hs: seq<Habit>)
  {
    forall i :: 0 <= i < |hs| ==> hs[i].done
  }

  predicate NoneDone(hs: seq<Habit>)
  {
    forall i :: 0 <= i < |hs| ==> !hs[i].done
  }

  /** The number of completed habits, that is `sum(habits.values())`. */
  function CountDone(hs: seq<Habit>): (n: nat)
    ensures n <= |hs|
  {
    if |hs| == 0 then 0
    else CountDone(hs[..|hs| - 1]) + (if hs[|hs| - 1].done then 1 else 0)
  }

  /** The count is full exactly when every habit is done, and zero exactly when none is. */
  lemma {:induction false} CountDoneExtremes(hs: seq<Habit>)
    ensures CountDone(hs) == |hs| <==> AllDone(hs)
    ensures CountDone(hs) == 0 <==> NoneDone(hs)
  {
    if |hs| > 0 {
      var init := hs[..|hs| - 1];
      CountDoneExtremes(init);
      assert forall i :: 0 <= i < |init| ==> init[i] == hs[i];
    }
  }

  /** Marking one not-yet-done habit as done raises the count by exactly one. */
  lemma {:induction false} CountDoneComplete(hs: seq<Habit>, i: nat)
    requires i < |hs| && !hs[i].done
    ensures CountDone(hs[i := Habit(hs[i].name, true)]) == CountDone(hs) + 1
  {
    var hs' := hs[i := Habit(hs[i].name, true)];
    var n := |hs|;
    if i < n - 1 {
      assert hs'[..n - 1] == hs[..n - 1][i := Habit(hs[i].name, true)];
      assert hs'[n - 1] == hs[n - 1];
      CountDoneComplete(hs[..n - 1], i);
    } else {
      assert hs'[..n - 1] == hs[..n - 1];
      assert hs'[n - 1].done;
    }
  }

  /** Counting is additive over concatenation. */
  lemma {:induction false} CountDoneConcat(hs: seq<Habit>, gs: seq<Habit>)
    ensures CountDone(hs + gs) == CountDone(hs) + CountDone(gs)
  {
    if |gs| > 0 {
      var gsInit := gs[..|gs| - 1];
      assert (hs + gs)[..|hs + gs| - 1] == hs + gsInit;
      CountDoneConcat(hs, gsInit);
    } else {
      assert hs + gs == hs;
    }
  }

  /**
   * Dictionary lookup `habits.get(key)`: the completion recorded under
   * `key`, or None when the mapping has no such key.
   */
  function Lookup(hs: seq<Habit>, key: string): (r: Option<bool>)
    ensures r == None <==> forall i :: 0 <= i < |hs| ==> hs[i].name != key
    ensures r.Some? ==> Habit(key, r.value) in hs
    ensures DistinctNames(hs) ==> forall i :: 0 <= i < |hs| && hs[i].name == key ==> r == Some(hs[i].done)
  {
    if |hs| == 0 then None
    else if hs[0].name == key then Some(hs[0].done)
    else Lookup(hs[1..], key)
  }

  /** The mood symbols the check-in form offers (app.py). */
  const HAPPY: string := "😊"
  const NEUTRAL: string := "😐"
  const FRUSTRATED: string := "😤"
  const CRYING: string := "😭"
  const CALM: string := "🧘"
}
