/** Visit counting: how often a value occurs in the log of observed values. */
module Histogram {
  function Occurrences<T(==)>(log: seq<T>, x: T): nat
  {
    if log == [] then 0
    else Occurrences(log[..|log| - 1], x) + (if log[|log| - 1] == x then 1 else 0)
  }

  lemma OccurrencesAppend<T>(log: seq<T>, y: T, x: T)
    ensures Occurrences(log + [y], x) == Occurrences(log, x) + (if y == x then 1 else 0)
  {
    assert (log + [y])[..|log|] == log;
  }

  /** A value has count zero exactly when it was never observed. */
  lemma {:induction false} OccurrencesZero<T>(log: seq<T>, x: T)
    ensures Occurrences(log, x) == 0 <==> x !in log
  {
    if log != [] {
      var init := log[..|log| - 1];
      OccurrencesZero(init, x);
      assert log == init + [log[|log| - 1]];
    }
  }
}
