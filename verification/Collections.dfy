/** An optional value, and sequences without repetition. */
module Collections {
  datatype Option<T> = None | Some(value: T)

  ghost predicate Distinct<T>(s: seq<T>) {
    forall i, j :: 0 <= i < j < |s| ==> s[i] != s[j]
  }

  /** What a log has gained. */
  function Gained<T>(before: seq<T>, after: seq<T>): seq<T> {
    if |before| <= |after| then after[|before|..] else []
  }

  lemma GainedOne<T>(s: seq<T>, x: T)
    ensures Gained(s, s) == [] && Gained(s, s + [x]) == [x]
  {
  }
}
