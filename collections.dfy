/** Sequence helpers shared by the services. */
module Collections {

  predicate Distinct<T(==)>(s: seq<T>) {
    forall i, j :: 0 <= i < j < |s| ==> s[i] != s[j]
  }

  /** `[...new Set(xs)]`: each element once, in the order of its first occurrence. */
  function Dedup<T(==)>(xs: seq<T>): seq<T> {
    if |xs| == 0 then []
    else
      var init := Dedup(xs[..|xs| - 1]);
      if xs[|xs| - 1] in init then init else init + [xs[|xs| - 1]]
  }

  /**
   * The deduplicated list holds every element of the input and nothing else, each
   * once, and keeps the first element in front.
   */
  lemma {:induction false} DedupFacts<T>(xs: seq<T>)
    ensures Distinct(Dedup(xs))
    ensures forall x :: x in Dedup(xs) <==> x in xs
    ensures |xs| > 0 ==> |Dedup(xs)| > 0 && Dedup(xs)[0] == xs[0]
    ensures |Dedup(xs)| <= |xs|
  {
    if |xs| > 0 {
      var init := xs[..|xs| - 1];
      DedupFacts(init);
      assert xs == init + [xs[|xs| - 1]];
    }
  }

  /** A list without repeats is its own deduplication. */
  lemma {:induction false} DedupDistinct<T>(xs: seq<T>)
    requires Distinct(xs)
    ensures Dedup(xs) == xs
  {
    if |xs| > 0 {
      var init := xs[..|xs| - 1];
      DedupDistinct(init);
      assert xs[|xs| - 1] !in init by {
        forall i | 0 <= i < |init| ensures init[i] != xs[|xs| - 1] {
          assert init[i] == xs[i];
        }
      }
      assert xs == init + [xs[|xs| - 1]];
    }
  }
}
