/** Selecting the elements of a sequence that pass a test, in order, and counting the
    positions that pass it. */
module Selection {
  /** The elements of `xs` that satisfy `keep`, in their order. */
  function Keep<T>(xs: seq<T>, keep: T -> bool): (r: seq<T>)
    ensures |r| <= |xs|
    ensures forall i :: 0 <= i < |r| ==> keep(r[i])
    ensures forall i :: 0 <= i < |r| ==> r[i] in xs
    ensures forall i :: 0 <= i < |xs| && keep(xs[i]) ==> xs[i] in r
  {
    if |xs| == 0 then []
    else
      var init := xs[..|xs| - 1];
      var last := xs[|xs| - 1];
      assert xs == init + [last];
      Keep(init, keep) + (if keep(last) then [last] else [])
  }

  /** Selecting from two sequences laid end to end selects from each in turn: what is kept
      stays in the order it had. */
  lemma {:induction false} KeepAppend<T>(xs: seq<T>, ys: seq<T>, keep: T -> bool)
    ensures Keep(xs + ys, keep) == Keep(xs, keep) + Keep(ys, keep)
    decreases |ys|
  {
    if |ys| == 0 {
      assert xs + ys == xs;
    } else {
      var n := |ys| - 1;
      assert (xs + ys)[..|xs + ys| - 1] == xs + ys[..n];
      KeepAppend(xs, ys[..n], keep);
    }
  }

  /** Each element is kept exactly as often as it occurs in `xs` when it passes, and not at
      all otherwise. */
  lemma {:induction false} KeepMultiplicity<T>(xs: seq<T>, keep: T -> bool, x: T)
    ensures multiset(Keep(xs, keep))[x] == (if keep(x) then multiset(xs)[x] else 0)
    decreases |xs|
  {
    if |xs| > 0 {
      var n := |xs| - 1;
      KeepMultiplicity(xs[..n], keep, x);
      assert xs == xs[..n] + [xs[n]];
    }
  }

  /** The positions of `xs` whose elements satisfy `keep`. */
  function KeptPositions<T>(xs: seq<T>, keep: T -> bool): set<nat> {
    set i: nat | i < |xs| && keep(xs[i])
  }

  /** The kept positions of `xs` are those of all but its last element, and the last
      position when the last element is kept. */
  lemma PositionsOfPrefix<T>(xs: seq<T>, keep: T -> bool)
    requires |xs| > 0
    ensures KeptPositions(xs, keep) ==
              KeptPositions(xs[..|xs| - 1], keep) + (if keep(xs[|xs| - 1]) then {|xs| - 1} else {})
    ensures |xs| - 1 !in KeptPositions(xs[..|xs| - 1], keep)
  {
    var n := |xs| - 1;
    var init := xs[..n];
    forall i: nat | i < n ensures init[i] == xs[i] { }
  }

  /** As many elements are kept as there are positions satisfying `keep`. */
  lemma {:induction false} KeepCountsPositions<T>(xs: seq<T>, keep: T -> bool)
    ensures |Keep(xs, keep)| == |KeptPositions(xs, keep)|
    decreases |xs|
  {
    if |xs| > 0 {
      var n := |xs| - 1;
      var init := xs[..n];
      KeepCountsPositions(init, keep);
      PositionsOfPrefix(xs, keep);
      assert xs == init + [xs[n]];
    }
  }
}
