/** Order-preserving selection from a sequence, and the exact description of
    what it keeps: which positions, in which order, each once. */
module Seqs {

  /** The elements of `xs` that satisfy `p`, in their original order. */
  function Keep<T>(xs: seq<T>, p: T -> bool): (ys: seq<T>)
    ensures |ys| <= |xs|
    ensures forall k :: 0 <= k < |ys| ==> p(ys[k])
    decreases |xs|
  {
    if |xs| == 0 then []
    else Keep(xs[..|xs| - 1], p) + (if p(xs[|xs| - 1]) then [xs[|xs| - 1]] else [])
  }

  /** The positions in `xs` of the elements that satisfy `p`, ascending. */
  function KeptPositions<T>(xs: seq<T>, p: T -> bool): seq<nat>
    decreases |xs|
  {
    if |xs| == 0 then []
    else KeptPositions(xs[..|xs| - 1], p) + (if p(xs[|xs| - 1]) then [|xs| - 1] else [])
  }

  ghost predicate StrictlyIncreasing(ps: seq<nat>)
  {
    forall k, l :: 0 <= k < l < |ps| ==> ps[k] < ps[l]
  }

  lemma {:induction false} KeptPositionsBounded<T>(xs: seq<T>, p: T -> bool)
    ensures |Keep(xs, p)| == |KeptPositions(xs, p)|
    ensures forall k :: 0 <= k < |KeptPositions(xs, p)| ==> KeptPositions(xs, p)[k] < |xs|
    decreases |xs|
  {
    if |xs| > 0 {
      KeptPositionsBounded(xs[..|xs| - 1], p);
    }
  }

  lemma {:induction false} KeptPositionsIncreasing<T>(xs: seq<T>, p: T -> bool)
    ensures StrictlyIncreasing(KeptPositions(xs, p))
    decreases |xs|
  {
    if |xs| > 0 {
      KeptPositionsIncreasing(xs[..|xs| - 1], p);
      KeptPositionsBounded(xs[..|xs| - 1], p);
    }
  }

  lemma {:induction false} KeepAtPositions<T>(xs: seq<T>, p: T -> bool)
    ensures |Keep(xs, p)| == |KeptPositions(xs, p)|
    ensures forall k :: 0 <= k < |KeptPositions(xs, p)| ==>
              KeptPositions(xs, p)[k] < |xs| && Keep(xs, p)[k] == xs[KeptPositions(xs, p)[k]]
    decreases |xs|
  {
    KeptPositionsBounded(xs, p);
    if |xs| > 0 {
      var init := xs[..|xs| - 1];
      KeepAtPositions(init, p);
      var ps := KeptPositions(init, p);
      forall k | 0 <= k < |ps|
        ensures Keep(xs, p)[k] == xs[ps[k]]
      {
        assert init[ps[k]] == xs[ps[k]];
      }
    }
  }

  lemma {:induction false} KeptPositionsComplete<T>(xs: seq<T>, p: T -> bool)
    ensures forall i: nat :: i < |xs| ==> (p(xs[i]) <==> i in KeptPositions(xs, p))
    decreases |xs|
  {
    if |xs| > 0 {
      var init := xs[..|xs| - 1];
      KeptPositionsComplete(init, p);
      KeptPositionsBounded(init, p);
      forall i: nat | i < |xs|
        ensures p(xs[i]) <==> i in KeptPositions(xs, p)
      {
        if i < |init| {
          assert xs[i] == init[i];
        }
      }
    }
  }

  /** `Keep` takes exactly the satisfying positions, each once and in
      ascending order: no element is dropped, repeated or reordered. */
  lemma {:induction false} KeepExactly<T>(xs: seq<T>, p: T -> bool)
    ensures |Keep(xs, p)| == |KeptPositions(xs, p)|
    ensures StrictlyIncreasing(KeptPositions(xs, p))
    ensures forall k :: 0 <= k < |KeptPositions(xs, p)| ==>
              KeptPositions(xs, p)[k] < |xs| && Keep(xs, p)[k] == xs[KeptPositions(xs, p)[k]]
    ensures forall i: nat :: i < |xs| ==> (p(xs[i]) <==> i in KeptPositions(xs, p))
  {
    KeepAtPositions(xs, p);
    KeptPositionsIncreasing(xs, p);
    KeptPositionsComplete(xs, p);
  }

  /** Keeping from a prefix yields a prefix of what is kept from the whole. */
  lemma {:induction false} KeepPrefix<T>(xs: seq<T>, i: nat, p: T -> bool)
    requires i <= |xs|
    ensures Keep(xs[..i], p) <= Keep(xs, p)
    decreases |xs|
  {
    if i < |xs| {
      var init := xs[..|xs| - 1];
      assert init[..i] == xs[..i];
      KeepPrefix(init, i, p);
    } else {
      assert xs[..i] == xs;
    }
  }

  /** Extending the input by one element extends the kept sequence by that
      element exactly when it satisfies `p`. */
  lemma KeepStep<T>(xs: seq<T>, i: nat, p: T -> bool)
    requires i < |xs|
    ensures Keep(xs[..i + 1], p) == Keep(xs[..i], p) + (if p(xs[i]) then [xs[i]] else [])
  {
    assert xs[..i + 1][..i] == xs[..i];
  }
}
