/**
 * Arithmetic shared by every audio module: the left fold `reduce((a, b) => a + b, 0)`,
 * the mean of a rolling history, and the push-then-shift bounded history that every
 * frame loop keeps (volume history, energy history, band histories), and the index
 * `Math.floor(Math.random() * n)` that every random choice draws.
 */
module Stats {

  /** Sum of the entries, folded from the left like `Array.prototype.reduce`. */
  function Sum(s: seq<real>): real
  {
    if |s| == 0 then 0.0 else Sum(s[..|s| - 1]) + s[|s| - 1]
  }

  /** Arithmetic mean; 0 on an empty sequence (the "division-by-zero guard"). */
  function Mean(s: seq<real>): real
  {
    if |s| == 0 then 0.0 else Sum(s) / |s| as real
  }

  ghost predicate AllWithin(s: seq<real>, lo: real, hi: real)
  {
    forall i :: 0 <= i < |s| ==> lo <= s[i] <= hi
  }

  lemma {:induction false} SumAppend(s: seq<real>, t: seq<real>)
    ensures Sum(s + t) == Sum(s) + Sum(t)
    decreases |t|
  {
    if |t| == 0 {
      assert s + t == s;
    } else {
      assert (s + t)[..|s + t| - 1] == s + t[..|t| - 1];
      SumAppend(s, t[..|t| - 1]);
    }
  }

  /** Every entry in [lo, hi] bounds the sum by |s|·lo and |s|·hi. */
  lemma {:induction false} SumBounds(s: seq<real>, lo: real, hi: real)
    requires AllWithin(s, lo, hi)
    ensures |s| as real * lo <= Sum(s) <= |s| as real * hi
  {
    if |s| > 0 {
      var init := s[..|s| - 1];
      assert AllWithin(init, lo, hi) by {
        forall i | 0 <= i < |init| ensures lo <= init[i] <= hi { assert init[i] == s[i]; }
      }
      SumBounds(init, lo, hi);
      assert lo <= s[|s| - 1] <= hi;
      assert |s| as real * lo == |init| as real * lo + lo;
      assert |s| as real * hi == |init| as real * hi + hi;
    }
  }

  /** The mean of a non-empty history lies between its least and greatest possible entry. */
  lemma MeanWithin(s: seq<real>, lo: real, hi: real)
    requires |s| > 0 && AllWithin(s, lo, hi)
    ensures lo <= Mean(s) <= hi
  {
    SumBounds(s, lo, hi);
    var n := |s| as real;
    assert Mean(s) == Sum(s) / n;
    assert n * lo <= Sum(s);
    assert lo * n <= Sum(s);
    assert Sum(s) <= hi * n;
  }

  /** A history of non-negative entries has a non-negative mean (an empty one has mean 0). */
  lemma MeanNonNegative(s: seq<real>)
    ensures (forall i :: 0 <= i < |s| ==> 0.0 <= s[i]) ==> 0.0 <= Mean(s)
  {
    if |s| > 0 && forall i :: 0 <= i < |s| ==> 0.0 <= s[i] {
      SumNonNegative(s);
    }
  }

  lemma {:induction false} SumNonNegative(s: seq<real>)
    requires forall i :: 0 <= i < |s| ==> 0.0 <= s[i]
    ensures 0.0 <= Sum(s)
  {
    if |s| > 0 {
      SumNonNegative(s[..|s| - 1]);
    }
  }

  /** The last `n` entries of `s` (all of `s` when it is shorter). */
  function Last<T>(s: seq<T>, n: nat): (r: seq<T>)
    ensures |r| == if |s| < n then |s| else n
  {
    if |s| <= n then s else s[|s| - n..]
  }

  /**
   * `history.push(v); if (history.length > cap) history.shift();` — the bounded
   * FIFO push that every frame loop performs.
   */
  function PushBounded<T>(h: seq<T>, v: T, cap: nat): seq<T>
  {
    var h' := h + [v];
    if |h'| > cap then h'[1..] else h'
  }

  /** A push keeps the history within its capacity and keeps the newest entries in arrival order. */
  lemma PushBoundedKeepsNewest<T>(h: seq<T>, v: T, cap: nat)
    requires 1 <= cap && |h| <= cap
    ensures PushBounded(h, v, cap) == Last(h + [v], cap)
    ensures |PushBounded(h, v, cap)| <= cap
    ensures PushBounded(h, v, cap)[|PushBounded(h, v, cap)| - 1] == v
  {
  }

  /** Pushes `vs` one after the other, oldest first. */
  function PushAll<T>(h: seq<T>, vs: seq<T>, cap: nat): seq<T>
    decreases |vs|
  {
    if |vs| == 0 then h else PushAll(PushBounded(h, vs[0], cap), vs[1..], cap)
  }

  /**
   * After any run of pushes the history holds exactly the last `cap` samples that
   * arrived (all of them while fewer than `cap` arrived), in arrival order.
   */
  lemma {:induction false} PushAllKeepsNewest<T>(h: seq<T>, vs: seq<T>, cap: nat)
    requires 1 <= cap && |h| <= cap
    ensures PushAll(h, vs, cap) == Last(h + vs, cap)
    decreases |vs|
  {
    if |vs| > 0 {
      var h1 := PushBounded(h, vs[0], cap);
      PushBoundedKeepsNewest(h, vs[0], cap);
      PushAllKeepsNewest(h1, vs[1..], cap);
      assert h + vs == (h + [vs[0]]) + vs[1..];
      LastOfLast(h + [vs[0]], vs[1..], cap);
    } else {
      assert h + vs == h;
    }
  }

  lemma LastOfLast<T>(s: seq<T>, t: seq<T>, n: nat)
    ensures Last(Last(s, n) + t, n) == Last(s + t, n)
  {
  }

  /** floor(pick * n) for pick in [0, 1) is an index below n. */
  function PickIndex(pick: real, n: nat): (i: nat)
    requires 0.0 <= pick < 1.0 && n > 0
    ensures i < n
  {
    var x := pick * n as real;
    assert 0.0 <= x < n as real by {
      assert (1.0 - pick) * n as real > 0.0;
    }
    x.Floor
  }
}
