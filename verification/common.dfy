/**
 The shared vocabulary of the model: optional values, the payload of one
 measurement, and the suffix operations on which both the in-memory windows
 and the persisted history are built.
 */
module Common {

  datatype Option<T> = None | Some(value: T)

  /** A point in time as returned by `datetime.now()`. The model never inspects it. */
  type Instant = int

  /** A throughput in Mbps as produced by the speed probe. The model never inspects it. */
  type Speed = real

  /** One accepted measurement: when it was taken and the two rates. */
  datatype Sample = Sample(timestamp: Instant, download: Speed, upload: Speed)

  function Min(a: nat, b: nat): nat {
    if a <= b then a else b
  }

  /** The newest `min(|s|, k)` elements of `s`, oldest first. This is the
      reference meaning of "a window of capacity k over the stream s". */
  function Last<X>(s: seq<X>, k: nat): (r: seq<X>)
    ensures |r| == Min(|s|, k)
  {
    if |s| <= k then s else s[|s| - k..]
  }

  /** Python's `s[-k:]` for a non-negative `k`. Python reads a negative
      start as an offset from the end and clamps it at 0; since `-0 == 0`,
      a zero `k` selects the whole list rather than nothing. */
  function PyTail<X>(s: seq<X>, k: nat): (r: seq<X>)
    ensures k > 0 ==> r == Last(s, k)
    ensures k == 0 ==> r == s
  {
    var start := if k == 0 || k >= |s| then 0 else |s| - k;
    s[start..]
  }

  /** Applies `f` to every element, keeping the order. */
  function Project<X, Y>(xs: seq<X>, f: X -> Y): (r: seq<Y>)
    ensures |r| == |xs|
    ensures forall i :: 0 <= i < |xs| ==> r[i] == f(xs[i])
  {
    seq(|xs|, i requires 0 <= i < |xs| => f(xs[i]))
  }

  lemma ProjectAppend<X, Y>(xs: seq<X>, ys: seq<X>, f: X -> Y)
    ensures Project(xs + ys, f) == Project(xs, f) + Project(ys, f)
  {
  }

  lemma ProjectSuffix<X, Y>(xs: seq<X>, k: nat, f: X -> Y)
    requires k <= |xs|
    ensures Project(xs[k..], f) == Project(xs, f)[k..]
  {
  }

  /** Keeping a window of the older part first and then extending it gives
      the same window as extending the whole stream: eviction never has to
      look further back than the window itself. */
  lemma LastThenAppend<X>(s: seq<X>, t: seq<X>, k: nat)
    ensures Last(Last(s, k) + t, k) == Last(s + t, k)
  {
    var u := s + t;
    var m := |s| - |Last(s, k)|;
    assert Last(s, k) == s[m..];
    assert Last(s, k) + t == u[m..];
  }

  /** Keeping the newest `j`, then the newest `k` of those, keeps the newest
      `min(j, k)`. */
  lemma LastOfLast<X>(s: seq<X>, j: nat, k: nat)
    ensures Last(Last(s, j), k) == Last(s, Min(j, k))
  {
  }
}
