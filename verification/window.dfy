/**
 The bounded in-memory window: the three `deque(maxlen=max_data_points)`
 buffers of `NetworkSpeedMonitor` (timestamps, download speeds, upload
 speeds), each a sequence holding at most `cap` elements, oldest first.
 */
module Window {
  import opened Common

  /** `append` on a `deque(maxlen=cap)`: the element goes to the back, and
      when the deque is already full the front element is discarded. */
  function Push<X>(d: seq<X>, x: X, cap: nat): (r: seq<X>)
    requires |d| <= cap
    ensures |r| <= cap
    ensures r == Last(d + [x], cap)
  {
    if |d| < cap then d + [x]
    else if cap == 0 then d
    else d[1..] + [x]
  }

  lemma PushWithRoom<X>(d: seq<X>, x: X, cap: nat)
    requires |d| < cap
    ensures Push(d, x, cap) == d + [x]
  {
  }

  lemma PushWhenFull<X>(d: seq<X>, x: X, cap: nat)
    requires 0 < |d| == cap
    ensures Push(d, x, cap) == d[1..] + [x]
  {
  }

  /** Appends every element of `xs` in turn. */
  function PushAll<X>(d: seq<X>, xs: seq<X>, cap: nat): (r: seq<X>)
    requires |d| <= cap
    ensures |r| <= cap
    decreases |xs|
  {
    if xs == [] then d else PushAll(Push(d, xs[0], cap), xs[1..], cap)
  }

  /** After any sequence of pushes the deque holds the newest elements of
      everything it ever held, in insertion order. */
  lemma {:induction false} PushAllKeepsNewest<X>(d: seq<X>, xs: seq<X>, cap: nat)
    requires |d| <= cap
    ensures PushAll(d, xs, cap) == Last(d + xs, cap)
    decreases |xs|
  {
    if xs == [] {
      assert d + xs == d;
    } else {
      var x, rest := xs[0], xs[1..];
      var d' := Push(d, x, cap);
      assert xs == [x] + rest;
      calc {
        PushAll(d, xs, cap);
        PushAll(d', rest, cap);
        { PushAllKeepsNewest(d', rest, cap); }
        Last(d' + rest, cap);
        Last(Last(d + [x], cap) + rest, cap);
        { LastThenAppend(d + [x], rest, cap); }
        Last((d + [x]) + rest, cap);
        { assert (d + [x]) + rest == d + xs; }
        Last(d + xs, cap);
      }
    }
  }

  /** A fresh deque of capacity `cap` fed `xs` holds exactly the last
      `min(|xs|, cap)` of them, oldest first. */
  lemma {:induction false} FreshWindowHoldsNewest<X>(xs: seq<X>, cap: nat)
    ensures PushAll([], xs, cap) == Last(xs, cap)
    ensures |PushAll([], xs, cap)| == Min(|xs|, cap)
  {
    PushAllKeepsNewest([], xs, cap);
    assert [] + xs == xs;
  }

  /** The three parallel deques. Nothing ties their lengths together:
      `load_history` can leave them different. */
  datatype Windows = Windows(timestamps: seq<Instant>, downloads: seq<Speed>, uploads: seq<Speed>)
  {
    /** Every deque respects the capacity, as `deque(maxlen=cap)` guarantees. */
    predicate Within(cap: nat) {
      |timestamps| <= cap && |downloads| <= cap && |uploads| <= cap
    }

    /** The three deques have the same length. This does not make them
        parallel: after a load that stopped part-way through an entry,
        position `i` of each deque can come from different records even when
        the lengths agree. `Split` is what pairs positions with samples. */
    predicate SameLength() {
      |timestamps| == |downloads| == |uploads|
    }

    /** Pushes one sample into the three deques, field by field. */
    function PushSample(s: Sample, cap: nat): (r: Windows)
      requires Within(cap)
      ensures r.Within(cap)
      ensures r.timestamps == Last(timestamps + [s.timestamp], cap)
      ensures r.downloads == Last(downloads + [s.download], cap)
      ensures r.uploads == Last(uploads + [s.upload], cap)
      ensures SameLength() ==> r.SameLength()
    {
      Windows(Push(timestamps, s.timestamp, cap),
              Push(downloads, s.download, cap),
              Push(uploads, s.upload, cap))
    }
  }

  const Empty := Windows([], [], [])

  function TimestampOf(s: Sample): Instant { s.timestamp }
  function DownloadOf(s: Sample): Speed { s.download }
  function UploadOf(s: Sample): Speed { s.upload }

  /** The three parallel deques that hold the samples `ss`. */
  function Split(ss: seq<Sample>): (w: Windows)
    ensures w.SameLength() && |w.timestamps| == |ss|
    ensures forall i :: 0 <= i < |ss| ==>
      w.timestamps[i] == ss[i].timestamp && w.downloads[i] == ss[i].download && w.uploads[i] == ss[i].upload
  {
    Windows(Project(ss, TimestampOf), Project(ss, DownloadOf), Project(ss, UploadOf))
  }

  /** Pushes the samples `ss` in order. */
  function PushSamples(w: Windows, ss: seq<Sample>, cap: nat): (r: Windows)
    requires w.Within(cap)
    ensures r.Within(cap)
    decreases |ss|
  {
    if ss == [] then w else PushSamples(w.PushSample(ss[0], cap), ss[1..], cap)
  }

  lemma PushSamplesCons(w: Windows, s: Sample, ss: seq<Sample>, cap: nat)
    requires w.Within(cap)
    ensures PushSamples(w, [s] + ss, cap) == PushSamples(w.PushSample(s, cap), ss, cap)
  {
    assert ([s] + ss)[0] == s && ([s] + ss)[1..] == ss;
  }

  /** Pushing samples into three parallel deques is pushing them into one
      deque of samples and splitting the result: parallel deques stay
      parallel and hold the newest samples. */
  lemma {:induction false} PushSamplesSplit(xs: seq<Sample>, ss: seq<Sample>, cap: nat)
    requires |xs| <= cap
    ensures PushSamples(Split(xs), ss, cap) == Split(Last(xs + ss, cap))
    decreases |ss|
  {
    if ss == [] {
      assert xs + ss == xs;
    } else {
      var x, rest := ss[0], ss[1..];
      var xs' := Push(xs, x, cap);
      assert ss == [x] + rest;
      calc {
        PushSamples(Split(xs), ss, cap);
        { PushSamplesCons(Split(xs), x, rest, cap); }
        PushSamples(Split(xs).PushSample(x, cap), rest, cap);
        { SplitPush(xs, x, cap); }
        PushSamples(Split(xs'), rest, cap);
        { PushSamplesSplit(xs', rest, cap); }
        Split(Last(xs' + rest, cap));
        { LastThenAppend(xs + [x], rest, cap); }
        Split(Last((xs + [x]) + rest, cap));
        { assert (xs + [x]) + rest == xs + ss; }
        Split(Last(xs + ss, cap));
      }
    }
  }

  lemma SplitPush(xs: seq<Sample>, s: Sample, cap: nat)
    requires |xs| <= cap
    ensures Split(xs).PushSample(s, cap) == Split(Push(xs, s, cap))
  {
    ProjectPush(xs, s, cap, TimestampOf);
    ProjectPush(xs, s, cap, DownloadOf);
    ProjectPush(xs, s, cap, UploadOf);
  }

  /** Pushing commutes with taking one field of every element. */
  lemma ProjectPush<X, Y>(xs: seq<X>, x: X, cap: nat, f: X -> Y)
    requires |xs| <= cap
    ensures Push(Project(xs, f), f(x), cap) == Project(Push(xs, x, cap), f)
  {
    var u := xs + [x];
    ProjectAppend(xs, [x], f);
    assert Project([x], f) == [f(x)];
    ProjectSuffix(u, |u| - Min(|u|, cap), f);
  }
}
