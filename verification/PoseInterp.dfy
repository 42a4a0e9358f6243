/** The bounded ring of timestamped poses, and what a query between them yields. */
module PoseInterp {

  /** A body pose, opaque to the timeline. */
  datatype Pose = Pose(x: real, y: real, z: real, roll: real, pitch: real, yaw: real)

  datatype Sample = Sample(t: int, pose: Pose)

  /** The pose at a time: a sample's own, or the mix of two with the given weight of the second. */
  datatype Mix = Exact(s: Sample) | Between(s0: Sample, s1: Sample, alpha: real)

  datatype Outcome = Empty | TooOld | NeedNewer | At(mix: Mix)

  ghost predicate Rising(buf: seq<Sample>) { forall i, j | 0 <= i < j < |buf| :: buf[i].t < buf[j].t }

  /** The newest n elements. */
  function Newest<T>(s: seq<T>, n: nat): (r: seq<T>)
    ensures |s| <= n ==> r == s
    ensures |s| > n ==> |r| == n
  {
    if |s| <= n then s else s[|s| - n..]
  }

  /** A sample that is not newer than the newest is ignored; otherwise the oldest make room. */
  function Pushed(buf: seq<Sample>, max: nat, s: Sample): seq<Sample> {
    if buf != [] && s.t <= buf[|buf| - 1].t then buf else Newest(buf + [s], max)
  }

  /** The first sample not before t. */
  function LowerBound(buf: seq<Sample>, t: int): (i: nat)
    ensures i <= |buf|
  {
    if buf == [] || buf[0].t >= t then 0 else 1 + LowerBound(buf[1..], t)
  }

  lemma {:induction false} LowerBoundSplits(buf: seq<Sample>, t: int)
    requires Rising(buf)
    ensures forall j | 0 <= j < LowerBound(buf, t) :: buf[j].t < t
    ensures forall j | LowerBound(buf, t) <= j < |buf| :: buf[j].t >= t
    decreases |buf|
  {
    if buf != [] && buf[0].t < t {
      LowerBoundSplits(buf[1..], t);
      assert forall j | 0 < j < |buf| :: buf[j] == buf[1..][j - 1];
    }
  }

  function Weight(t0: int, t: int, t1: int): real {
    if t1 > t0 then (t - t0) as real / (t1 - t0) as real else 0.0
  }

  function Sampled(buf: seq<Sample>, t: int): Outcome {
    if buf == [] then Empty
    else if t < buf[0].t then TooOld
    else if t > buf[|buf| - 1].t then NeedNewer
    else var i := LowerBound(buf, t);
         if i == |buf| then NeedNewer
         else if buf[i].t == t then At(Exact(buf[i]))
         else if i == 0 then TooOld
         else At(Between(buf[i - 1], buf[i], Weight(buf[i - 1].t, t, buf[i].t)))
  }

  /** The mix surrounds t: a sample at t, or two around it with t dividing their span by alpha. */
  ghost predicate Brackets(m: Mix, t: int) {
    match m
    case Exact(s) => s.t == t
    case Between(s0, s1, alpha) => s0.t < t < s1.t && 0.0 < alpha < 1.0
                                   && t as real == s0.t as real + alpha * (s1.t - s0.t) as real
  }

  /** The mix uses a sample of the buffer, or two neighbouring ones. */
  ghost predicate Uses(m: Mix, buf: seq<Sample>) {
    match m
    case Exact(s) => s in buf
    case Between(s0, s1, _) => exists i :: 0 < i < |buf| && buf[i - 1] == s0 && buf[i] == s1
  }

  /** A query has an answer exactly when it lies between the oldest and the newest pose, and the
      answer then brackets it with neighbouring buffered poses. */
  lemma SampledBrackets(buf: seq<Sample>, t: int)
    requires Rising(buf)
    ensures Sampled(buf, t).At? <==> buf != [] && buf[0].t <= t <= buf[|buf| - 1].t
    ensures Sampled(buf, t).At? ==> Brackets(Sampled(buf, t).mix, t) && Uses(Sampled(buf, t).mix, buf)
    ensures Sampled(buf, t).TooOld? <==> buf != [] && t < buf[0].t
    ensures Sampled(buf, t).NeedNewer? <==> buf != [] && t > buf[|buf| - 1].t
  {
    if buf != [] && buf[0].t <= t <= buf[|buf| - 1].t {
      LowerBoundSplits(buf, t);
      var i := LowerBound(buf, t);
      assert i < |buf| && (buf[i].t != t ==> i > 0);
      if buf[i].t != t { WeightDivides(buf[i - 1].t, t, buf[i].t); }
    }
  }

  lemma WeightDivides(t0: int, t: int, t1: int)
    requires t0 < t < t1
    ensures 0.0 < Weight(t0, t, t1) < 1.0
    ensures t as real == t0 as real + Weight(t0, t, t1) * (t1 - t0) as real
  {
    var n, d := (t - t0) as real, (t1 - t0) as real;
    assert n / d * d == n;
  }

  class PoseInterpolator {
    var buf: seq<Sample>
    const max: nat

    ghost predicate Valid() reads this { Rising(buf) && |buf| <= max && max >= 2 }

    constructor (maxSamples: nat)
      ensures Valid() && buf == [] && max == if maxSamples < 2 then 2 else maxSamples
    {
      buf, max := [], if maxSamples < 2 then 2 else maxSamples;
    }

    method Push(s: Sample)
      requires Valid()
      modifies this
      ensures Valid() && buf == Pushed(old(buf), max, s)
    {
      if buf != [] && s.t <= buf[|buf| - 1].t { return; }
      buf := buf + [s];
      while |buf| > max
        invariant Rising(buf) && |buf| <= |old(buf)| + 1 && (|buf| >= max || |buf| == |old(buf)| + 1)
        invariant buf == (old(buf) + [s])[|old(buf)| + 1 - |buf|..]
        decreases |buf|
      {
        buf := buf[1..];
      }
    }

    /** The bracketing pair is found by search from the oldest sample. */
    method Query(t: int) returns (o: Outcome)
      requires Valid()
      ensures o == Sampled(buf, t)
    {
      if buf == [] { return Empty; }
      if t < buf[0].t { return TooOld; }
      if t > buf[|buf| - 1].t { return NeedNewer; }
      var i := 0;
      assert buf[0..] == buf;
      while buf[i].t < t
        invariant 0 <= i < |buf| && LowerBound(buf, t) == i + LowerBound(buf[i..], t)
        decreases |buf| - i
      {
        assert buf[i..][1..] == buf[i + 1..];
        i := i + 1;
      }
      LowerBoundSplits(buf, t);
      if buf[i].t == t { return At(Exact(buf[i])); }
      o := At(Between(buf[i - 1], buf[i], Weight(buf[i - 1].t, t, buf[i].t)));
    }
  }
}
