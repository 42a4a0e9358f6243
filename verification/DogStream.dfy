/** Images wait for the pose that brackets them: the buffers, the policy, and the history of what
    became of every image. */
module DogStream {
  import opened Basics
  import opened PoseInterp

  datatype Image = Image(t: int, id: int)

  /** A lidar scan, already in world coordinates; its cloud is opaque. */
  datatype Scan = Scan(t: int, id: int)

  datatype Frame = Frame(image: Image, mix: Mix, scan: Option<Scan>)

  /** What became of an image that left the queue. */
  datatype Fate = Emitted(f: Frame) | OutOfRange | Overflow

  /** fed: all images pushed so far; the oldest |fates| of them have left the queue. */
  datatype Stream = Stream(buf: seq<Sample>, scans: seq<Scan>, pending: seq<Image>, fed: seq<Image>, fates: seq<Fate>)

  datatype Limits = Limits(poses: nat, ring: nat, pending: nat)

  function Abs(x: int): nat { if x >= 0 then x else -x }

  /** The scan nearest t, the earlier of two equally near ones; -1 without scans. */
  function NearestScan(scans: seq<Scan>, t: int): (r: int)
    ensures -1 <= r < |scans| && (r == -1 <==> scans == [])
  {
    if scans == [] then -1
    else var n := |scans| - 1;
         var best := NearestScan(scans[..n], t);
         if best < 0 || Abs(scans[n].t - t) < Abs(scans[best].t - t) then n else best
  }

  /** No scan is nearer to t than r, and no earlier one is as near. */
  ghost predicate IsNearest(scans: seq<Scan>, t: int, r: int) {
    && 0 <= r < |scans|
    && (forall i | 0 <= i < |scans| :: Abs(scans[r].t - t) <= Abs(scans[i].t - t))
    && (forall i | 0 <= i < r :: Abs(scans[r].t - t) < Abs(scans[i].t - t))
  }

  lemma {:induction false} NearestIsNearest(scans: seq<Scan>, t: int)
    requires scans != []
    ensures IsNearest(scans, t, NearestScan(scans, t))
    decreases |scans|
  {
    var n := |scans| - 1;
    if n > 0 {
      NearestIsNearest(scans[..n], t);
      NearestOfMore(scans[..n], scans, t, NearestScan(scans[..n], t));
    }
  }

  lemma NearestOfMore(rest: seq<Scan>, scans: seq<Scan>, t: int, best: int)
    requires IsNearest(rest, t, best) && |scans| == |rest| + 1 && forall i | 0 <= i < |rest| :: rest[i] == scans[i]
    ensures var n := |rest|;
            IsNearest(scans, t, if Abs(scans[n].t - t) < Abs(scans[best].t - t) then n else best)
  {
    hide Abs;
  }

  function ScanFor(scans: seq<Scan>, t: int): Option<Scan> {
    var s := NearestScan(scans, t);
    if s >= 0 then Some(scans[s]) else None
  }

  // ---------- steps on values ----------

  function Leaves(st: Stream, fate: Fate): Stream
    requires st.pending != []
  {
    st.(pending := st.pending[1..], fates := st.fates + [fate])
  }

  /** What becomes of an image at the head of the queue; none while it must wait. */
  function Verdict(buf: seq<Sample>, scans: seq<Scan>, img: Image, atFlush: bool): Option<Fate> {
    match Sampled(buf, img.t)
    case Empty => if atFlush then Some(OutOfRange) else None
    case NeedNewer => if atFlush then Some(OutOfRange) else None
    case TooOld => Some(OutOfRange)
    case At(mix) => Some(Fate.Emitted(Frame(img, mix, ScanFor(scans, img.t))))
  }

  /** Emit or drop from the front of the queue until its head must wait. */
  function Drained(st: Stream, atFlush: bool): Stream
    decreases |st.pending|
  {
    if st.pending == [] then st
    else match Verdict(st.buf, st.scans, st.pending[0], atFlush)
         case None => st
         case Some(fate) => Drained(Leaves(st, fate), atFlush)
  }

  function ScanPushed(st: Stream, lim: Limits, scan: Scan, pose: Pose): Stream {
    Drained(st.(buf := Pushed(st.buf, lim.poses, Sample(scan.t, pose)), scans := Newest(st.scans + [scan], lim.ring)), false)
  }

  function Queued(st: Stream, lim: Limits, img: Image): Stream {
    var room := if |st.pending| >= lim.pending && st.pending != [] then Leaves(st, Overflow) else st;
    room.(pending := room.pending + [img], fed := room.fed + [img])
  }

  function ImagePushed(st: Stream, lim: Limits, img: Image): Stream { Drained(Queued(st, lim, img), false) }

  datatype Event = OfScan(scan: Scan, pose: Pose) | OfImage(img: Image) | OfFlush

  function Step(st: Stream, lim: Limits, e: Event): Stream {
    match e
    case OfScan(s, p) => ScanPushed(st, lim, s, p)
    case OfImage(i) => ImagePushed(st, lim, i)
    case OfFlush => Drained(st, true)
  }

  function Run(st: Stream, lim: Limits, events: seq<Event>): Stream {
    if events == [] then st else Step(Run(st, lim, events[..|events| - 1]), lim, events[|events| - 1])
  }

  const FRESH: Stream := Stream([], [], [], [], [])

  // ---------- what always holds ----------

  ghost predicate LimitsOk(lim: Limits) { lim.poses >= 2 && lim.ring >= 1 && lim.pending >= 1 }

  /** The frame shows its image, with poses around the image's time. */
  ghost predicate FrameOk(f: Frame, img: Image) { f.image == img && Brackets(f.mix, img.t) }

  /** Images leave in the order they came: the queue is the rest of what was fed, and every frame
      emitted is that of the image it stands for, bracketed. */
  ghost predicate HistoryOk(st: Stream) {
    && |st.fates| + |st.pending| == |st.fed| && st.pending == st.fed[|st.fates|..]
    && forall i | 0 <= i < |st.fates| && st.fates[i].Emitted? :: FrameOk(st.fates[i].f, st.fed[i])
  }

  /** The head of the queue cannot be placed yet. */
  ghost predicate HeadWaits(st: Stream) {
    st.pending != [] ==> st.buf == [] || st.pending[0].t > st.buf[|st.buf| - 1].t
  }

  ghost predicate Bounded(st: Stream, lim: Limits) {
    |st.buf| <= lim.poses && |st.scans| <= lim.ring && |st.pending| <= lim.pending
  }

  ghost predicate StreamOk(st: Stream, lim: Limits) {
    Rising(st.buf) && HistoryOk(st) && HeadWaits(st) && Bounded(st, lim)
  }

  lemma LeavesOk(st: Stream, fate: Fate)
    requires HistoryOk(st) && st.pending != [] && (fate.Emitted? ==> FrameOk(fate.f, st.pending[0]))
    ensures HistoryOk(Leaves(st, fate))
  {
    var st' := Leaves(st, fate);
    assert st.pending[0] == st.fed[|st.fates|];
    assert st'.pending == st'.fed[|st'.fates|..];
    forall i | 0 <= i < |st'.fates| && st'.fates[i].Emitted? ensures FrameOk(st'.fates[i].f, st'.fed[i]) {
      if i < |st.fates| { assert st'.fates[i] == st.fates[i]; }
    }
  }

  /** Draining keeps buffers and order, only lengthens the history, and leaves a head that waits
      (nothing at all, at a flush). */
  lemma {:induction false} DrainedOk(st: Stream, atFlush: bool)
    requires Rising(st.buf) && HistoryOk(st)
    ensures var d := Drained(st, atFlush);
            && d.buf == st.buf && d.scans == st.scans && d.fed == st.fed && HistoryOk(d) && HeadWaits(d)
            && |d.pending| <= |st.pending| && st.fates <= d.fates && (atFlush ==> d.pending == [])
    decreases |st.pending|
  {
    hide Verdict;
    if st.pending != [] {
      VerdictOk(st.buf, st.scans, st.pending[0], atFlush);
      match Verdict(st.buf, st.scans, st.pending[0], atFlush)
      case Some(fate) =>
        LeavesOk(st, fate);
        DrainedOk(Leaves(st, fate), atFlush);
      case None =>
    }
  }

  lemma VerdictOk(buf: seq<Sample>, scans: seq<Scan>, img: Image, atFlush: bool)
    requires Rising(buf)
    ensures var v := Verdict(buf, scans, img, atFlush);
            && (v.None? <==> !atFlush && (buf == [] || img.t > buf[|buf| - 1].t))
            && (v.Some? ==> !v.v.Overflow? && (v.v.Emitted? <==> buf != [] && buf[0].t <= img.t <= buf[|buf| - 1].t))
            && (v.Some? && v.v.Emitted? ==> FrameOk(v.v.f, img) && v.v.f.scan == ScanFor(scans, img.t))
  {
    SampledBrackets(buf, img.t);
  }

  lemma StreamBounds(st: Stream, lim: Limits)
    requires StreamOk(st, lim)
    ensures |st.pending| <= lim.pending && Rising(st.buf) && HistoryOk(st)
  {
  }

  lemma PushedRising(buf: seq<Sample>, max: nat, s: Sample)
    requires Rising(buf) && |buf| <= max && max >= 2
    ensures Rising(Pushed(buf, max, s)) && |Pushed(buf, max, s)| <= max && Pushed(buf, max, s) != []
  {
  }

  lemma QueuedOk(st: Stream, lim: Limits, img: Image)
    requires HistoryOk(st) && |st.pending| <= lim.pending && lim.pending >= 1
    ensures HistoryOk(Queued(st, lim, img)) && |Queued(st, lim, img).pending| <= lim.pending
  {
    if |st.pending| >= lim.pending && st.pending != [] { LeavesOk(st, Overflow); }
  }

  lemma StepOk(st: Stream, lim: Limits, e: Event)
    requires StreamOk(st, lim) && LimitsOk(lim)
    ensures StreamOk(Step(st, lim, e), lim) && st.fates <= Step(st, lim, e).fates && st.fed <= Step(st, lim, e).fed
  {
    hide Drained, Pushed;
    match e
    case OfScan(s, p) =>
      PushedRising(st.buf, lim.poses, Sample(s.t, p));
      DrainedOk(st.(buf := Pushed(st.buf, lim.poses, Sample(s.t, p)), scans := Newest(st.scans + [s], lim.ring)), false);
    case OfImage(i) =>
      QueuedOk(st, lim, i);
      DrainedOk(Queued(st, lim, i), false);
    case OfFlush =>
      DrainedOk(st, true);
  }

  /** For arbitrary pushes and flushes: images leave in order, each frame bracketed, buffers stay
      within bounds, and between calls the head of the queue cannot be placed. */
  lemma {:induction false} RunSafe(lim: Limits, events: seq<Event>)
    requires LimitsOk(lim)
    ensures StreamOk(Run(FRESH, lim, events), lim)
    decreases |events|
  {
    if events != [] {
      RunSafe(lim, events[..|events| - 1]);
      StepOk(Run(FRESH, lim, events[..|events| - 1]), lim, events[|events| - 1]);
    }
  }

  // ---------- counters ----------

  function CountOf(fates: seq<Fate>, k: Fate -> bool): nat {
    if fates == [] then 0 else CountOf(fates[..|fates| - 1], k) + if k(fates[|fates| - 1]) then 1 else 0
  }

  function EmittedCount(fates: seq<Fate>): nat { CountOf(fates, (f: Fate) => f.Emitted?) }

  function OldCount(fates: seq<Fate>): nat { CountOf(fates, (f: Fate) => f.OutOfRange?) }

  function OverflowCount(fates: seq<Fate>): nat { CountOf(fates, (f: Fate) => f.Overflow?) }

  lemma {:induction false} CountsAddUp(fates: seq<Fate>)
    ensures EmittedCount(fates) + OldCount(fates) + OverflowCount(fates) == |fates|
    decreases |fates|
  {
    if fates != [] { CountsAddUp(fates[..|fates| - 1]); }
  }

  /** Every image pushed was emitted, was out of range, overflowed, or is still waiting. */
  lemma Conservation(lim: Limits, events: seq<Event>)
    requires LimitsOk(lim)
    ensures var st := Run(FRESH, lim, events);
            |st.fed| == EmittedCount(st.fates) + OldCount(st.fates) + OverflowCount(st.fates) + |st.pending|
  {
    hide Run;
    RunSafe(lim, events);
    CountsAddUp(Run(FRESH, lim, events).fates);
  }

  lemma {:induction false} DrainOverflowsNone(st: Stream, atFlush: bool)
    requires Rising(st.buf)
    ensures OverflowCount(Drained(st, atFlush).fates) == OverflowCount(st.fates)
    decreases |st.pending|
  {
    hide Verdict;
    if st.pending != [] {
      VerdictOk(st.buf, st.scans, st.pending[0], atFlush);
      match Verdict(st.buf, st.scans, st.pending[0], atFlush)
      case Some(fate) => DrainOverflowsNone(Leaves(st, fate), atFlush);
      case None =>
    }
  }

  /** An image is crowded out exactly by a pushed image that finds the queue full, and then it is the head. */
  lemma OverflowIff(st: Stream, lim: Limits, e: Event)
    requires StreamOk(st, lim) && LimitsOk(lim)
    ensures var (t, full) := (Step(st, lim, e), e.OfImage? && |st.pending| == lim.pending);
            && OverflowCount(t.fates) == OverflowCount(st.fates) + (if full then 1 else 0)
            && (full ==> |t.fates| > |st.fates| && t.fates[|st.fates|] == Overflow)
            && t.fed == if e.OfImage? then st.fed + [e.img] else st.fed
  {
    hide Drained, Pushed;
    match e
    case OfScan(s, p) =>
      PushedRising(st.buf, lim.poses, Sample(s.t, p));
      var mid := st.(buf := Pushed(st.buf, lim.poses, Sample(s.t, p)), scans := Newest(st.scans + [s], lim.ring));
      DrainedOk(mid, false);
      DrainOverflowsNone(mid, false);
    case OfImage(i) =>
      QueuedOk(st, lim, i);
      DrainedOk(Queued(st, lim, i), false);
      DrainOverflowsNone(Queued(st, lim, i), false);
    case OfFlush =>
      DrainedOk(st, true);
      DrainOverflowsNone(st, true);
  }

  // ---------- a waiting image is never too old ----------

  ghost predicate InOrder(imgs: seq<Image>) { forall i, j | 0 <= i <= j < |imgs| :: imgs[i].t <= imgs[j].t }

  /** No image became out of range between the two states. */
  ghost predicate NoneLost(st: Stream, st': Stream) {
    |st.fates| <= |st'.fates| && forall i | |st.fates| <= i < |st'.fates| :: !st'.fates[i].OutOfRange?
  }

  lemma {:induction false} DrainLosesNone(st: Stream)
    requires Rising(st.buf) && forall p | p in st.pending :: st.buf != [] && p.t >= st.buf[0].t
    ensures NoneLost(st, Drained(st, false)) && st.fates <= Drained(st, false).fates
    decreases |st.pending|
  {
    hide Verdict;
    if st.pending != [] {
      var img := st.pending[0];
      assert img in st.pending;
      VerdictOk(st.buf, st.scans, img, false);
      match Verdict(st.buf, st.scans, img, false)
      case Some(fate) =>
        var next := Leaves(st, fate);
        forall p | p in next.pending ensures p in st.pending {}
        DrainLosesNone(next);
      case None =>
    }
  }

  /** Images waiting in st that have left by st' were not classed too old. */
  ghost predicate NoneTooOld(st: Stream, st': Stream) {
    forall i | |st.fates| <= i < |st.fed| && i < |st'.fates| :: !st'.fates[i].OutOfRange?
  }

  /** With images in order, those waiting on a non-empty pose buffer are all newer than its newest pose. */
  lemma WaitingAreNewer(st: Stream, lim: Limits, i: int)
    requires StreamOk(st, lim) && InOrder(st.fed) && st.buf != [] && 0 <= i < |st.pending|
    ensures st.pending[i].t > st.buf[|st.buf| - 1].t
  {
    assert st.pending[0] == st.fed[|st.fates|] && st.pending[i] == st.fed[|st.fates| + i];
  }

  /** The newest pose is still there after the next push, so what waits is not too old then. */
  lemma ScanLosesNone(st: Stream, lim: Limits, s: Scan, p: Pose)
    requires StreamOk(st, lim) && LimitsOk(lim) && InOrder(st.fed) && st.buf != []
    ensures NoneLost(st, ScanPushed(st, lim, s, p))
  {
    hide Drained, StreamOk;
    StreamBounds(st, lim);
    var last := st.buf[|st.buf| - 1];
    var buf := Pushed(st.buf, lim.poses, Sample(s.t, p));
    BoundedBuf(st, lim);
    PushedRising(st.buf, lim.poses, Sample(s.t, p));
    assert last in buf && buf[0].t <= last.t by { LastStays(st.buf, lim.poses, Sample(s.t, p)); }
    forall q | q in st.pending ensures q.t >= buf[0].t {
      var i :| 0 <= i < |st.pending| && st.pending[i] == q;
      WaitingAreNewer(st, lim, i);
    }
    DrainLosesNone(st.(buf := buf, scans := Newest(st.scans + [s], lim.ring)));
  }

  lemma BoundedBuf(st: Stream, lim: Limits)
    requires StreamOk(st, lim)
    ensures |st.buf| <= lim.poses && HeadWaits(st)
  {
  }

  /** A queue whose head is newer than the newest pose stays as it is. */
  lemma HeadStays(st: Stream)
    requires Rising(st.buf) && (st.pending != [] ==> st.buf == [] || st.pending[0].t > st.buf[|st.buf| - 1].t)
    ensures Drained(st, false) == st
  {
    hide Verdict;
    if st.pending != [] { VerdictOk(st.buf, st.scans, st.pending[0], false); }
  }

  /** An image pushed behind waiting ones, even when it crowds out the head, makes none of them too old. */
  lemma ImageLosesNone(st: Stream, lim: Limits, img: Image)
    requires StreamOk(st, lim) && LimitsOk(lim) && InOrder(st.fed + [img]) && st.buf != []
    ensures NoneTooOld(st, ImagePushed(st, lim, img))
  {
    hide Drained;
    if st.pending != [] {
      var mid := Queued(st, lim, img);
      assert InOrder(st.fed) by {
        forall i, j | 0 <= i <= j < |st.fed| ensures st.fed[i].t <= st.fed[j].t {
          assert (st.fed + [img])[i] == st.fed[i] && (st.fed + [img])[j] == st.fed[j];
        }
      }
      forall i | 0 <= i < |mid.pending| ensures mid.pending[i].t > st.buf[|st.buf| - 1].t {
        WaitingAreNewer(st, lim, 0);
        assert st.pending[0] == (st.fed + [img])[|st.fates|];
        var k := i + if |st.pending| >= lim.pending then 1 else 0;
        assert mid.pending[i] == (st.fed + [img])[|st.fates| + k];
      }
      HeadStays(mid);
    }
  }

  ghost predicate NoFlush(events: seq<Event>) { forall i | 0 <= i < |events| :: !events[i].OfFlush? }

  lemma {:induction false} RunKeeps(st: Stream, lim: Limits, events: seq<Event>)
    requires StreamOk(st, lim) && LimitsOk(lim)
    ensures var t := Run(st, lim, events);
            StreamOk(t, lim) && st.fates <= t.fates && st.fed <= t.fed && (st.buf != [] ==> t.buf != [])
    decreases |events|
  {
    hide StreamOk, Step;
    if events != [] {
      var t := Run(st, lim, events[..|events| - 1]);
      RunKeeps(st, lim, events[..|events| - 1]);
      StepOk(t, lim, events[|events| - 1]);
      if t.buf != [] { StepKeepsPoses(t, lim, events[|events| - 1]); }
    }
  }

  lemma StepKeepsPoses(st: Stream, lim: Limits, e: Event)
    requires StreamOk(st, lim) && LimitsOk(lim) && st.buf != []
    ensures Step(st, lim, e).buf != []
  {
    hide Drained, Pushed;
    match e
    case OfScan(s, p) =>
      PushedRising(st.buf, lim.poses, Sample(s.t, p));
      DrainedOk(st.(buf := Pushed(st.buf, lim.poses, Sample(s.t, p)), scans := Newest(st.scans + [s], lim.ring)), false);
    case OfImage(i) =>
      QueuedOk(st, lim, i);
      DrainedOk(Queued(st, lim, i), false);
    case OfFlush =>
      DrainedOk(st, true);
  }

  lemma StepLosesNone(st: Stream, lim: Limits, e: Event)
    requires StreamOk(st, lim) && LimitsOk(lim) && st.buf != [] && !e.OfFlush? && InOrder(Step(st, lim, e).fed)
    ensures NoneTooOld(st, Step(st, lim, e))
  {
    hide Drained, StreamOk, Pushed;
    StepOk(st, lim, e);
    var t := Step(st, lim, e);
    assert InOrder(st.fed) by {
      forall i, j | 0 <= i <= j < |st.fed| ensures st.fed[i].t <= st.fed[j].t {
        assert t.fed[i] == st.fed[i] && t.fed[j] == st.fed[j];
      }
    }
    match e
    case OfScan(s, p) => ScanLosesNone(st, lim, s, p);
    case OfImage(i) =>
      StreamBounds(st, lim);
      BoundedBuf(st, lim);
      QueuedOk(st, lim, i);
      DrainedOk(Queued(st, lim, i), false);
      ImageLosesNone(st, lim, i);
  }

  /** Over any further pushes of scans and of images in order, an image that waits on a non-empty pose
      buffer is never classed too old: it is emitted, crowded out, or still waiting. */
  lemma {:induction false} WaitingNeverTooOld(st: Stream, lim: Limits, events: seq<Event>)
    requires StreamOk(st, lim) && LimitsOk(lim) && st.buf != [] && NoFlush(events)
    requires InOrder(Run(st, lim, events).fed)
    ensures NoneTooOld(st, Run(st, lim, events))
    decreases |events|
  {
    hide StreamOk, Step;
    if events != [] {
      var front, e := events[..|events| - 1], events[|events| - 1];
      var t := Run(st, lim, front);
      RunKeeps(st, lim, front);
      StepOk(t, lim, e);
      assert InOrder(t.fed) by {
        forall i, j | 0 <= i <= j < |t.fed| ensures t.fed[i].t <= t.fed[j].t {
          assert Step(t, lim, e).fed[i] == t.fed[i] && Step(t, lim, e).fed[j] == t.fed[j];
        }
      }
      WaitingNeverTooOld(st, lim, front);
      StepLosesNone(t, lim, e);
    } else {
      assert Run(st, lim, events) == st;
    }
  }

  lemma {:induction false} RunSplit(st: Stream, lim: Limits, a: seq<Event>, b: seq<Event>)
    ensures Run(st, lim, a + b) == Run(Run(st, lim, a), lim, b)
    decreases |b|
  {
    hide Step;
    if b == [] {
      assert a + b == a;
    } else {
      assert (a + b)[..|a + b| - 1] == a + b[..|b| - 1];
      RunSplit(st, lim, a, b[..|b| - 1]);
    }
  }

  /** The same at every moment n of a run from the start: what waits then never becomes too old. */
  lemma NeverTooOldInRun(lim: Limits, events: seq<Event>, n: nat)
    requires LimitsOk(lim) && NoFlush(events) && n <= |events| && InOrder(Run(FRESH, lim, events).fed)
    requires Run(FRESH, lim, events[..n]).buf != []
    ensures NoneTooOld(Run(FRESH, lim, events[..n]), Run(FRESH, lim, events))
  {
    hide Run, NoneTooOld;
    RunSafe(lim, events[..n]);
    assert events[..n] + events[n..] == events;
    RunSplit(FRESH, lim, events[..n], events[n..]);
    WaitingNeverTooOld(Run(FRESH, lim, events[..n]), lim, events[n..]);
  }

  lemma LastStays(buf: seq<Sample>, max: nat, s: Sample)
    requires Rising(buf) && buf != [] && max >= 2
    ensures var b := Pushed(buf, max, s); b != [] && buf[|buf| - 1] in b && b[0].t <= buf[|buf| - 1].t
  {
    var b, last := Pushed(buf, max, s), buf[|buf| - 1];
    if s.t > last.t {
      assert b[|b| - 2] == last;
    } else {
      assert b[|b| - 1] == last;
    }
  }

  // ---------- the stream object ----------

  class DogStream {
    var interp: PoseInterpolator
    var scans: seq<Scan>
    var pending: seq<Image>
    var emitted: nat
    var droppedOld: nat
    var droppedOverflow: nat
    const ring: nat
    const maxPending: nat
    ghost var fed: seq<Image>
    ghost var fates: seq<Fate>

    ghost function Lim(): Limits reads this, interp { Limits(interp.max, ring, maxPending) }

    ghost function S(): Stream reads this, interp { Stream(interp.buf, scans, pending, fed, fates) }

    ghost predicate CountersOk() reads this {
      emitted == EmittedCount(fates) && droppedOld == OldCount(fates) && droppedOverflow == OverflowCount(fates)
    }

    ghost predicate Valid() reads this, interp {
      interp.Valid() && StreamOk(S(), Lim()) && LimitsOk(Lim()) && CountersOk()
    }

    constructor (poseBuffer: nat, scanRing: nat, maxPendingImages: nat)
      ensures Valid() && fresh(interp) && S() == FRESH
      ensures Lim() == Limits(if poseBuffer < 2 then 2 else poseBuffer, if scanRing < 1 then 1 else scanRing,
                              if maxPendingImages < 1 then 1 else maxPendingImages)
    {
      interp := new PoseInterpolator(poseBuffer);
      scans, pending, emitted, droppedOld, droppedOverflow := [], [], 0, 0, 0;
      ring, maxPending := if scanRing < 1 then 1 else scanRing, if maxPendingImages < 1 then 1 else maxPendingImages;
      fed, fates := [], [];
    }

    /** The buffered scan nearest t, the first of equally near ones. */
    method FindNearest(t: int) returns (best: int)
      ensures best == NearestScan(scans, t)
    {
      best := -1;
      var bestD := 0;
      for k := 0 to |scans|
        invariant best == NearestScan(scans[..k], t) && (best >= 0 ==> best < k && bestD == Abs(scans[best].t - t))
      {
        assert scans[..k + 1][..k] == scans[..k];
        var d := if scans[k].t >= t then scans[k].t - t else t - scans[k].t;
        if best < 0 || d < bestD { bestD, best := d, k; }
      }
      assert scans[..|scans|] == scans;
    }

    method Judge(img: Image, atFlush: bool) returns (v: Option<Fate>)
      requires interp.Valid()
      ensures v == Verdict(interp.buf, scans, img, atFlush)
    {
      hide Sampled, NearestScan;
      var o := interp.Query(img.t);
      match o {
        case Empty => v := if atFlush then Some(OutOfRange) else None;
        case NeedNewer => v := if atFlush then Some(OutOfRange) else None;
        case TooOld => v := Some(OutOfRange);
        case At(mix) =>
          var s := FindNearest(img.t);
          v := Some(Fate.Emitted(Frame(img, mix, if s >= 0 then Some(scans[s]) else None)));
      }
    }

    /** Pop the head of the queue and count what became of it. */
    method Dequeue(fate: Fate)
      requires pending != [] && CountersOk()
      modifies this`pending, this`emitted, this`droppedOld, this`droppedOverflow, this`fates
      ensures S() == Leaves(old(S()), fate) && CountersOk()
    {
      hide EmittedCount, OldCount, OverflowCount;
      CountsSnoc(fates, fate);
      pending := pending[1..];
      match fate {
        case Emitted(_) => emitted := emitted + 1;
        case OutOfRange => droppedOld := droppedOld + 1;
        case Overflow => droppedOverflow := droppedOverflow + 1;
      }
      fates := fates + [fate];
    }

    /** Hand every image that can be placed to the hook, in order; `out` is what the hook received. */
    method Drain(atFlush: bool) returns (out: seq<Frame>)
      requires interp.Valid() && CountersOk()
      modifies this`pending, this`emitted, this`droppedOld, this`droppedOverflow, this`fates
      ensures S() == Drained(old(S()), atFlush) && CountersOk()
      ensures old(fates) <= fates && out == Frames(fates[|old(fates)|..])
    {
      hide Verdict, CountersOk, Frames;
      out := [];
      NoFrames(fates[|old(fates)|..]);
      while pending != []
        invariant Drained(S(), atFlush) == Drained(old(S()), atFlush) && CountersOk()
        invariant old(fates) <= fates && out == Frames(fates[|old(fates)|..])
        decreases |pending|
      {
        var v := Judge(pending[0], atFlush);
        if v.None? { return; }
        FramesSnoc(fates[|old(fates)|..], v.v);
        assert (fates + [v.v])[|old(fates)|..] == fates[|old(fates)|..] + [v.v];
        if v.v.Emitted? { out := out + [v.v.f]; }
        Dequeue(v.v);
      }
    }

    method PushScan(scan: Scan, pose: Pose) returns (out: seq<Frame>)
      requires Valid()
      modifies this, interp
      ensures interp == old(interp) && Valid() && S() == ScanPushed(old(S()), Lim(), scan, pose)
      ensures old(fates) <= fates && out == Frames(fates[|old(fates)|..])
    {
      hide Drained, Pushed;
      StepOk(S(), Lim(), OfScan(scan, pose));
      interp.Push(Sample(scan.t, pose));
      scans := scans + [scan];
      while |scans| > ring
        invariant |scans| <= |old(scans)| + 1 && (|scans| >= ring || |scans| == |old(scans)| + 1)
        invariant scans == (old(scans) + [scan])[|old(scans)| + 1 - |scans|..]
        invariant interp == old(interp) && interp.buf == Pushed(old(interp.buf), interp.max, Sample(scan.t, pose))
        invariant pending == old(pending) && fed == old(fed) && fates == old(fates) && interp.Valid() && CountersOk()
        decreases |scans|
      {
        scans := scans[1..];
      }
      assert scans == Newest(old(scans) + [scan], ring);
      out := Drain(false);
    }

    method PushImage(img: Image) returns (out: seq<Frame>)
      requires Valid()
      modifies this
      ensures interp == old(interp) && Valid() && S() == ImagePushed(old(S()), Lim(), img)
      ensures old(fates) <= fates && out == Frames(fates[|old(fates)|..])
    {
      hide Drained, EmittedCount, OldCount, OverflowCount, StreamOk, Frames;
      StepOk(S(), Lim(), OfImage(img));
      StreamBounds(S(), Lim());
      if |pending| >= maxPending {
        Dequeue(Overflow);
      }
      ghost var before := fates;
      pending, fed := pending + [img], fed + [img];
      assert S() == Queued(old(S()), Lim(), img);
      out := Drain(false);
      FramesAfter(old(fates), before, fates);
    }

    method Flush() returns (out: seq<Frame>)
      requires Valid()
      modifies this
      ensures interp == old(interp) && Valid() && S() == Drained(old(S()), true) && pending == []
      ensures old(fates) <= fates && out == Frames(fates[|old(fates)|..])
    {
      hide Drained;
      StepOk(S(), Lim(), OfFlush);
      DrainedOk(S(), true);
      out := Drain(true);
    }
  }

  /** The frames among the fates, in order. */
  function Frames(fates: seq<Fate>): seq<Frame> {
    if fates == [] then []
    else var f := fates[|fates| - 1];
         Frames(fates[..|fates| - 1]) + if f.Emitted? then [f.f] else []
  }

  lemma NoFrames(fates: seq<Fate>)
    requires fates == []
    ensures Frames(fates) == []
  {
  }

  lemma FramesSnoc(fates: seq<Fate>, f: Fate)
    ensures Frames(fates + [f]) == Frames(fates) + if f.Emitted? then [f.f] else []
  {
    assert (fates + [f])[..|fates|] == fates;
  }

  /** An overflow in front adds no frame. */
  lemma FramesAfter(was: seq<Fate>, before: seq<Fate>, now: seq<Fate>)
    requires before == was || before == was + [Overflow]
    requires before <= now
    ensures was <= now && Frames(now[|was|..]) == Frames(now[|before|..])
  {
    if before == was + [Overflow] {
      assert now[|was|..] == [Overflow] + now[|before|..];
      SkipFront(now[|before|..]);
    }
  }

  lemma {:induction false} SkipFront(fates: seq<Fate>)
    ensures Frames([Overflow] + fates) == Frames(fates)
    decreases |fates|
  {
    var all := [Overflow] + fates;
    if fates == [] {
      assert all == [Overflow] && all[..0] == [];
    } else {
      assert all[..|all| - 1] == [Overflow] + fates[..|fates| - 1];
      SkipFront(fates[..|fates| - 1]);
    }
  }

  lemma CountsSnoc(fates: seq<Fate>, f: Fate)
    ensures EmittedCount(fates + [f]) == EmittedCount(fates) + if f.Emitted? then 1 else 0
    ensures OldCount(fates + [f]) == OldCount(fates) + if f.OutOfRange? then 1 else 0
    ensures OverflowCount(fates + [f]) == OverflowCount(fates) + if f.Overflow? then 1 else 0
  {
    assert (fates + [f])[..|fates|] == fates;
  }
}
