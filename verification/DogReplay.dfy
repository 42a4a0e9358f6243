/** Replaying a recording: two streams merged by time, and when every selected image is delivered
    with the nearest scan of the recording. */
module DogReplay {
  import opened PoseInterp
  import opened DogStream
  import opened Division

  const GUARD_NS: int := 500_000_000

  datatype Recording = Recording(scans: seq<Scan>, poses: seq<Pose>, images: seq<Image>)

  ghost predicate RecordingOk(rec: Recording) { |rec.poses| == |rec.scans| }

  /** Images start..end by step; scans from index lo while not after time hi. */
  datatype Plan = Plan(start: nat, end: nat, step: nat, lo: nat, hi: int)

  ghost predicate PlanOk(rec: Recording, pl: Plan) { pl.start < pl.end <= |rec.images| && pl.step >= 1 && pl.lo <= |rec.scans| }

  predicate HaveScan(rec: Recording, pl: Plan, si: nat) { si < |rec.scans| && rec.scans[si].t <= pl.hi }

  predicate Chosen(pl: Plan, k: int)
    requires pl.step >= 1
  {
    (k - pl.start) % pl.step == 0
  }

  /** The pushes still to come: scans win ties, only chosen images are pushed. */
  function Walk(rec: Recording, pl: Plan, si: nat, ki: nat): seq<Event>
    requires RecordingOk(rec) && PlanOk(rec, pl) && si <= |rec.scans| && ki <= pl.end
    decreases |rec.scans| - si + pl.end - ki
  {
    var haveScan := HaveScan(rec, pl, si);
    if !haveScan && ki >= pl.end then []
    else if haveScan && (ki >= pl.end || rec.scans[si].t <= rec.images[ki].t)
    then [OfScan(rec.scans[si], rec.poses[si])] + Walk(rec, pl, si + 1, ki)
    else (if Chosen(pl, ki) then [OfImage(rec.images[ki])] else []) + Walk(rec, pl, si, ki + 1)
  }

  /** The chosen images below ki, in order. */
  function Selected(rec: Recording, pl: Plan, ki: nat): seq<Image>
    requires PlanOk(rec, pl) && ki <= pl.end
  {
    if ki <= pl.start then []
    else Selected(rec, pl, ki - 1) + if Chosen(pl, ki - 1) then [rec.images[ki - 1]] else []
  }

  /** Every step-th image of the window is chosen: their number is the window's, divided and rounded up. */
  lemma {:induction false} SelectedCount(rec: Recording, pl: Plan, ki: nat)
    requires PlanOk(rec, pl) && pl.start <= ki <= pl.end
    ensures |Selected(rec, pl, ki)| == (ki - pl.start + pl.step - 1) / pl.step
    decreases ki
  {
    if ki == pl.start {
      QuotientIs(pl.step - 1, pl.step, 0, pl.step - 1);
    } else {
      SelectedCount(rec, pl, ki - 1);
      CeilingStep(ki - 1 - pl.start, pl.step);
    }
  }

  function Play(st: Stream, lim: Limits, events: seq<Event>): Stream
    decreases |events|
  {
    if events == [] then st else Play(Step(st, lim, events[0]), lim, events[1..])
  }

  lemma PlayMore(st: Stream, lim: Limits, e: Event, rest: seq<Event>)
    ensures Play(st, lim, [e] + rest) == Play(Step(st, lim, e), lim, rest)
  {
    assert ([e] + rest)[1..] == rest;
  }

  // ---------- what is pushed ----------

  datatype Reading = Reading(scan: Scan, pose: Pose)

  /** The images among the events, in order. */
  function ImagesOf(events: seq<Event>): seq<Image>
    decreases |events|
  {
    if events == [] then []
    else (if events[0].OfImage? then [events[0].img] else []) + ImagesOf(events[1..])
  }

  /** The scans among the events with their poses, in order. */
  function ReadingsOf(events: seq<Event>): seq<Reading>
    decreases |events|
  {
    if events == [] then []
    else (if events[0].OfScan? then [Reading(events[0].scan, events[0].pose)] else []) + ReadingsOf(events[1..])
  }

  lemma ImagesCons(e: Event, rest: seq<Event>)
    ensures ImagesOf([e] + rest) == (if e.OfImage? then [e.img] else []) + ImagesOf(rest)
    ensures ReadingsOf([e] + rest) == (if e.OfScan? then [Reading(e.scan, e.pose)] else []) + ReadingsOf(rest)
  {
    assert ([e] + rest)[1..] == rest;
  }

  /** Every step-th image of the window. */
  lemma {:induction false} SelectedAt(rec: Recording, pl: Plan, ki: nat, i: nat)
    requires PlanOk(rec, pl) && pl.start <= ki <= pl.end && i < |Selected(rec, pl, ki)|
    ensures pl.start + i * pl.step < ki && Selected(rec, pl, ki)[i] == rec.images[pl.start + i * pl.step]
    decreases ki
  {
    if ki > pl.start {
      var front := Selected(rec, pl, ki - 1);
      if i < |front| {
        SelectedAt(rec, pl, ki - 1, i);
      } else {
        SelectedCount(rec, pl, ki - 1);
        LastMultiple(ki - 1 - pl.start, pl.step);
      }
    }
  }

  /** A multiple of s is s times the number of groups before it. */
  lemma LastMultiple(n: nat, s: nat)
    requires s >= 1 && n % s == 0
    ensures (n + s - 1) / s * s == n
  {
    Quotient(n, s);
    QuotientIs(n + s - 1, s, n / s, s - 1);
  }

  /** What one step of the walk adds. */
  lemma WalkOne(rec: Recording, pl: Plan, si: nat, ki: nat)
    requires RecordingOk(rec) && PlanOk(rec, pl) && si <= |rec.scans| && pl.start <= ki <= pl.end
    requires HaveScan(rec, pl, si) || ki < pl.end
    ensures var takesScan := HaveScan(rec, pl, si) && (ki >= pl.end || rec.scans[si].t <= rec.images[ki].t);
            var (sj, kj) := if takesScan then (si + 1, ki) else (si, ki + 1);
            && ImagesOf(Walk(rec, pl, si, ki)) ==
               (if !takesScan && Chosen(pl, ki) then [rec.images[ki]] else []) + ImagesOf(Walk(rec, pl, sj, kj))
            && ReadingsOf(Walk(rec, pl, si, ki)) ==
               (if takesScan then [Reading(rec.scans[si], rec.poses[si])] else []) + ReadingsOf(Walk(rec, pl, sj, kj))
  {
    hide ImagesOf, ReadingsOf, Chosen;
    if HaveScan(rec, pl, si) && (ki >= pl.end || rec.scans[si].t <= rec.images[ki].t) {
      ImagesCons(OfScan(rec.scans[si], rec.poses[si]), Walk(rec, pl, si + 1, ki));
    } else if Chosen(pl, ki) {
      ImagesCons(OfImage(rec.images[ki]), Walk(rec, pl, si, ki + 1));
    } else {
      assert [] + Walk(rec, pl, si, ki + 1) == Walk(rec, pl, si, ki + 1);
    }
  }

  lemma WalkOver(rec: Recording, pl: Plan, si: nat, ki: nat)
    requires RecordingOk(rec) && PlanOk(rec, pl) && si <= |rec.scans| && pl.start <= ki <= pl.end
    requires !HaveScan(rec, pl, si) && ki >= pl.end
    ensures ImagesOf(Walk(rec, pl, si, ki)) == [] && ReadingsOf(Walk(rec, pl, si, ki)) == []
  {
  }

  lemma {:induction false} WalkImages(rec: Recording, pl: Plan, si: nat, ki: nat)
    requires RecordingOk(rec) && PlanOk(rec, pl) && si <= |rec.scans| && pl.start <= ki <= pl.end
    ensures Selected(rec, pl, pl.end) == Selected(rec, pl, ki) + ImagesOf(Walk(rec, pl, si, ki))
    decreases |rec.scans| - si + pl.end - ki
  {
    hide Walk, ImagesOf, ReadingsOf, Chosen;
    if !HaveScan(rec, pl, si) && ki >= pl.end {
      WalkOver(rec, pl, si, ki);
    } else {
      WalkOne(rec, pl, si, ki);
      if HaveScan(rec, pl, si) && (ki >= pl.end || rec.scans[si].t <= rec.images[ki].t) {
        WalkImages(rec, pl, si + 1, ki);
      } else {
        WalkImages(rec, pl, si, ki + 1);
      }
    }
  }

  /** The end of the run of scans, from si on, that are not after time hi. */
  function RunEnd(scans: seq<Scan>, hi: int, si: nat): (r: nat)
    requires si <= |scans|
    ensures si <= r <= |scans|
    ensures (forall j | si <= j < r :: scans[j].t <= hi) && (r < |scans| ==> scans[r].t > hi)
    decreases |scans| - si
  {
    if si < |scans| && scans[si].t <= hi then RunEnd(scans, hi, si + 1) else si
  }

  function Readings(rec: Recording, a: nat, b: nat): (r: seq<Reading>)
    requires RecordingOk(rec) && a <= b <= |rec.scans|
    ensures |r| == b - a && forall j | 0 <= j < |r| :: r[j] == Reading(rec.scans[a + j], rec.poses[a + j])
  {
    seq(b - a, j requires 0 <= j < b - a => Reading(rec.scans[a + j], rec.poses[a + j]))
  }

  lemma {:induction false} WalkReadings(rec: Recording, pl: Plan, si: nat, ki: nat)
    requires RecordingOk(rec) && PlanOk(rec, pl) && si <= |rec.scans| && pl.start <= ki <= pl.end
    ensures ReadingsOf(Walk(rec, pl, si, ki)) == Readings(rec, si, RunEnd(rec.scans, pl.hi, si))
    decreases |rec.scans| - si + pl.end - ki
  {
    hide Walk, ImagesOf, ReadingsOf, Chosen;
    if !HaveScan(rec, pl, si) && ki >= pl.end {
      WalkOver(rec, pl, si, ki);
    } else {
      WalkOne(rec, pl, si, ki);
      if HaveScan(rec, pl, si) && (ki >= pl.end || rec.scans[si].t <= rec.images[ki].t) {
        WalkReadings(rec, pl, si + 1, ki);
      } else {
        WalkReadings(rec, pl, si, ki + 1);
      }
    }
  }

  lemma {:induction false} DrainKeepsFed(st: Stream, atFlush: bool)
    ensures Drained(st, atFlush).fed == st.fed
    decreases |st.pending|
  {
    hide Verdict;
    if st.pending != [] {
      match Verdict(st.buf, st.scans, st.pending[0], atFlush)
      case None =>
      case Some(fate) => DrainKeepsFed(Leaves(st, fate), atFlush);
    }
  }

  lemma StepFeeds(st: Stream, lim: Limits, e: Event)
    ensures Step(st, lim, e).fed == st.fed + if e.OfImage? then [e.img] else []
  {
    hide Drained, Pushed;
    match e
    case OfScan(s, p) =>
      DrainKeepsFed(st.(buf := Pushed(st.buf, lim.poses, Sample(s.t, p)), scans := Newest(st.scans + [s], lim.ring)), false);
    case OfImage(i) => DrainKeepsFed(Queued(st, lim, i), false);
    case OfFlush => DrainKeepsFed(st, true);
  }

  /** The images pushed are exactly those the stream is fed. */
  lemma {:induction false} PlayFeeds(st: Stream, lim: Limits, events: seq<Event>)
    ensures Play(st, lim, events).fed == st.fed + ImagesOf(events)
    decreases |events|
  {
    hide Step;
    if events != [] {
      StepFeeds(st, lim, events[0]);
      PlayFeeds(Step(st, lim, events[0]), lim, events[1..]);
    }
  }

  /** What a replay pushes, in terms of its arguments: the window starts at startImage, or at 0, and is cut to
      maxImages images unless that is negative; every stride-th image of it, and every scan from half a second
      before its first image while none is more than half a second after its last. */
  ghost predicate Replays(rec: Recording, startImage: int, maxImages: int, stride: int, events: seq<Event>)
    requires RecordingOk(rec)
  {
    var n := |rec.images|;
    var start := if startImage > 0 then startImage else 0;
    var end := if maxImages < 0 || n <= start + maxImages then n else start + maxImages;
    var s := if stride > 1 then stride else 1;
    if rec.scans == [] || start >= end then events == []
    else EveryNth(rec.images, start, end, s, ImagesOf(events))
         && ScansWithin(rec, rec.images[start].t - 500_000_000, rec.images[end - 1].t + 500_000_000, ReadingsOf(events))
  }

  ghost predicate EveryNth(images: seq<Image>, start: nat, end: nat, s: nat, out: seq<Image>)
    requires start < end <= |images| && s >= 1
  {
    && |out| == (end - start + s - 1) / s
    && forall i | 0 <= i < |out| :: start + i * s < end && out[i] == images[start + i * s]
  }

  ghost predicate ScansWithin(rec: Recording, from: int, to: int, out: seq<Reading>)
    requires RecordingOk(rec)
  {
    exists lo, hi :: 0 <= lo <= hi <= |rec.scans| && RunOfScans(rec.scans, from, to, lo, hi) && out == Readings(rec, lo, hi)
  }

  /** lo is the first scan not before `from`, and hi the first from there on after `to`. */
  ghost predicate RunOfScans(scans: seq<Scan>, from: int, to: int, lo: nat, hi: nat)
    requires lo <= hi <= |scans|
  {
    && (forall j | 0 <= j < lo :: scans[j].t < from) && (lo < |scans| ==> scans[lo].t >= from)
    && (forall j | lo <= j < hi :: scans[j].t <= to) && (hi < |scans| ==> scans[hi].t > to)
  }

  lemma {:induction false} FirstScanIs(rec: Recording, from: int, i: nat)
    requires i <= |rec.scans|
    ensures var r := FirstScan(rec, from, i);
            (forall j | i <= j < r :: rec.scans[j].t < from) && (r < |rec.scans| ==> rec.scans[r].t >= from)
    decreases |rec.scans| - i
  {
    if i < |rec.scans| && rec.scans[i].t < from { FirstScanIs(rec, from, i + 1); }
  }

  lemma WalkIsEveryNth(rec: Recording, pl: Plan)
    requires RecordingOk(rec) && PlanOk(rec, pl)
    ensures ImagesOf(Walk(rec, pl, pl.lo, pl.start)) == Selected(rec, pl, pl.end)
    ensures EveryNth(rec.images, pl.start, pl.end, pl.step, Selected(rec, pl, pl.end))
  {
    hide Walk, Selected, ImagesOf;
    WalkImages(rec, pl, pl.lo, pl.start);
    NoneSelected(rec, pl);
    SelectedCount(rec, pl, pl.end);
    forall i | 0 <= i < |Selected(rec, pl, pl.end)|
      ensures pl.start + i * pl.step < pl.end && Selected(rec, pl, pl.end)[i] == rec.images[pl.start + i * pl.step]
    {
      SelectedAt(rec, pl, pl.end, i);
    }
  }

  lemma WalkIsWithin(rec: Recording, pl: Plan, from: int)
    requires RecordingOk(rec) && PlanOk(rec, pl) && pl.lo == FirstScan(rec, from, 0)
    ensures var out := ReadingsOf(Walk(rec, pl, pl.lo, pl.start));
            ScansWithin(rec, from, pl.hi, out) && |out| == RunEnd(rec.scans, pl.hi, pl.lo) - pl.lo
  {
    hide Walk, ReadingsOf, FirstScan;
    WalkReadings(rec, pl, pl.lo, pl.start);
    FirstScanIs(rec, from, 0);
    assert RunOfScans(rec.scans, from, pl.hi, pl.lo, RunEnd(rec.scans, pl.hi, pl.lo));
  }

  lemma PlanReplays(rec: Recording, startImage: int, maxImages: int, stride: int)
    requires RecordingOk(rec)
    ensures Idle(rec, startImage, maxImages, stride) ==> Replays(rec, startImage, maxImages, stride, [])
    ensures !Idle(rec, startImage, maxImages, stride) ==>
              var pl := PlanFor(rec, startImage, maxImages, stride);
              && PlanOk(rec, pl) && Replays(rec, startImage, maxImages, stride, Walk(rec, pl, pl.lo, pl.start))
              && ImagesOf(Walk(rec, pl, pl.lo, pl.start)) == Selected(rec, pl, pl.end)
              && |ReadingsOf(Walk(rec, pl, pl.lo, pl.start))| == RunEnd(rec.scans, pl.hi, pl.lo) - pl.lo
  {
    hide Walk, Selected, FirstScan, RunEnd, EveryNth, ScansWithin, ImagesOf, ReadingsOf;
    if !Idle(rec, startImage, maxImages, stride) {
      var pl := PlanFor(rec, startImage, maxImages, stride);
      WalkIsEveryNth(rec, pl);
      WalkIsWithin(rec, pl, rec.images[pl.start].t - GUARD_NS);
    }
  }

  // ---------- the replay loop ----------

  /** First scan inside the guard band. */
  function FirstScan(rec: Recording, from: int, i: nat): (r: nat)
    requires i <= |rec.scans|
    ensures i <= r <= |rec.scans|
    decreases |rec.scans| - i
  {
    if i < |rec.scans| && rec.scans[i].t < from then FirstScan(rec, from, i + 1) else i
  }

  function PlanFor(rec: Recording, startImage: int, maxImages: int, stride: int): Plan
    requires rec.images != []
  {
    var nimg := |rec.images|;
    var start := if startImage > 0 then startImage else 0;
    var end := if maxImages < 0 then nimg else if start + maxImages < nimg then start + maxImages else nimg;
    var step := if stride > 1 then stride else 1;
    if start >= end then Plan(0, 0, step, 0, 0)
    else Plan(start, end, step, FirstScan(rec, rec.images[start].t - GUARD_NS, 0), rec.images[end - 1].t + GUARD_NS)
  }

  /** Nothing to replay: no images, no scans, or an empty window. */
  predicate Idle(rec: Recording, startImage: int, maxImages: int, stride: int) {
    rec.images == [] || rec.scans == [] || PlanFor(rec, startImage, maxImages, stride).end == 0
  }

  /** Push one scan or consider one image, whichever comes first. */
  method MergeOne(rec: Recording, pl: Plan, stream: DogStream, si0: nat, ki0: nat)
    returns (si: nat, ki: nat, pushed: nat, read: nat, out: seq<Frame>)
    requires RecordingOk(rec) && PlanOk(rec, pl) && stream.Valid() && si0 <= |rec.scans| && pl.start <= ki0 <= pl.end
    requires HaveScan(rec, pl, si0) || ki0 < pl.end
    modifies stream, stream.interp
    ensures stream.interp == old(stream.interp) && stream.Valid()
    ensures si0 <= si <= |rec.scans| && ki0 <= ki <= pl.end && si + ki == si0 + ki0 + 1
    ensures Play(stream.S(), stream.Lim(), Walk(rec, pl, si, ki)) == Play(old(stream.S()), stream.Lim(), Walk(rec, pl, si0, ki0))
    ensures |Selected(rec, pl, ki)| == |Selected(rec, pl, ki0)| + pushed
    ensures si == si0 + read && (read > 0 ==> read == 1 && HaveScan(rec, pl, si0))
    ensures old(stream.fates) <= stream.fates && out == Frames(stream.fates[|old(stream.fates)|..])
  {
    hide Drained, Step, Frames, Walk, Selected, Play;
    ghost var s0, lim := stream.S(), stream.Lim();
    si, ki, pushed, read, out := si0, ki0, 0, 0, [];
    if HaveScan(rec, pl, si) && (ki >= pl.end || rec.scans[si].t <= rec.images[ki].t) {
      WalkScan(rec, pl, s0, lim, si, ki);
      out := stream.PushScan(rec.scans[si], rec.poses[si]);
      si, read := si + 1, 1;
    } else {
      // Keep the scans dense, but push only every step-th image.
      NoFrames(stream.fates[|stream.fates|..]);
      WalkImage(rec, pl, s0, lim, si, ki);
      if (ki - pl.start) % pl.step == 0 {
        out := stream.PushImage(rec.images[ki]);
        pushed := 1;
      }
      ki := ki + 1;
    }
  }

  lemma WalkScan(rec: Recording, pl: Plan, st: Stream, lim: Limits, si: nat, ki: nat)
    requires RecordingOk(rec) && PlanOk(rec, pl) && si <= |rec.scans| && pl.start <= ki <= pl.end
    requires HaveScan(rec, pl, si) && (ki >= pl.end || rec.scans[si].t <= rec.images[ki].t)
    ensures Play(st, lim, Walk(rec, pl, si, ki)) ==
            Play(ScanPushed(st, lim, rec.scans[si], rec.poses[si]), lim, Walk(rec, pl, si + 1, ki))
  {
    hide Play, Drained, Pushed;
    PlayMore(st, lim, OfScan(rec.scans[si], rec.poses[si]), Walk(rec, pl, si + 1, ki));
    StepIs(st, lim, OfScan(rec.scans[si], rec.poses[si]));
  }

  lemma WalkImage(rec: Recording, pl: Plan, st: Stream, lim: Limits, si: nat, ki: nat)
    requires RecordingOk(rec) && PlanOk(rec, pl) && si <= |rec.scans| && pl.start <= ki < pl.end
    requires !(HaveScan(rec, pl, si) && rec.scans[si].t <= rec.images[ki].t)
    ensures Play(st, lim, Walk(rec, pl, si, ki)) ==
            Play(if Chosen(pl, ki) then ImagePushed(st, lim, rec.images[ki]) else st, lim, Walk(rec, pl, si, ki + 1))
    ensures |Selected(rec, pl, ki + 1)| == |Selected(rec, pl, ki)| + if Chosen(pl, ki) then 1 else 0
  {
    hide Play, Drained, Queued;
    if Chosen(pl, ki) {
      PlayMore(st, lim, OfImage(rec.images[ki]), Walk(rec, pl, si, ki + 1));
      StepIs(st, lim, OfImage(rec.images[ki]));
    } else {
      assert [] + Walk(rec, pl, si, ki + 1) == Walk(rec, pl, si, ki + 1);
    }
  }

  /** Walk the two streams to their ends. */
  method Merge(rec: Recording, pl: Plan, stream: DogStream) returns (imagesPushed: nat, scansPushed: nat, out: seq<Frame>)
    requires RecordingOk(rec) && PlanOk(rec, pl) && stream.Valid()
    modifies stream, stream.interp
    ensures stream.interp == old(stream.interp) && stream.Valid()
    ensures stream.S() == Play(old(stream.S()), stream.Lim(), Walk(rec, pl, pl.lo, pl.start))
    ensures imagesPushed == |Selected(rec, pl, pl.end)| && scansPushed == RunEnd(rec.scans, pl.hi, pl.lo) - pl.lo
    ensures old(stream.fates) <= stream.fates && out == Frames(stream.fates[|old(stream.fates)|..])
  {
    hide Frames, Selected, Step;
    var si: nat, ki: nat := pl.lo, pl.start;
    imagesPushed, scansPushed, out := 0, 0, [];
    NoFrames(stream.fates[|stream.fates|..]);
    NoneSelected(rec, pl);
    while HaveScan(rec, pl, si) || ki < pl.end
      invariant si <= |rec.scans| && pl.start <= ki <= pl.end
      invariant stream.interp == old(stream.interp) && stream.Valid()
      invariant Play(stream.S(), stream.Lim(), Walk(rec, pl, si, ki)) ==
                Play(old(stream.S()), stream.Lim(), Walk(rec, pl, pl.lo, pl.start))
      invariant imagesPushed == |Selected(rec, pl, ki)|
      invariant pl.lo <= si == pl.lo + scansPushed && RunEnd(rec.scans, pl.hi, si) == RunEnd(rec.scans, pl.hi, pl.lo)
      invariant old(stream.fates) <= stream.fates && out == Frames(stream.fates[|old(stream.fates)|..])
      decreases |rec.scans| - si + pl.end - ki
    {
      ghost var fates, si0 := stream.fates, si;
      var pushed, read, more;
      si, ki, pushed, read, more := MergeOne(rec, pl, stream, si, ki);
      FramesJoin(old(stream.fates), fates, stream.fates);
      imagesPushed, scansPushed, out := imagesPushed + pushed, scansPushed + read, out + more;
    }
  }

  lemma NoneSelected(rec: Recording, pl: Plan)
    requires PlanOk(rec, pl)
    ensures Selected(rec, pl, pl.start) == []
  {
  }

  lemma NothingPushed(st: Stream, lim: Limits)
    ensures Play(st, lim, []) == st && ImagesOf([]) == [] && ReadingsOf([]) == []
  {
  }

  /** Advance the scan cursor to the first scan inside the guard band. */
  method SkipTo(rec: Recording, from: int) returns (si: nat)
    ensures si == FirstScan(rec, from, 0) <= |rec.scans|
  {
    si := 0;
    while si < |rec.scans| && rec.scans[si].t < from
      invariant si <= |rec.scans| && FirstScan(rec, from, si) == FirstScan(rec, from, 0)
    {
      si := si + 1;
    }
  }

  /** Replay a recording.  events is what was pushed before the final flush. */
  method RunReplay(rec: Recording, stream: DogStream, startImage: int, maxImages: int, stride: int)
    returns (imagesPushed: nat, scansPushed: nat, out: seq<Frame>, ghost events: seq<Event>)
    requires RecordingOk(rec) && stream.Valid()
    modifies stream, stream.interp
    ensures stream.interp == old(stream.interp) && stream.Valid() && stream.pending == []
    ensures Replays(rec, startImage, maxImages, stride, events)
    ensures imagesPushed == |ImagesOf(events)| && scansPushed == |ReadingsOf(events)|
    ensures stream.S() == Drained(Play(old(stream.S()), stream.Lim(), events), true)
    ensures stream.fed == old(stream.fed) + ImagesOf(events)
    ensures !Idle(rec, startImage, maxImages, stride) ==>
              var pl := PlanFor(rec, startImage, maxImages, stride); PlanOk(rec, pl) && events == Walk(rec, pl, pl.lo, pl.start)
    ensures old(stream.fates) <= stream.fates && out == Frames(stream.fates[|old(stream.fates)|..])
  {
    hide Drained, Step, Frames, Walk, Play, Selected, Replays, RunEnd, ImagesOf, ReadingsOf, FirstScan;
    ghost var s0, lim := stream.S(), stream.Lim();
    imagesPushed, scansPushed, events := 0, 0, [];
    PlanReplays(rec, startImage, maxImages, stride);
    NothingPushed(s0, lim);
    DrainKeepsFed(s0, true);
    if |rec.images| == 0 || |rec.scans| == 0 { out := stream.Flush(); return; }
    var nimg := |rec.images|;
    var start := if startImage > 0 then startImage else 0;
    var end := if maxImages < 0 then nimg else if start + maxImages < nimg then start + maxImages else nimg;
    var step := if stride > 1 then stride else 1;
    if start >= end { out := stream.Flush(); return; }
    var loGuard, hiGuard := rec.images[start].t - GUARD_NS, rec.images[end - 1].t + GUARD_NS;
    var si := SkipTo(rec, loGuard);
    var pl := Plan(start, end, step, si, hiGuard);
    events := Walk(rec, pl, pl.lo, pl.start);
    imagesPushed, scansPushed, out := MergeAndFlush(rec, pl, stream);
    PlayFeeds(s0, lim, events);
    DrainKeepsFed(Play(s0, lim, events), true);
  }

  method MergeAndFlush(rec: Recording, pl: Plan, stream: DogStream) returns (imagesPushed: nat, scansPushed: nat, out: seq<Frame>)
    requires RecordingOk(rec) && PlanOk(rec, pl) && stream.Valid()
    modifies stream, stream.interp
    ensures stream.interp == old(stream.interp) && stream.Valid() && stream.pending == []
    ensures stream.S() == Drained(Play(old(stream.S()), stream.Lim(), Walk(rec, pl, pl.lo, pl.start)), true)
    ensures imagesPushed == |Selected(rec, pl, pl.end)| && scansPushed == RunEnd(rec.scans, pl.hi, pl.lo) - pl.lo
    ensures old(stream.fates) <= stream.fates && out == Frames(stream.fates[|old(stream.fates)|..])
  {
    hide Drained, Step, Frames, Walk, Play, Selected, RunEnd;
    ghost var fates0 := stream.fates;
    imagesPushed, scansPushed, out := Merge(rec, pl, stream);
    ghost var fates1 := stream.fates;
    var last := stream.Flush();
    FramesJoin(fates0, fates1, stream.fates);
    out := out + last;
  }

  lemma StepIs(st: Stream, lim: Limits, e: Event)
    ensures e.OfScan? ==> Step(st, lim, e) == ScanPushed(st, lim, e.scan, e.pose)
    ensures e.OfImage? ==> Step(st, lim, e) == ImagePushed(st, lim, e.img)
    ensures e.OfFlush? ==> Step(st, lim, e) == Drained(st, true)
  {
  }

  lemma FramesJoin(a: seq<Fate>, b: seq<Fate>, c: seq<Fate>)
    requires a <= b <= c
    ensures a <= c && Frames(c[|a|..]) == Frames(b[|a|..]) + Frames(c[|b|..])
  {
    assert c[|a|..] == b[|a|..] + c[|b|..];
    FramesConcat(b[|a|..], c[|b|..]);
  }

  lemma {:induction false} FramesConcat(x: seq<Fate>, y: seq<Fate>)
    ensures Frames(x + y) == Frames(x) + Frames(y)
    decreases |y|
  {
    hide Frames;
    if y == [] {
      assert x + y == x;
      NoFrames(y);
    } else {
      var n := |y| - 1;
      FramesConcat(x, y[..n]);
      FramesSnoc(x + y[..n], y[n]);
      FramesSnoc(y[..n], y[n]);
      assert x + y == (x + y[..n]) + [y[n]] && y == y[..n] + [y[n]];
    }
  }
}
