/** The face login page: a per-frame stability tracker that decides when the
    presented face has been held still long enough, and the handling of the
    login reply that follows. Frames arrive with an explicit timestamp `now`. */
module LoginPage {
  import opened Wrappers
  import opened Faces

  /** A detector bounding box in whole pixels. */
  datatype Box = Box(x: int, y: int, width: int, height: int)

  /** The single face found in one frame. */
  datatype Detection = Detection(box: Box, descriptor: Descriptor)

  /** Jitter per axis, in pixels, that still counts as holding still (strictly less). */
  const MoveTolerance: int := 50

  /** Stillness, in milliseconds, that must be strictly exceeded before the face locks. */
  const DwellMs: int := 800

  function Abs(n: int): nat
  {
    if n < 0 then -n else n
  }

  /** The box has moved less than the tolerance on both axes from the anchor. */
  predicate Still(anchor: Box, box: Box)
  {
    Abs(box.x - anchor.x) < MoveTolerance && Abs(box.y - anchor.y) < MoveTolerance
  }

  /** Time held still. A start stamp of 0 is falsy in JavaScript and reads as no start at all. */
  function Elapsed(stableStart: Option<int>, now: int): (e: int)
    ensures stableStart.None? || stableStart.value == 0 ==> e == 0
    ensures stableStart.Some? && stableStart.value != 0 ==> e == now - stableStart.value
    ensures stableStart.Some? && stableStart.value <= now ==> e >= 0
  {
    if stableStart.Some? && stableStart.value != 0 then now - stableStart.value else 0
  }

  /** `min(100, floor(elapsed / 1000 * 100))`, computed on integers. */
  function StillProgress(elapsed: int): (p: int)
    ensures p <= 100
    ensures elapsed >= 0 ==> p >= 0
    // a clock that stepped back gives a negative elapsed time, and the bar goes negative with it
    ensures elapsed < 0 ==> p < 0
    ensures elapsed < 1000 ==> p * 10 <= elapsed < p * 10 + 10
    ensures elapsed >= 1000 ==> p == 100
  {
    if elapsed / 10 < 100 then elapsed / 10 else 100
  }

  /** The state the detection loop keeps between frames. */
  datatype Tracker = Tracker(lastBox: Option<Box>, stableStart: Option<int>, progress: int, faceLocked: bool)

  /** The state before any frame is seen. */
  const Initial: Tracker := Tracker(None, None, 0, false)

  /** Progress never exceeds 100, and an anchor box always comes with its start time. These
      hold whatever the clock does. */
  predicate TrackerPaired(s: Tracker)
  {
    s.progress <= 100 && (s.lastBox.Some? <==> s.stableStart.Some?)
  }

  /** Progress is a percentage, and an anchor box always comes with its start time. */
  predicate TrackerValid(s: Tracker)
  {
    TrackerPaired(s) && 0 <= s.progress
  }

  /** Time does not run backwards past the anchor's start. */
  predicate ClockOk(s: Tracker, now: int)
  {
    s.stableStart.Some? ==> s.stableStart.value <= now
  }

  /** The new state after one frame, and the descriptor handed to the login request, if any. */
  datatype Step = Step(next: Tracker, handed: Option<Descriptor>)

  /** One pass of the detection loop on the frame seen at time `now`. */
  function Advance(s: Tracker, d: Option<Detection>, now: int): (r: Step)
    // once locked the loop has stopped: the frame changes nothing
    ensures s.faceLocked ==> r == Step(s, None)
    // a descriptor is handed over exactly on the frame that locks, and it is that frame's own
    ensures r.handed.Some? <==> !s.faceLocked && r.next.faceLocked
    ensures r.handed.Some? ==> d.Some? && r.handed.value == d.value.descriptor
    // no face: anchor and timer are cleared and progress drops to zero
    ensures !s.faceLocked && d.None? ==> r.next == Initial
    // first face: it becomes the anchor, the timer starts now, progress shows 10
    ensures !s.faceLocked && d.Some? && s.lastBox.None? ==>
      r.next == Tracker(Some(d.value.box), Some(now), 10, false)
    // held still: the anchor stays; the face locks iff more than DwellMs have elapsed
    ensures !s.faceLocked && d.Some? && s.lastBox.Some? && Still(s.lastBox.value, d.value.box) ==>
      r.next.lastBox == s.lastBox && r.next.stableStart == s.stableStart &&
      (r.next.faceLocked <==> Elapsed(s.stableStart, now) > DwellMs) &&
      r.next.progress == (if r.next.faceLocked then 100 else StillProgress(Elapsed(s.stableStart, now)))
    // moved: re-anchor on this frame, restart the timer, lose 5 points but never go below zero
    ensures !s.faceLocked && d.Some? && s.lastBox.Some? && !Still(s.lastBox.value, d.value.box) ==>
      r.next.lastBox == Some(d.value.box) && r.next.stableStart == Some(now) && !r.next.faceLocked &&
      r.next.progress == (if s.progress >= 5 then s.progress - 5 else 0)
    // progress never passes 100, and anchor and start stay paired
    ensures TrackerPaired(s) ==> TrackerPaired(r.next)
    // progress stays a percentage unless the clock runs backwards past the start
    ensures TrackerValid(s) && ClockOk(s, now) ==> TrackerValid(r.next)
  {
    if s.faceLocked then Step(s, None)
    else
      match d
      case None => Step(Initial, None)
      case Some(det) =>
        match s.lastBox
        case None => Step(Tracker(Some(det.box), Some(now), 10, false), None)
        case Some(anchor) =>
          if Still(anchor, det.box) then
            var elapsed := Elapsed(s.stableStart, now);
            if elapsed > DwellMs then Step(s.(progress := 100, faceLocked := true), Some(det.descriptor))
            else Step(s.(progress := StillProgress(elapsed)), None)
          else
            var lowered := if s.progress - 5 > 0 then s.progress - 5 else 0;
            Step(Tracker(Some(det.box), Some(now), lowered, false), None)
  }

  /** A failed or erroring login unlocks the face and zeroes progress; it keeps the anchor and its start time. */
  function AfterFailedLogin(s: Tracker): (r: Tracker)
    ensures !r.faceLocked && r.progress == 0
    ensures r.lastBox == s.lastBox && r.stableStart == s.stableStart
  {
    s.(faceLocked := false, progress := 0)
  }

  /** Because the anchor survives a failed login, the next still frame locks again at once. */
  lemma RelockAfterFailedLogin(s: Tracker, d: Detection, now: int, d2: Detection, later: int)
    requires !s.faceLocked && Advance(s, Some(d), now).next.faceLocked
    requires s.lastBox.Some? && Still(s.lastBox.value, d2.box)
    requires now <= later
    ensures Advance(AfterFailedLogin(Advance(s, Some(d), now).next), Some(d2), later).next.faceLocked
    ensures Advance(AfterFailedLogin(Advance(s, Some(d), now).next), Some(d2), later).handed == Some(d2.descriptor)
  {
  }

  /** Progress is not monotone while the anchor stays put: the anchoring frame shows 10,
      and a still frame 30 ms later shows 3. */
  lemma ProgressDropsAfterAnchoring()
    ensures Advance(Initial, Some(Detection(Box(100, 100, 50, 50), [])), 1000).next.progress == 10
    ensures Advance(Advance(Initial, Some(Detection(Box(100, 100, 50, 50), [])), 1000).next,
                    Some(Detection(Box(101, 100, 50, 50), [])), 1030).next.progress == 3
  {
  }

  /** A wall clock that steps back is not guarded against: a still frame stamped 100 ms
      before the anchor's start gives -100 ms elapsed and a bar of -10, and no lock. */
  lemma BackwardClockGivesNegativeProgress()
    ensures Advance(Advance(Initial, Some(Detection(Box(100, 100, 50, 50), [])), 1000).next,
                    Some(Detection(Box(100, 100, 50, 50), [])), 900).next ==
            Tracker(Some(Box(100, 100, 50, 50)), Some(1000), -10, false)
  {
  }

  /** A frame: the detector's answer (at most one face) and the time it was taken. */
  datatype Frame = Frame(detection: Option<Detection>, now: int)

  /** The tracker after a whole run of frames, starting from the initial state. */
  function Run(frames: seq<Frame>): (t: Tracker)
    // an anchor always comes with its start time, and a lock always shows a full bar
    ensures t.lastBox.Some? <==> t.stableStart.Some?
    ensures t.progress <= 100
    ensures t.faceLocked ==> t.progress == 100
  {
    if frames == [] then Initial
    else
      var last := frames[|frames| - 1];
      Advance(Run(frames[..|frames| - 1]), last.detection, last.now).next
  }

  /** Timestamps never decrease along the run. */
  ghost predicate Chronological(frames: seq<Frame>)
  {
    forall i, j :: 0 <= i < j < |frames| ==> frames[i].now <= frames[j].now
  }

  /** With a clock that does not run backwards, the tracker stays valid and its start time
      is never later than the latest frame. */
  lemma {:induction false} RunValid(frames: seq<Frame>)
    requires Chronological(frames)
    ensures TrackerValid(Run(frames))
    ensures frames != [] && Run(frames).stableStart.Some? ==>
      Run(frames).stableStart.value <= frames[|frames| - 1].now
  {
    if frames != [] {
      var n := |frames|;
      var p := frames[..n - 1];
      var f := frames[n - 1];
      assert Chronological(p) by {
        forall i, j | 0 <= i < j < |p|
          ensures p[i].now <= p[j].now
        {
          assert p[i] == frames[i] && p[j] == frames[j];
        }
      }
      RunValid(p);
      if p != [] {
        assert p[|p| - 1] == frames[n - 2];
      }
      assert ClockOk(Run(p), f.now);
    }
  }

  /** frames[i] set the anchor and start time of s, and every frame since held still against it. */
  ghost predicate AnchoredSince(frames: seq<Frame>, i: int, s: Tracker)
  {
    0 <= i < |frames| && frames[i].detection.Some? &&
    s.lastBox == Some(frames[i].detection.value.box) && s.stableStart == Some(frames[i].now) &&
    forall k :: i <= k < |frames| ==>
      frames[k].detection.Some? && Still(frames[i].detection.value.box, frames[k].detection.value.box)
  }

  /** Frames i..j all show a face held still against frame i, spanning more than the dwell
      time from a truthy start stamp. */
  ghost predicate DwellWindow(frames: seq<Frame>, i: int, j: int)
  {
    0 <= i < j < |frames| && frames[i].detection.Some? && frames[i].now != 0 &&
    frames[j].now - frames[i].now > DwellMs &&
    forall k :: i <= k <= j ==>
      frames[k].detection.Some? && Still(frames[i].detection.value.box, frames[k].detection.value.box)
  }

  /** While unlocked, the anchor is the frame that started the current unbroken still run. */
  lemma {:induction false} AnchorHistory(frames: seq<Frame>)
    requires !Run(frames).faceLocked
    ensures Run(frames).lastBox.Some? ==> exists i :: AnchoredSince(frames, i, Run(frames))
  {
    if frames != [] {
      var n := |frames|;
      var p := frames[..n - 1];
      var s := Run(p);
      var f := frames[n - 1];
      var t := Run(frames);
      assert t == Advance(s, f.detection, f.now).next;
      assert !s.faceLocked;
      AnchorHistory(p);
      if t.lastBox.Some? && f.detection.Some? {
        if s.lastBox.Some? && Still(s.lastBox.value, f.detection.value.box) {
          var i :| AnchoredSince(p, i, s);
          forall k | i <= k < n
            ensures frames[k].detection.Some? && Still(frames[i].detection.value.box, frames[k].detection.value.box)
          {
            if k < n - 1 {
              assert frames[k] == p[k];
            }
          }
          assert frames[i] == p[i];
          assert AnchoredSince(frames, i, t);
        } else {
          assert AnchoredSince(frames, n - 1, t);
        }
      }
    }
  }

  /** The face locks only after an unbroken still run longer than the dwell time. */
  lemma {:induction false} LockNeedsDwell(frames: seq<Frame>)
    requires Run(frames).faceLocked
    ensures exists i, j :: DwellWindow(frames, i, j)
  {
    var n := |frames|;
    var p := frames[..n - 1];
    var s := Run(p);
    var f := frames[n - 1];
    assert Run(frames) == Advance(s, f.detection, f.now).next;
    if s.faceLocked {
      LockNeedsDwell(p);
      var i, j :| DwellWindow(p, i, j);
      forall k | i <= k <= j
        ensures frames[k] == p[k]
      {
      }
      assert DwellWindow(frames, i, j);
    } else {
      AnchorHistory(p);
      var i :| AnchoredSince(p, i, s);
      forall k | i <= k < n - 1
        ensures frames[k] == p[k]
      {
      }
      assert DwellWindow(frames, i, n - 1);
    }
  }

  /** A face held still against the first frame keeps that frame as anchor, and the tracker is
      locked exactly when the first stamp is truthy and some frame came more than the dwell
      time after it. */
  lemma {:induction false} HeldStill(frames: seq<Frame>)
    requires |frames| >= 1 && frames[0].detection.Some?
    requires forall k :: 0 <= k < |frames| ==>
      frames[k].detection.Some? && Still(frames[0].detection.value.box, frames[k].detection.value.box)
    ensures Run(frames).lastBox == Some(frames[0].detection.value.box)
    ensures Run(frames).stableStart == Some(frames[0].now)
    ensures Run(frames).faceLocked <==>
      frames[0].now != 0 && exists k :: 0 <= k < |frames| && frames[k].now - frames[0].now > DwellMs
  {
    var n := |frames|;
    var p := frames[..n - 1];
    var f := frames[n - 1];
    if n == 1 {
      assert p == [];
    } else {
      assert p[0] == frames[0];
      forall k | 0 <= k < n - 1
        ensures p[k] == frames[k]
      {
      }
      HeldStill(p);
      var s := Run(p);
      assert Run(frames) == Advance(s, f.detection, f.now).next;
    }
  }

  /** Frames every 200 ms from t = 1000 with the same box: not locked at t = 1800 (exactly the
      dwell time), locked at t = 2000. */
  function HoldFrames(): (frames: seq<Frame>)
    ensures |frames| == 6
  {
    seq(6, k => Frame(Some(Detection(Box(100, 100, 80, 80), [0.5])), 1000 + 200 * k))
  }

  lemma HoldScenario()
    ensures !Run(HoldFrames()[..5]).faceLocked
    ensures Run(HoldFrames()).faceLocked
  {
    var fs := HoldFrames();
    var early := fs[..5];
    HeldStill(early);
    HeldStill(fs);
    assert fs[5].now - fs[0].now > DwellMs;
  }

  /** What the login request came back with. */
  datatype LoginReply =
    | Threw                                                       // fetch or JSON parsing threw
    | Replied(ok: bool, success: bool, message: string, name: string)  // "" stands for an absent field

  /** A dialog shown to the user. */
  datatype Notice = Notice(title: string, text: string)

  /** The server accepted the face. */
  predicate LoginAccepted(reply: LoginReply)
  {
    reply.Replied? && reply.ok && reply.success
  }

  /** The dialog shown when the login did not succeed. */
  function FailureNotice(reply: LoginReply): (n: Notice)
    ensures reply.Threw? ==> n == Notice("Error", "Something went wrong")
    ensures reply.Replied? ==>
      (n.title == "Login Failed" && n.text == (if reply.message != "" then reply.message else "Face not recognized"))
  {
    match reply
    case Threw => Notice("Error", "Something went wrong")
    case Replied(_, _, message, _) => Notice("Login Failed", if message != "" then message else "Face not recognized")
  }

  /** The login page's state. */
  class LoginScreen {
    var modelsLoaded: bool
    var cameraOn: bool
    var faceLocked: bool
    var scanProgress: int
    var loading: bool
    var lastBox: Option<Box>
    var stableStart: Option<int>

    /** The part of the state the detection loop works on. */
    function Tracked(): Tracker
      reads this
    {
      Tracker(lastBox, stableStart, scanProgress, faceLocked)
    }

    ghost predicate Valid()
      reads this
    {
      TrackerPaired(Tracked())
    }

    constructor ()
      ensures Valid() && Tracked() == Initial
      ensures !modelsLoaded && !cameraOn && !loading
    {
      modelsLoaded, cameraOn, faceLocked, scanProgress, loading := false, false, false, 0, false;
      lastBox, stableStart := None, None;
    }

    /** The detector models have loaded: the camera is switched on. */
    method ModelsReady()
      requires Valid()
      modifies this
      ensures Valid() && modelsLoaded && cameraOn
      ensures Tracked() == old(Tracked()) && loading == old(loading)
    {
      modelsLoaded := true;
      cameraOn := true;
    }

    /** One run of the detection loop body on the frame taken at `now`. The loop only runs
        while the camera is on, the models are loaded and the face is not locked. */
    method Observe(d: Option<Detection>, now: int) returns (handed: Option<Descriptor>)
      requires Valid()
      modifies this
      ensures Valid()
      ensures old(TrackerValid(Tracked()) && ClockOk(Tracked(), now)) ==> TrackerValid(Tracked())
      ensures cameraOn == old(cameraOn) && modelsLoaded == old(modelsLoaded) && loading == old(loading)
      ensures old(cameraOn && modelsLoaded) ==>
        Tracked() == Advance(old(Tracked()), d, now).next && handed == Advance(old(Tracked()), d, now).handed
      ensures !old(cameraOn && modelsLoaded) ==> Tracked() == old(Tracked()) && handed.None?
    {
      if !cameraOn || faceLocked || !modelsLoaded {
        return None;
      }
      if d.None? {
        lastBox := None;
        stableStart := None;
        scanProgress := 0;
        return None;
      }
      var box := d.value.box;
      if lastBox.None? {
        lastBox := Some(box);
        stableStart := Some(now);
        scanProgress := 10;
        return None;
      }
      var dx := Abs(box.x - lastBox.value.x);
      var dy := Abs(box.y - lastBox.value.y);
      if dx < MoveTolerance && dy < MoveTolerance {
        var elapsed := Elapsed(stableStart, now);
        scanProgress := StillProgress(elapsed);
        if elapsed > DwellMs && !faceLocked {
          faceLocked := true;
          scanProgress := 100;
          return Some(d.value.descriptor);
        }
      } else {
        lastBox := Some(box);
        stableStart := Some(now);
        scanProgress := if scanProgress - 5 > 0 then scanProgress - 5 else 0;
      }
      return None;
    }

    /** The login request made with the descriptor `Observe` handed over, completed by `reply`. A request
        already in flight makes it do nothing. */
    method AutoLogin(descriptor: Descriptor, reply: LoginReply) returns (posted: Option<Descriptor>, notice: Option<Notice>)
      requires Valid()
      modifies this
      ensures Valid()
      // the request body is the descriptor it was handed, unless a request is already in flight
      ensures old(loading) ==> posted.None?
      ensures !old(loading) ==> posted == Some(descriptor)
      ensures old(loading) ==> Tracked() == old(Tracked()) && cameraOn == old(cameraOn) && loading && notice.None?
      ensures modelsLoaded == old(modelsLoaded)
      ensures !old(loading) ==> !loading
      ensures !old(loading) && LoginAccepted(reply) ==>
        Tracked() == old(Tracked()) && !cameraOn && notice == Some(Notice("Login Successful", "Welcome " + reply.name))
      ensures !old(loading) && !LoginAccepted(reply) ==>
        Tracked() == AfterFailedLogin(old(Tracked())) && cameraOn == old(cameraOn) && notice == Some(FailureNotice(reply))
    {
      if loading {
        return None, None;
      }
      loading := true;
      posted := Some(descriptor);
      if LoginAccepted(reply) {
        notice := Some(Notice("Login Successful", "Welcome " + reply.name));
        cameraOn := false;
      } else {
        notice := Some(FailureNotice(reply));
        faceLocked := false;
        scanProgress := 0;
      }
      loading := false;
    }
  }
}
