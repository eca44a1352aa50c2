/** The face registration page: the e-mail check, the scan counter driven by a
    400 ms interval, the snapshot capture, and the save form with its ordered
    checks and reset. */
module RegisterPage {
  import opened Wrappers
  import opened Faces

  // ---------------------------------------------------------------- e-mail

  /** JavaScript's `\s` class: the ECMAScript white space and line terminators. */
  predicate IsSpace(c: char)
  {
    c == ' ' || c == '\t' || c == '\n' || c == '\r' || c == '\U{000B}' || c == '\U{000C}' ||
    c == '\U{00A0}' || c == '\U{1680}' || ('\U{2000}' <= c <= '\U{200A}') ||
    c == '\U{2028}' || c == '\U{2029}' || c == '\U{202F}' || c == '\U{205F}' ||
    c == '\U{3000}' || c == '\U{FEFF}'
  }

  /** A character matched by `[^\s@]`. */
  predicate Plain(c: char)
  {
    !IsSpace(c) && c != '@'
  }

  /** s[lo..hi] matches `[^\s@]+`. */
  predicate PlainRun(s: string, lo: int, hi: int)
    requires 0 <= lo <= hi <= |s|
  {
    lo < hi && forall k :: lo <= k < hi ==> Plain(s[k])
  }

  /** `^[^\s@]+@[^\s@]+\.[^\s@]+$` matches s with its '@' at `at` and its escaped '.' at `dot`. */
  predicate SplitsAt(s: string, at: int, dot: int)
  {
    0 <= at < dot < |s| && s[at] == '@' && s[dot] == '.' &&
    PlainRun(s, 0, at) && PlainRun(s, at + 1, dot) && PlainRun(s, dot + 1, |s|)
  }

  /** `isValidEmail`: the pattern `^[^\s@]+@[^\s@]+\.[^\s@]+$` matches the whole string. */
  predicate IsValidEmail(email: string)
    // the pattern needs at least five characters, so an empty address is never valid
    ensures IsValidEmail(email) ==> |email| >= 5
  {
    exists at, dot | 0 <= at < dot < |email| :: SplitsAt(email, at, dot)
  }

  /** The same condition stated on the address: no white space, exactly one '@' with something
      before it, and after it a '.' that is neither the first nor the last character. */
  ghost predicate WellFormedAddress(s: string)
  {
    (forall k :: 0 <= k < |s| ==> !IsSpace(s[k])) &&
    exists at :: 0 < at < |s| && s[at] == '@' &&
      (forall k :: 0 <= k < |s| && k != at ==> s[k] != '@') &&
      (exists dot :: at + 1 < dot < |s| - 1 && s[dot] == '.')
  }

  lemma IsValidEmailCharacterized(s: string)
    ensures IsValidEmail(s) <==> WellFormedAddress(s)
  {
    if IsValidEmail(s) {
      var at, dot :| 0 <= at < dot < |s| && SplitsAt(s, at, dot);
      forall k | 0 <= k < |s| && k != at
        ensures !IsSpace(s[k]) && s[k] != '@'
      {
        if k < at {
          assert Plain(s[k]);
        } else if k < dot {
          assert Plain(s[k]);
        } else if k > dot {
          assert Plain(s[k]);
        }
      }
      assert !IsSpace(s[at]);
      assert at + 1 < dot < |s| - 1 && s[dot] == '.';
      assert WellFormedAddress(s);
    }
    if WellFormedAddress(s) {
      var at :| 0 < at < |s| && s[at] == '@' &&
        (forall k :: 0 <= k < |s| && k != at ==> s[k] != '@') &&
        (exists dot :: at + 1 < dot < |s| - 1 && s[dot] == '.');
      var dot :| at + 1 < dot < |s| - 1 && s[dot] == '.';
      assert SplitsAt(s, at, dot);
    }
  }

  // ---------------------------------------------------------------- scanning

  const AlignMessage := "Align your face"
  const MultipleMessage := "Multiple faces detected!"
  const HoldMessage := "Hold still..."

  /** What one interval tick shows, and whether it starts the capture. */
  datatype Tick = Tick(progress: int, message: string, capture: bool)

  /** Progress is a multiple of 10 between 0 and 100. */
  predicate ScanValue(p: int)
  {
    0 <= p <= 100 && p % 10 == 0
  }

  /** One tick of the scan interval, given the progress before it and the number of faces seen. */
  function TickOutcome(prev: int, faces: nat): (t: Tick)
    // no face, or more than one: back to zero with the matching message, no capture
    ensures faces == 0 ==> t == Tick(0, AlignMessage, false)
    ensures faces > 1 ==> t == Tick(0, MultipleMessage, false)
    // exactly one face: capture starts exactly when progress had already reached 100
    ensures faces == 1 ==> t.message == HoldMessage && (t.capture <==> prev >= 100)
    ensures faces == 1 && prev < 100 ==> t.progress == prev + 10
    ensures t.capture ==> t.progress == 100
    ensures ScanValue(prev) ==> ScanValue(t.progress)
  {
    if faces == 0 then Tick(0, AlignMessage, false)
    else if faces > 1 then Tick(0, MultipleMessage, false)
    else if prev >= 100 then Tick(100, HoldMessage, true)
    else Tick(prev + 10, HoldMessage, false)
  }

  /** Progress and capture after a run of ticks from 0; the interval stops at the capture. */
  datatype Scan = Scan(progress: int, captured: bool)

  function ScanRun(faces: seq<nat>): (r: Scan)
    ensures ScanValue(r.progress)
    ensures r.captured ==> r.progress == 100
  {
    if faces == [] then Scan(0, false)
    else
      var prev := ScanRun(faces[..|faces| - 1]);
      if prev.captured then prev
      else
        var t := TickOutcome(prev.progress, faces[|faces| - 1]);
        Scan(t.progress, t.capture)
  }

  /** The number of ticks at the end of the run that saw exactly one face. */
  function TrailingOnes(faces: seq<nat>): (n: nat)
    ensures n <= |faces|
  {
    if faces == [] || faces[|faces| - 1] != 1 then 0
    else 1 + TrailingOnes(faces[..|faces| - 1])
  }

  function Min(a: int, b: int): int
  {
    if a < b then a else b
  }

  /** The scan shows 10 points per consecutive single-face tick, up to 100; a tick captures
      exactly when it ends a run of at least eleven single-face ticks, and the capture keeps 100. */
  lemma {:induction false} ScanCountsSteadyTicks(faces: seq<nat>)
    ensures ScanRun(faces).captured ==> ScanRun(faces).progress == 100
    ensures !ScanRun(faces).captured ==> ScanRun(faces).progress == Min(10 * TrailingOnes(faces), 100)
    ensures faces != [] ==>
      (ScanRun(faces).captured <==> ScanRun(faces[..|faces| - 1]).captured || TrailingOnes(faces) >= 11)
  {
    if faces != [] {
      ScanCountsSteadyTicks(faces[..|faces| - 1]);
    }
  }

  /** Some prefix of the ticks ends with at least eleven single-face ticks. */
  ghost predicate SteadyRunSeen(faces: seq<nat>)
  {
    exists n :: 0 <= n <= |faces| && TrailingOnes(faces[..n]) >= 11
  }

  /** A steady run has been seen by the end of the ticks iff one was seen before the last tick,
      or the last tick itself ends one. */
  lemma SteadyRunSeenStep(faces: seq<nat>)
    requires faces != []
    ensures SteadyRunSeen(faces) <==> SteadyRunSeen(faces[..|faces| - 1]) || TrailingOnes(faces) >= 11
  {
    var m := |faces|;
    var p := faces[..m - 1];
    if SteadyRunSeen(p) {
      var n :| 0 <= n <= |p| && TrailingOnes(p[..n]) >= 11;
      assert faces[..n] == p[..n];
    }
    if TrailingOnes(faces) >= 11 {
      assert faces[..m] == faces;
    }
    if SteadyRunSeen(faces) {
      var n :| 0 <= n <= m && TrailingOnes(faces[..n]) >= 11;
      if n < m {
        assert faces[..n] == p[..n];
      } else {
        assert faces[..n] == faces;
      }
    }
  }

  /** The capture fires exactly when eleven consecutive ticks have each seen exactly one face. */
  lemma {:induction false} CaptureNeedsSteadyRun(faces: seq<nat>)
    ensures ScanRun(faces).captured <==> SteadyRunSeen(faces)
  {
    if faces != [] {
      CaptureNeedsSteadyRun(faces[..|faces| - 1]);
      ScanCountsSteadyTicks(faces);
      SteadyRunSeenStep(faces);
    }
  }

  /** Holding one face steady: ten ticks reach 100 without capturing, the eleventh captures. */
  lemma SteadyFaceScenario()
    ensures ScanRun(seq(10, _ => 1)) == Scan(100, false)
    ensures ScanRun(seq(11, _ => 1)) == Scan(100, true)
  {
    var ten: seq<nat> := seq(10, _ => 1);
    var eleven: seq<nat> := seq(11, _ => 1);
    OnesTrail(ten);
    OnesTrail(eleven);
    ScanCountsSteadyTicks(ten);
    ScanCountsSteadyTicks(eleven);
    CaptureNeedsSteadyRun(ten);
    assert !SteadyRunSeen(ten);
    assert eleven[..10] == ten;
  }

  /** A run of single-face ticks trails with all of its ticks. */
  lemma {:induction false} OnesTrail(faces: seq<nat>)
    requires forall k :: 0 <= k < |faces| ==> faces[k] == 1
    ensures TrailingOnes(faces) == |faces|
  {
    if faces != [] {
      OnesTrail(faces[..|faces| - 1]);
    }
  }

  // ---------------------------------------------------------------- saving

  /** The registration request the form posts. */
  datatype Registration = Registration(name: string, email: string, faceEmbedding: Descriptor)

  /** `saveFace`'s checks, in order: both fields filled, then a valid e-mail, then a locked
      face with its descriptor. */
  function CheckForm(name: string, email: string, faceLocked: bool, descriptor: Option<Descriptor>): (r: Result<Registration, string>)
    ensures r.Ok? <==> name != "" && email != "" && IsValidEmail(email) && faceLocked && descriptor.Some?
    ensures r.Ok? ==> r.value == Registration(name, email, descriptor.value)
    ensures name == "" || email == "" ==> r == Err("Name & Email required")
    ensures name != "" && email != "" && !IsValidEmail(email) ==> r == Err("Invalid Email")
    ensures name != "" && email != "" && IsValidEmail(email) && !(faceLocked && descriptor.Some?) ==>
      r == Err("Face scan required")
  {
    if name == "" || email == "" then Err("Name & Email required")
    else if !IsValidEmail(email) then Err("Invalid Email")
    else if !faceLocked || descriptor.None? then Err("Face scan required")
    else Ok(Registration(name, email, descriptor.value))
  }

  /** A dialog: an error title, or a success title with its text. */
  datatype Notice = ErrorNotice(title: string) | SuccessNotice(title: string, text: string)

  /** The registration page's state. `scanning` says whether the scan interval is installed. */
  class RegisterScreen {
    var modelsLoaded: bool
    var cameraOn: bool
    var faceLocked: bool
    var scanning: bool
    var snapshot: Option<string>
    var faceDescriptor: Option<Descriptor>
    var scanProgress: int
    var scanMessage: string
    var loading: bool
    var name: string
    var email: string

    ghost predicate Valid()
      reads this
    {
      ScanValue(scanProgress) && (scanning ==> cameraOn && modelsLoaded && !faceLocked)
    }

    constructor ()
      ensures Valid()
      ensures !modelsLoaded && !cameraOn && !faceLocked && !scanning && !loading
      ensures snapshot.None? && faceDescriptor.None? && scanProgress == 0 && scanMessage == AlignMessage
      ensures name == "" && email == ""
    {
      modelsLoaded, cameraOn, faceLocked, scanning := false, false, false, false;
      snapshot, faceDescriptor := None, None;
      scanProgress, scanMessage := 0, AlignMessage;
      loading, name, email := false, "", "";
    }

    /** The scan effect: whenever its inputs change, the old interval is removed and a new one
        installed if the camera is on, the models are loaded and no face is locked. */
    method Rearm()
      modifies this`scanning
      ensures scanning == (cameraOn && modelsLoaded && !faceLocked)
    {
      scanning := cameraOn && modelsLoaded && !faceLocked;
    }

    /** The detector models have loaded. */
    method ModelsReady()
      requires Valid()
      modifies this
      ensures Valid() && modelsLoaded
      ensures scanning == (cameraOn && !faceLocked)
      ensures cameraOn == old(cameraOn) && faceLocked == old(faceLocked) && scanProgress == old(scanProgress)
      ensures snapshot == old(snapshot) && faceDescriptor == old(faceDescriptor) && scanMessage == old(scanMessage)
      ensures name == old(name) && email == old(email) && loading == old(loading)
    {
      modelsLoaded := true;
      Rearm();
    }

    /** The "Start Camera" button, shown only while the camera is off and no snapshot is held. */
    method StartCamera()
      requires Valid()
      modifies this
      ensures Valid()
      ensures old(!cameraOn && snapshot.None?) ==>
        cameraOn && scanProgress == 0 && scanMessage == AlignMessage &&
        scanning == (modelsLoaded && !faceLocked)
      ensures !old(!cameraOn && snapshot.None?) ==>
        cameraOn == old(cameraOn) && scanProgress == old(scanProgress) &&
        scanMessage == old(scanMessage) && scanning == old(scanning)
      ensures modelsLoaded == old(modelsLoaded) && faceLocked == old(faceLocked)
      ensures snapshot == old(snapshot) && faceDescriptor == old(faceDescriptor)
      ensures name == old(name) && email == old(email) && loading == old(loading)
    {
      if !cameraOn && snapshot.None? {
        cameraOn := true;
        scanProgress := 0;
        scanMessage := AlignMessage;
        Rearm();
      }
    }

    /** One tick of the scan interval that counted `faces` faces. Nothing happens while the
        interval is not installed or the video is not ready. Returns whether the tick starts
        the snapshot capture, which also removes the interval. */
    method ScanTick(videoReady: bool, faces: nat) returns (capture: bool)
      requires Valid()
      modifies this
      ensures Valid()
      ensures old(scanning && videoReady) ==>
        var t := TickOutcome(old(scanProgress), faces);
        scanProgress == t.progress && scanMessage == t.message && capture == t.capture &&
        scanning == !t.capture
      ensures !old(scanning && videoReady) ==>
        !capture && scanProgress == old(scanProgress) && scanMessage == old(scanMessage) && scanning == old(scanning)
      ensures modelsLoaded == old(modelsLoaded) && cameraOn == old(cameraOn) && faceLocked == old(faceLocked)
      ensures snapshot == old(snapshot) && faceDescriptor == old(faceDescriptor)
      ensures name == old(name) && email == old(email) && loading == old(loading)
    {
      capture := false;
      if !scanning || !videoReady {
        return;
      }
      if faces == 0 {
        scanMessage := AlignMessage;
        scanProgress := 0;
      } else if faces > 1 {
        scanMessage := MultipleMessage;
        scanProgress := 0;
      } else {
        scanMessage := HoldMessage;
        if scanProgress >= 100 {
          scanning := false;
          capture := true;
          scanProgress := 100;
        } else {
          scanProgress := scanProgress + 10;
        }
      }
    }

    /** `captureSnapshot`: detect one face and take a screenshot. With no detection an error is
        shown and nothing else changes; on success the descriptor and image are kept, the face is
        locked and the camera stopped. */
    method CaptureSnapshot(videoReady: bool, detection: Option<Descriptor>, screenshot: Option<string>)
      returns (notice: Option<Notice>)
      requires Valid()
      modifies this
      ensures Valid()
      ensures !videoReady ==> notice.None? && faceLocked == old(faceLocked) && faceDescriptor == old(faceDescriptor)
      ensures videoReady && detection.None? ==>
        notice == Some(ErrorNotice("Face not detected properly. Try again!")) &&
        faceLocked == old(faceLocked) && faceDescriptor == old(faceDescriptor)
      ensures videoReady && detection.Some? && screenshot.None? ==>
        notice.None? && faceLocked == old(faceLocked) && faceDescriptor == old(faceDescriptor)
      ensures videoReady && detection.Some? && screenshot.Some? ==>
        notice.None? && snapshot == screenshot && faceDescriptor == detection &&
        faceLocked && !cameraOn && !scanning
      ensures !(videoReady && detection.Some? && screenshot.Some?) ==>
        snapshot == old(snapshot) && cameraOn == old(cameraOn) && scanning == old(scanning)
      ensures modelsLoaded == old(modelsLoaded) && scanProgress == old(scanProgress) && scanMessage == old(scanMessage)
      ensures name == old(name) && email == old(email) && loading == old(loading)
    {
      notice := None;
      if !videoReady {
        return;
      }
      if detection.None? {
        notice := Some(ErrorNotice("Face not detected properly. Try again!"));
        return;
      }
      if screenshot.None? {
        return;
      }
      snapshot := screenshot;
      faceDescriptor := detection;
      faceLocked := true;
      StopCamera();
    }

    /** `stopCamera`: remove the interval and switch the camera off. */
    method StopCamera()
      modifies this`scanning, this`cameraOn
      ensures !scanning && !cameraOn
    {
      scanning := false;
      cameraOn := false;
    }

    /** `saveFace`, with `fetchThrows` saying whether the POST threw. The checks run in order and
        the first failure is reported; only when all pass is the registration posted. After a
        POST that did not throw the captured face and the form are cleared, whatever the status. */
    method SaveFace(fetchThrows: bool) returns (posted: Option<Registration>, notice: Notice)
      requires Valid()
      modifies this
      ensures Valid()
      ensures var check := CheckForm(old(name), old(email), old(faceLocked), old(faceDescriptor));
        (check.Err? ==> posted.None? && notice == ErrorNotice(check.error)) &&
        (check.Ok? ==> posted == Some(check.value))
      ensures posted.Some? && !fetchThrows ==>
        notice == SuccessNotice("Registration Complete", "Face registered successfully") &&
        snapshot.None? && faceDescriptor.None? && !faceLocked && scanProgress == 0 && name == "" && email == ""
      ensures posted.Some? && fetchThrows ==> notice == ErrorNotice("Failed to save data")
      ensures posted.None? || fetchThrows ==>
        snapshot == old(snapshot) && faceDescriptor == old(faceDescriptor) && faceLocked == old(faceLocked) &&
        scanProgress == old(scanProgress) && name == old(name) && email == old(email)
      ensures posted.Some? ==> !loading
      ensures posted.None? ==> loading == old(loading)
      ensures modelsLoaded == old(modelsLoaded) && cameraOn == old(cameraOn) && scanMessage == old(scanMessage)
      ensures scanning == if posted.Some? && !fetchThrows then cameraOn && modelsLoaded else old(scanning)
    {
      ghost var check := CheckForm(name, email, faceLocked, faceDescriptor);
      if name == "" || email == "" {
        return None, ErrorNotice("Name & Email required");
      }
      if !IsValidEmail(email) {
        return None, ErrorNotice("Invalid Email");
      }
      if !faceLocked || faceDescriptor.None? {
        return None, ErrorNotice("Face scan required");
      }
      loading := true;
      posted := Some(Registration(name, email, faceDescriptor.value));
      if fetchThrows {
        notice := ErrorNotice("Failed to save data");
      } else {
        notice := SuccessNotice("Registration Complete", "Face registered successfully");
        snapshot := None;
        faceDescriptor := None;
        faceLocked := false;
        scanProgress := 0;
        name := "";
        email := "";
        Rearm();
      }
      loading := false;
    }
  }
}
