/** The face-enrollment dialog (src/components/AddMemberModal.tsx): a step
    machine camera -> scanning -> captured -> form driven by the open flag,
    the scan button and two timers, a form record with its setters, and the
    guarded submission that hands a new Member to the owner. */
module Enrollment {
  import opened Data

  datatype Step = Camera | Scanning | Captured | Form

  /** The four text inputs of the form. */
  datatype FieldKey = Name | Email | PassportNumber | Nationality

  datatype MemberForm = MemberForm(
    name: string,
    email: string,
    tier: Tier,
    passportNumber: string,
    nationality: string)

  /** Calls the dialog makes on its owner: onAdd(member) and onClose(). */
  datatype OwnerCall = OnAdd(member: Member) | OnClose

  /** The form as the dialog resets it on opening. */
  const BlankForm := MemberForm("", "", Silver, "", "")

  /** Position of a step in the linear order of the wizard. */
  function Rank(s: Step): nat
  {
    match s
    case Camera => 0
    case Scanning => 1
    case Captured => 2
    case Form => 3
  }

  /** `b` is the step right after `a`. */
  predicate StepsForward(a: Step, b: Step)
  {
    Rank(b) == Rank(a) + 1
  }

  function Field(f: MemberForm, k: FieldKey): string
  {
    match k
    case Name => f.name
    case Email => f.email
    case PassportNumber => f.passportNumber
    case Nationality => f.nationality
  }

  /** The input for `k` changed to `v`. */
  function WithField(f: MemberForm, k: FieldKey, v: string): (g: MemberForm)
    ensures Field(g, k) == v
    ensures forall k' :: k' != k ==> Field(g, k') == Field(f, k')
    ensures g.tier == f.tier
  {
    match k
    case Name => f.(name := v)
    case Email => f.(email := v)
    case PassportNumber => f.(passportNumber := v)
    case Nationality => f.(nationality := v)
  }

  /** Writing back the value an input already holds changes nothing. */
  lemma WithFieldOwnValue(f: MemberForm, k: FieldKey)
    ensures WithField(f, k, Field(f, k)) == f
  {
  }

  /** Submission is allowed only with a name and an email. */
  predicate CanSubmit(f: MemberForm)
  {
    f.name != "" && f.email != ""
  }

  /** The member a submission creates: the form's fields, the captured photo
      as portrait, no flights, active, no last access yet. */
  function NewMember(f: MemberForm, photo: string, id: string, today: string): Member
  {
    Member(id, f.name, f.email, f.tier, today, 0, photo, f.passportNumber, f.nationality, None, Active)
  }

  /** The form fields a member record carries. */
  function FormOf(m: Member): MemberForm
  {
    MemberForm(m.name, m.email, m.tier, m.passportNumber, m.nationality)
  }

  /** handleSubmit: nothing without a name and an email; otherwise the new
      member, from which the submitted form can be read back. */
  function Submit(f: MemberForm, photo: string, id: string, today: string): (r: Option<Member>)
    ensures r.Some? <==> f.name != "" && f.email != ""
    ensures r.Some? ==> FormOf(r.value) == f
    ensures r.Some? ==> r.value.id == id && r.value.memberSince == today && r.value.photoUrl == photo
    ensures r.Some? ==> r.value.flights == 0 && r.value.status == Active && r.value.lastAccess == None
  {
    if CanSubmit(f) then Some(NewMember(f, photo, id, today)) else None
  }

  class EnrollmentDialog {
    /** The owner's `open` prop. */
    var open: bool
    var step: Step
    /** The captured frame as an image string; "" when none was captured. */
    var capturedPhoto: string
    var form: MemberForm
    /** A stream is attached to the dialog's video element and running. */
    var cameraLive: bool
    /** 300 ms camera-start timers not yet fired. */
    var cameraStarts: nat
    /** 2.5 s scan timers and 1.2 s advance timers armed since the dialog
        last opened and not yet fired. */
    var scanTimers: nat
    var advanceTimers: nat
    /** Timers armed before the dialog last opened; nothing cancels them. */
    var staleScanTimers: nat
    var staleAdvanceTimers: nat
    /** A stale timer has fired since the dialog last opened. */
    var disturbed: bool
    /** Streams left running that no video element holds, so that no later
        stopCamera can reach them. */
    var leakedStreams: nat
    var calls: seq<OwnerCall>

    /** The video and canvas elements are rendered. */
    predicate VideoMounted()
      reads this
    {
      open && (step == Camera || step == Scanning)
    }

    /** The step and the timers armed in this opening agree. */
    ghost predicate InSync()
      reads this
    {
      match step
      case Camera => scanTimers == 0 && advanceTimers == 0
      case Scanning => scanTimers == 1 && advanceTimers == 0
      case Captured => scanTimers == 0 && advanceTimers == 1
      case Form => scanTimers == 0 && advanceTimers == 0
    }

    /** A running stream is held by a rendered video element, and unless a
        stale timer interfered, the step matches the armed timers. */
    ghost predicate Valid()
      reads this
    {
      (cameraLive ==> VideoMounted()) && (!disturbed ==> InSync())
    }

    /** Mounted closed; the effect's stopCamera finds no stream. */
    constructor ()
      ensures Valid()
      ensures !open && step == Camera && capturedPhoto == "" && form == BlankForm
      ensures !cameraLive && cameraStarts == 0 && scanTimers == 0 && advanceTimers == 0
      ensures staleScanTimers == 0 && staleAdvanceTimers == 0 && !disturbed && calls == []
      ensures leakedStreams == 0
    {
      open := false;
      step := Camera;
      capturedPhoto := "";
      form := BlankForm;
      cameraLive := false;
      cameraStarts := 0;
      scanTimers := 0;
      advanceTimers := 0;
      staleScanTimers := 0;
      staleAdvanceTimers := 0;
      disturbed := false;
      leakedStreams := 0;
      calls := [];
    }

    /** The owner changes `open`; the effect runs only when the value changes.
        Opening resets the step, photo and form and arms the camera start.
        Closing renders nothing, so the video element is gone before the
        effect's stopCamera runs: a running stream is left running. */
    method SetOpen(value: bool)
      requires Valid()
      modifies this
      ensures Valid()
      ensures open == value
      ensures value == old(open) ==>
        step == old(step) && capturedPhoto == old(capturedPhoto) && form == old(form)
        && cameraLive == old(cameraLive) && cameraStarts == old(cameraStarts)
        && scanTimers == old(scanTimers) && advanceTimers == old(advanceTimers)
        && staleScanTimers == old(staleScanTimers) && staleAdvanceTimers == old(staleAdvanceTimers)
        && disturbed == old(disturbed)
      ensures value && !old(open) ==>
        step == Camera && capturedPhoto == "" && form == BlankForm
        && cameraLive == old(cameraLive) && cameraStarts == old(cameraStarts) + 1
        && scanTimers == 0 && advanceTimers == 0 && !disturbed
        && staleScanTimers == old(staleScanTimers) + old(scanTimers)
        && staleAdvanceTimers == old(staleAdvanceTimers) + old(advanceTimers)
      ensures !value && old(open) ==>
        !cameraLive && step == old(step) && capturedPhoto == old(capturedPhoto) && form == old(form)
        && cameraStarts == old(cameraStarts)
        && scanTimers == old(scanTimers) && advanceTimers == old(advanceTimers)
        && staleScanTimers == old(staleScanTimers) && staleAdvanceTimers == old(staleAdvanceTimers)
        && disturbed == old(disturbed)
      ensures leakedStreams == old(leakedStreams) + if !value && old(open) && old(cameraLive) then 1 else 0
      ensures calls == old(calls)
    {
      if value == open {
        return;
      }
      if value {
        step := Camera;
        capturedPhoto := "";
        form := BlankForm;
        cameraStarts := cameraStarts + 1;
        staleScanTimers := staleScanTimers + scanTimers;
        staleAdvanceTimers := staleAdvanceTimers + advanceTimers;
        scanTimers := 0;
        advanceTimers := 0;
        disturbed := false;
        open := true;
      } else {
        if cameraLive {
          leakedStreams := leakedStreams + 1;
        }
        cameraLive := false;
        open := false;
      }
    }

    /** A 300 ms camera-start timer fires; `granted` says whether the browser
        handed out a stream. It is attached to the video element if one is
        rendered, replacing (without stopping) any stream already there;
        with no video element it is dropped while still running. */
    method CameraStartFires(granted: bool)
      requires Valid() && cameraStarts > 0
      modifies this
      ensures Valid()
      ensures cameraStarts == old(cameraStarts) - 1
      ensures cameraLive == (old(cameraLive) || (granted && old(VideoMounted())))
      ensures leakedStreams ==
        old(leakedStreams) + if granted && (old(cameraLive) || !old(VideoMounted())) then 1 else 0
      ensures open == old(open) && step == old(step) && capturedPhoto == old(capturedPhoto)
      ensures form == old(form) && calls == old(calls) && disturbed == old(disturbed)
      ensures scanTimers == old(scanTimers) && advanceTimers == old(advanceTimers)
      ensures staleScanTimers == old(staleScanTimers) && staleAdvanceTimers == old(staleAdvanceTimers)
    {
      cameraStarts := cameraStarts - 1;
      if granted {
        if !VideoMounted() || cameraLive {
          leakedStreams := leakedStreams + 1;
        }
        if VideoMounted() {
          cameraLive := true;
        }
      }
    }

    /** handleScan, reachable through the scan button, which is shown in the
        camera and scanning steps and disabled while scanning. */
    method HandleScan()
      requires Valid() && open && step == Camera
      modifies this
      ensures Valid()
      ensures step == Scanning && StepsForward(old(step), step)
      ensures scanTimers == old(scanTimers) + 1
      ensures open && capturedPhoto == old(capturedPhoto) && form == old(form)
      ensures cameraLive == old(cameraLive) && cameraStarts == old(cameraStarts)
      ensures advanceTimers == old(advanceTimers) && calls == old(calls) && disturbed == old(disturbed)
      ensures leakedStreams == old(leakedStreams)
      ensures staleScanTimers == old(staleScanTimers) && staleAdvanceTimers == old(staleAdvanceTimers)
    {
      step := Scanning;
      scanTimers := scanTimers + 1;
    }

    /** A 2.5 s scan timer fires (`stale` when it was armed before the dialog
        last opened). The frame is captured only while the video and canvas
        are rendered and the canvas yields a 2D context; the camera is stopped,
        the step becomes captured either way, and the advance timer is armed. */
    method ScanTimerFires(stale: bool, contextAvailable: bool, frame: string)
      requires Valid()
      requires if stale then staleScanTimers > 0 else scanTimers > 0
      modifies this
      ensures Valid()
      ensures step == Captured
      ensures capturedPhoto == if old(VideoMounted()) && contextAvailable then frame else old(capturedPhoto)
      ensures !cameraLive && leakedStreams == old(leakedStreams)
      ensures advanceTimers == old(advanceTimers) + 1
      ensures !stale ==>
        scanTimers == old(scanTimers) - 1 && staleScanTimers == old(staleScanTimers)
        && disturbed == old(disturbed)
      ensures stale ==>
        staleScanTimers == old(staleScanTimers) - 1 && scanTimers == old(scanTimers) && disturbed
      ensures !stale && !old(disturbed) ==> old(step) == Scanning && StepsForward(old(step), step)
      ensures open == old(open) && form == old(form) && calls == old(calls)
      ensures cameraStarts == old(cameraStarts) && staleAdvanceTimers == old(staleAdvanceTimers)
    {
      if VideoMounted() && contextAvailable {
        capturedPhoto := frame;
      }
      if VideoMounted() {
        cameraLive := false;
      }
      step := Captured;
      advanceTimers := advanceTimers + 1;
      if stale {
        staleScanTimers := staleScanTimers - 1;
        disturbed := true;
      } else {
        scanTimers := scanTimers - 1;
      }
    }

    /** A 1.2 s advance timer fires and shows the form. */
    method AdvanceTimerFires(stale: bool)
      requires Valid()
      requires if stale then staleAdvanceTimers > 0 else advanceTimers > 0
      modifies this
      ensures Valid()
      ensures step == Form
      ensures !stale ==>
        advanceTimers == old(advanceTimers) - 1
        && staleAdvanceTimers == old(staleAdvanceTimers) && disturbed == old(disturbed)
      ensures stale ==>
        staleAdvanceTimers == old(staleAdvanceTimers) - 1 && advanceTimers == old(advanceTimers) && disturbed
      ensures !stale && !old(disturbed) ==> old(step) == Captured && StepsForward(old(step), step)
      ensures open == old(open) && capturedPhoto == old(capturedPhoto) && form == old(form)
      ensures !cameraLive && leakedStreams == old(leakedStreams) + if old(cameraLive) then 1 else 0
      ensures cameraStarts == old(cameraStarts) && calls == old(calls)
      ensures scanTimers == old(scanTimers) && staleScanTimers == old(staleScanTimers)
    {
      if cameraLive {
        leakedStreams := leakedStreams + 1;
        cameraLive := false;
      }
      step := Form;
      if stale {
        staleAdvanceTimers := staleAdvanceTimers - 1;
        disturbed := true;
      } else {
        advanceTimers := advanceTimers - 1;
      }
    }

    /** An input's onChange: only that key of the form changes. */
    method EditField(k: FieldKey, v: string)
      requires Valid()
      modifies this`form
      ensures Field(form, k) == v && form.tier == old(form.tier)
      ensures forall k' :: k' != k ==> Field(form, k') == Field(old(form), k')
      ensures Valid()
    {
      form := WithField(form, k, v);
    }

    /** A tier button: the tier changes and every input keeps its value. */
    method SelectTier(t: Tier)
      requires Valid()
      modifies this`form
      ensures form.tier == t
      ensures forall k :: Field(form, k) == Field(old(form), k)
      ensures Valid()
    {
      form := form.(tier := t);
    }

    /** handleSubmit: with a name and an email, onAdd receives the new member
        and then onClose is called; otherwise nothing happens. */
    method HandleSubmit(id: string, today: string)
      requires Valid()
      modifies this`calls
      ensures CanSubmit(form) ==>
        calls == old(calls) + [OnAdd(NewMember(form, capturedPhoto, id, today)), OnClose]
      ensures !CanSubmit(form) ==> calls == old(calls)
      ensures Valid()
    {
      var r := Submit(form, capturedPhoto, id, today);
      if r.Some? {
        calls := calls + [OnAdd(r.value), OnClose];
      }
    }

    /** The header's close button: stop the camera, then onClose. */
    method PressClose()
      requires Valid() && open
      modifies this`cameraLive, this`calls
      ensures !cameraLive
      ensures calls == old(calls) + [OnClose]
      ensures Valid()
    {
      if VideoMounted() {
        cameraLive := false;
      }
      calls := calls + [OnClose];
    }
  }

  /** The full enrollment: the captured frame becomes the new member's
      portrait, the form's fields and tier are copied, and onAdd precedes
      onClose. */
  method EnrollmentScenario(frame: string, id: string, today: string)
    returns (calls: seq<OwnerCall>, step: Step, cameraLive: bool, leaked: nat)
    ensures |calls| == 2 && calls[1] == OnClose && calls[0].OnAdd?
    ensures calls[0].member.photoUrl == frame && calls[0].member.tier == Gold
    ensures calls[0].member.name == "Ada Lovelace" && calls[0].member.email == "ada@example.com"
    ensures calls[0].member.flights == 0 && calls[0].member.status == Active
    ensures step == Form && !cameraLive
    ensures leaked == 0
  {
    var d := new EnrollmentDialog();
    d.SetOpen(true);
    d.CameraStartFires(true);
    d.HandleScan();
    d.ScanTimerFires(false, true, frame);
    d.AdvanceTimerFires(false);
    d.EditField(Name, "Ada Lovelace");
    d.EditField(Email, "ada@example.com");
    d.SelectTier(Gold);
    d.HandleSubmit(id, today);
    calls, step, cameraLive, leaked := d.calls, d.step, d.cameraLive, d.leakedStreams;
  }

  /** Without an email the submission does nothing: no onAdd, no onClose. */
  method MissingEmailScenario(frame: string, id: string, today: string) returns (calls: seq<OwnerCall>)
    ensures calls == []
  {
    var d := new EnrollmentDialog();
    d.SetOpen(true);
    d.HandleScan();
    d.ScanTimerFires(false, true, frame);
    d.AdvanceTimerFires(false);
    d.EditField(Name, "Ada Lovelace");
    assert Field(d.form, Email) == "";
    d.HandleSubmit(id, today);
    calls := d.calls;
  }

  /** A scan timer armed before the dialog was closed and reopened still
      fires, moving the fresh dialog from camera straight to captured. */
  method StaleScanTimerScenario() returns (before: Step, after: Step)
    ensures before == Camera && after == Captured
  {
    var d := new EnrollmentDialog();
    d.SetOpen(true);
    d.HandleScan();
    d.SetOpen(false);
    d.SetOpen(true);
    before := d.step;
    d.ScanTimerFires(true, true, "frame");
    after := d.step;
  }

  /** Closing the dialog before the 300 ms camera start fires leaves the
      stream it then obtains running with no video element to hold it. */
  method EarlyCloseLeaksStream() returns (live: bool, leaked: nat)
    ensures !live && leaked == 1
  {
    var d := new EnrollmentDialog();
    d.SetOpen(true);
    d.SetOpen(false);
    d.CameraStartFires(true);
    live, leaked := d.cameraLive, d.leakedStreams;
  }

  /** Closing through the `open` prop while the camera runs, rather than with
      the close button, leaves the stream running. */
  method CloseByPropLeaksStream() returns (live: bool, leaked: nat)
    ensures !live && leaked == 1
  {
    var d := new EnrollmentDialog();
    d.SetOpen(true);
    d.CameraStartFires(true);
    d.SetOpen(false);
    live, leaked := d.cameraLive, d.leakedStreams;
  }
}
