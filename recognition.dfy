/** The face-recognition entry page (src/pages/Index.tsx): a camera flag, a
    four-state scan display, the roster fetched once from the member store,
    and a simulated analysis whose outcome is drawn at random when a 2.5 s
    timer fires. Each random number is a parameter, a draw in [0, 1);
    confidences are kept in tenths of a percent. */
module Recognition {
  import opened Data

  datatype ScanState = Idle | Scanning | Recognized | Denied

  /** What the analysis timer decides. */
  datatype Outcome = Match(member: Member, confidence: int) | NoMatch(confidence: int)

  /** A value Math.random can return. */
  predicate IsDraw(r: real)
  {
    0.0 <= r < 1.0
  }

  /** Math.round on a non-negative argument: the nearest integer, halves up. */
  function Round(x: real): (n: int)
    ensures x - 0.5 < n as real <= x + 0.5
  {
    (x + 0.5).Floor
  }

  /** floor(draw * n): an index into a roster of n members. */
  function PickIndex(draw: real, n: nat): (i: nat)
    requires IsDraw(draw) && n > 0
    ensures i < n
  {
    assert draw * (n as real) < n as real by {
      assert (1.0 - draw) * (n as real) > 0.0;
    }
    (draw * (n as real)).Floor
  }

  /** Every roster position is picked by some draw. */
  lemma PickIndexOnto(i: nat, n: nat)
    requires i < n
    ensures exists d :: IsDraw(d) && PickIndex(d, n) == i
  {
    var d := (i as real) / (n as real);
    assert d * (n as real) == i as real;
    assert IsDraw(d);
    assert PickIndex(d, n) == i;
  }

  /** The 80/20 weighted draw: a match when the draw exceeds 0.2. */
  predicate IsMatchDraw(draw: real)
  {
    draw > 0.2
  }

  /** round((92 + draw * 7) * 10): a match confidence, 92.0 to 99.0 per cent. */
  function MatchConfidence(draw: real): (c: int)
    requires IsDraw(draw)
    ensures 920 <= c <= 990
  {
    Round((92.0 + draw * 7.0) * 10.0)
  }

  /** round((20 + draw * 20) * 10): a no-match confidence, 20.0 to 40.0 per cent. */
  function NoMatchConfidence(draw: real): (c: int)
    requires IsDraw(draw)
    ensures 200 <= c <= 400
  {
    Round((20.0 + draw * 20.0) * 10.0)
  }

  /** Every tenth from 92.0 to 99.0 can be drawn as a match confidence. */
  lemma MatchConfidenceOnto(c: int)
    requires 920 <= c <= 990
    ensures exists d :: IsDraw(d) && MatchConfidence(d) == c
  {
    var d := if c < 990 then ((c - 920) as real) / 70.0 else 69.5 / 70.0;
    assert IsDraw(d);
    assert MatchConfidence(d) == c;
  }

  /** Every tenth from 20.0 to 40.0 can be drawn as a no-match confidence. */
  lemma NoMatchConfidenceOnto(c: int)
    requires 200 <= c <= 400
    ensures exists d :: IsDraw(d) && NoMatchConfidence(d) == c
  {
    var d := if c < 400 then ((c - 200) as real) / 200.0 else 199.5 / 200.0;
    assert IsDraw(d);
    assert NoMatchConfidence(d) == c;
  }

  /** The analysis outcome for a roster snapshot and the timer's successive
      draws: the weighted match draw, then (on a match) the member pick and
      the confidence; on no match the next draw gives the confidence. */
  function ScanOutcome(roster: seq<Member>, matchDraw: real, pickDraw: real, confDraw: real): (o: Outcome)
    requires IsDraw(matchDraw) && IsDraw(pickDraw) && IsDraw(confDraw)
    ensures o.Match? <==> IsMatchDraw(matchDraw) && |roster| > 0
    ensures o.Match? ==> o.member in roster && 920 <= o.confidence <= 990
    ensures o.NoMatch? ==> 200 <= o.confidence <= 400
  {
    if IsMatchDraw(matchDraw) && |roster| > 0 then
      Match(roster[PickIndex(pickDraw, |roster|)], MatchConfidence(confDraw))
    else
      NoMatch(NoMatchConfidence(confDraw))
  }

  class RecognitionPage {
    /** The page is on screen; after unmounting, React ignores state updates. */
    var mounted: bool
    /** The one roster fetch has completed. */
    var rosterFetched: bool
    /** A stream the page obtained is attached to its video element and
        running; stopCamera finds it there through the element. */
    var cameraActive: bool
    var scanState: ScanState
    var matchedMember: Option<Member>
    /** Tenths of a percent. */
    var confidence: int
    var members: seq<Member>
    /** The roster each pending analysis timer captured, oldest first. */
    var pendingScans: seq<seq<Member>>
    /** Ids sent to the store's last-access update, in the order issued. */
    var lastAccessUpdates: seq<string>
    /** Streams left running with no video element that still refers to them. */
    var leakedStreams: nat

    ghost predicate Valid()
      reads this
    {
      && (!rosterFetched ==> members == [] && pendingScans == [])
      && (pendingScans != [] ==> members != [])
      && (forall k :: 0 <= k < |pendingScans| ==> pendingScans[k] == members)
      && (matchedMember.Some? ==> matchedMember.value in members)
      && (scanState == Recognized ==> matchedMember.Some? && 920 <= confidence <= 990)
      && (scanState == Denied ==> confidence == 0 || 200 <= confidence <= 400)
      && (forall k :: 0 <= k < |lastAccessUpdates| ==> FindMember(members, lastAccessUpdates[k]).Some?)
      && (cameraActive ==> mounted)
    }

    constructor ()
      ensures Valid()
      ensures mounted && !rosterFetched && !cameraActive && scanState == Idle
      ensures matchedMember == None && confidence == 0 && members == []
      ensures pendingScans == [] && lastAccessUpdates == [] && leakedStreams == 0
    {
      mounted := true;
      rosterFetched := false;
      cameraActive := false;
      scanState := Idle;
      matchedMember := None;
      confidence := 0;
      members := [];
      pendingScans := [];
      lastAccessUpdates := [];
      leakedStreams := 0;
    }

    /** The mount-time fetch resolves; `data` is None when the store returns none. */
    method RosterLoaded(data: Option<seq<Member>>)
      requires Valid() && !rosterFetched
      modifies this
      ensures Valid() && rosterFetched
      ensures members == if mounted && data.Some? then data.value else old(members)
      ensures mounted == old(mounted) && cameraActive == old(cameraActive)
      ensures scanState == old(scanState) && matchedMember == old(matchedMember)
      ensures confidence == old(confidence) && pendingScans == old(pendingScans)
      ensures lastAccessUpdates == old(lastAccessUpdates) && leakedStreams == old(leakedStreams)
    {
      rosterFetched := true;
      if mounted && data.Some? {
        members := data.value;
      }
    }

    /** startCamera: `granted` says whether the browser handed out a stream.
        The video element exists exactly while the page is mounted. A granted
        stream replaces, without stopping, one already attached; on an
        unmounted page it is never attached. Either way one stream is left
        running that nothing can reach. */
    method StartCamera(granted: bool)
      requires Valid()
      modifies this
      ensures Valid()
      ensures cameraActive == (old(cameraActive) || (granted && mounted))
      ensures leakedStreams ==
        old(leakedStreams) + if granted && (old(cameraActive) || !mounted) then 1 else 0
      ensures mounted == old(mounted) && rosterFetched == old(rosterFetched)
      ensures scanState == old(scanState) && matchedMember == old(matchedMember)
      ensures confidence == old(confidence) && members == old(members)
      ensures pendingScans == old(pendingScans) && lastAccessUpdates == old(lastAccessUpdates)
    {
      if granted {
        if !mounted || cameraActive {
          leakedStreams := leakedStreams + 1;
        }
        if mounted {
          cameraActive := true;
        }
      }
    }

    /** stopCamera: an unconditional reset that keeps the roster, the last
        confidence and any pending analysis timer. */
    method StopCamera()
      requires Valid() && mounted
      modifies this
      ensures Valid()
      ensures !cameraActive && scanState == Idle && matchedMember == None
      ensures confidence == old(confidence) && members == old(members)
      ensures mounted && rosterFetched == old(rosterFetched)
      ensures pendingScans == old(pendingScans) && lastAccessUpdates == old(lastAccessUpdates)
      ensures leakedStreams == old(leakedStreams)
    {
      cameraActive := false;
      scanState := Idle;
      matchedMember := None;
    }

    /** The unmount cleanup calls stopCamera, but React has already cleared
        the video ref, so no stream is found and a running one is left
        running; the state setters have no effect on an unmounted page. */
    method Unmount()
      requires Valid() && mounted
      modifies this
      ensures Valid()
      ensures !mounted && !cameraActive
      ensures leakedStreams == old(leakedStreams) + if old(cameraActive) then 1 else 0
      ensures rosterFetched == old(rosterFetched)
      ensures scanState == old(scanState) && matchedMember == old(matchedMember)
      ensures confidence == old(confidence) && members == old(members)
      ensures pendingScans == old(pendingScans) && lastAccessUpdates == old(lastAccessUpdates)
    {
      if cameraActive {
        leakedStreams := leakedStreams + 1;
      }
      cameraActive := false;
      mounted := false;
    }

    /** simulateScan: an empty roster is denied at once with confidence 0 and
        no timer; otherwise the page shows `scanning` and arms the analysis
        timer over the current roster. */
    method SimulateScan()
      requires Valid() && mounted
      modifies this
      ensures Valid()
      ensures old(members) == [] ==>
        scanState == Denied && confidence == 0 && matchedMember == old(matchedMember)
        && pendingScans == old(pendingScans)
      ensures old(members) != [] ==>
        scanState == Scanning && matchedMember == None && confidence == old(confidence)
        && pendingScans == old(pendingScans) + [old(members)]
      ensures mounted && rosterFetched == old(rosterFetched) && cameraActive == old(cameraActive)
      ensures members == old(members) && lastAccessUpdates == old(lastAccessUpdates)
      ensures leakedStreams == old(leakedStreams)
    {
      if |members| == 0 {
        scanState := Denied;
        confidence := 0;
        return;
      }
      scanState := Scanning;
      matchedMember := None;
      pendingScans := pendingScans + [members];
    }

    /** The oldest pending analysis timer fires. Nothing cancels it, so it
        may fire after a stop or an unmount; a match always issues the
        last-access update, while the display changes only while mounted. */
    method ScanTimerFires(matchDraw: real, pickDraw: real, confDraw: real)
      requires Valid() && pendingScans != []
      requires IsDraw(matchDraw) && IsDraw(pickDraw) && IsDraw(confDraw)
      modifies this
      ensures Valid()
      ensures pendingScans == old(pendingScans[1..])
      ensures var o := ScanOutcome(old(pendingScans[0]), matchDraw, pickDraw, confDraw);
        && lastAccessUpdates == old(lastAccessUpdates) + (if o.Match? then [o.member.id] else [])
        && (mounted ==>
              && scanState == (if o.Match? then Recognized else Denied)
              && confidence == o.confidence
              && matchedMember == (if o.Match? then Some(o.member) else old(matchedMember)))
        && (!mounted ==>
              scanState == old(scanState) && confidence == old(confidence)
              && matchedMember == old(matchedMember))
      ensures mounted ==> scanState == Recognized || scanState == Denied
      ensures scanState == Recognized ==> matchedMember.Some? && matchedMember.value in members
      ensures mounted == old(mounted) && rosterFetched == old(rosterFetched)
      ensures cameraActive == old(cameraActive) && members == old(members)
      ensures leakedStreams == old(leakedStreams)
    {
      var roster := pendingScans[0];
      pendingScans := pendingScans[1..];
      var o := ScanOutcome(roster, matchDraw, pickDraw, confDraw);
      if o.Match? {
        if mounted {
          confidence := o.confidence;
          matchedMember := Some(o.member);
          scanState := Recognized;
        }
        ghost var k :| 0 <= k < |members| && members[k] == o.member;
        lastAccessUpdates := lastAccessUpdates + [o.member.id];
      } else if mounted {
        confidence := o.confidence;
        scanState := Denied;
      }
    }
  }

  /** An empty roster is denied at once: confidence 0, no timer, no store call. */
  method EmptyRosterScenario() returns (state: ScanState, conf: int, timers: nat, updates: seq<string>)
    ensures state == Denied && conf == 0 && timers == 0 && updates == []
  {
    var page := new RecognitionPage();
    page.RosterLoaded(Some([]));
    page.StartCamera(true);
    page.SimulateScan();
    state, conf, timers, updates := page.scanState, page.confidence, |page.pendingScans|, page.lastAccessUpdates;
  }

  /** Roster [a, b], a match draw and a pick of the first position: `a` is
      shown as recognized and its id is sent for the last-access update. */
  method MatchScenario(a: Member, b: Member) returns (state: ScanState, shown: Option<Member>, conf: int, updates: seq<string>)
    ensures state == Recognized && shown == Some(a) && updates == [a.id]
    ensures 920 <= conf <= 990
  {
    var page := new RecognitionPage();
    page.RosterLoaded(Some([a, b]));
    page.StartCamera(true);
    page.SimulateScan();
    assert PickIndex(0.0, 2) == 0;
    page.ScanTimerFires(0.5, 0.0, 0.5);
    state, shown, conf, updates := page.scanState, page.matchedMember, page.confidence, page.lastAccessUpdates;
  }

  /** Stopping the camera does not cancel the analysis timer: the result is
      still displayed, and still recorded, with the camera off. */
  method StopDoesNotCancelScan(a: Member) returns (active: bool, state: ScanState, updates: seq<string>)
    ensures !active && state == Recognized && updates == [a.id]
  {
    var page := new RecognitionPage();
    page.RosterLoaded(Some([a]));
    page.StartCamera(true);
    page.SimulateScan();
    page.StopCamera();
    assert PickIndex(0.0, 1) == 0;
    page.ScanTimerFires(0.9, 0.0, 0.0);
    active, state, updates := page.cameraActive, page.scanState, page.lastAccessUpdates;
  }

  /** Leaving the page with the camera on leaves its stream running. */
  method UnmountLeaksStream() returns (active: bool, leaked: nat)
    ensures !active && leaked == 1
  {
    var page := new RecognitionPage();
    page.StartCamera(true);
    page.Unmount();
    active, leaked := page.cameraActive, page.leakedStreams;
  }

  /** Stopping the camera before leaving releases the stream. */
  method StopThenUnmountReleases() returns (leaked: nat)
    ensures leaked == 0
  {
    var page := new RecognitionPage();
    page.StartCamera(true);
    page.StopCamera();
    page.Unmount();
    leaked := page.leakedStreams;
  }
}
