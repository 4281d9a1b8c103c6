/**
  The two recognition handlers end to end, on one request at a time:
  `analyze_picture` (an uploaded image) and `webcam_picture` (an image
  fetched from the phone camera). The recognition result, the camera's
  reply and the replies of the outbound calls are inputs; the plate table
  is a `PlateRegistry`.
*/
module Pipeline {
  import opened Wrappers
  import opened PlateGrammar
  import opened OcrScan
  import opened Registry
  import opened Decision

  /** What one request answers and does, and the table afterwards. */
  datatype Run = Run(decision: Decision, registry: map<string, string>)

  /** `analyze_picture`: extraction, lookup and the upload branching. */
  function AnalyzeRun(ocr: OcrResult, plates: map<string, string>, gate: HttpReply): Decision {
    match Candidate(ocr, Upload)
    case Crashed => Decision(InternalServerError, [], None)
    case NoCandidate => Decision(Message(NoPlateIdentified), [], None)
    case Found(plate) => UploadDecision(plate, StatusOf(plates, plate), gate)
  }

  /**
    `webcam_picture`: the camera fetch (a non-200 reply is an `{"error": ...}`
    answer, a client exception is uncaught), then extraction, lookup, the
    camera branching and the insert it asks for.
  */
  function WebcamRun(camera: HttpReply, ocr: OcrResult, plates: map<string, string>,
                     gate: HttpReply, notify: HttpReply): Run
  {
    match camera
    case Unreachable => Run(Decision(InternalServerError, [], None), plates)
    case Answered(code) =>
      if code != 200 then Run(Decision(Error(CameraFetchFailed), [], None), plates)
      else match Candidate(ocr, Webcam)
        case Found(plate) =>
          var d := WebcamDecision(plate, StatusOf(plates, plate), gate, notify);
          Run(d, if d.register.Some? then plates[plate := d.register.value] else plates)
        case _ => Run(Decision(Message(NoPlateIdentified), [], None), plates)
  }

  /** `/AnalyzePicture` (server.py, lines 56-111): reads the table and never writes it. */
  method AnalyzePicture(registry: PlateRegistry, ocr: OcrResult, gate: HttpReply) returns (d: Decision)
    ensures d == AnalyzeRun(ocr, registry.plates, gate)
  {
    var candidate := ExtractUpload(ocr);
    match candidate
    case Crashed =>
      d := Decision(InternalServerError, [], None);
    case NoCandidate =>
      d := Decision(Message(NoPlateIdentified), [], None);
    case Found(plate) =>
      var found := registry.Lookup(plate);
      assert found == StatusOf(registry.plates, plate);
      d := UploadDecision(plate, found, gate);
  }

  /** `/WebcamPicture` (server.py, lines 260-352): may insert the plate it sees for the first time. */
  method WebcamPicture(registry: PlateRegistry, camera: HttpReply, ocr: OcrResult,
                       gate: HttpReply, notify: HttpReply) returns (d: Decision)
    modifies registry
    ensures Run(d, registry.plates) == WebcamRun(camera, ocr, old(registry.plates), gate, notify)
  {
    if camera.Unreachable? {
      return Decision(InternalServerError, [], None);
    }
    if camera.code != 200 {
      return Decision(Error(CameraFetchFailed), [], None);
    }
    var candidate := ExtractWebcam(ocr);
    if !candidate.Found? {
      return Decision(Message(NoPlateIdentified), [], None);
    }
    var plate := candidate.plate;
    var found := registry.Lookup(plate);
    assert found == StatusOf(registry.plates, plate);
    d := WebcamDecision(plate, found, gate, notify);
    if d.register.Some? {
      registry.Insert(plate, d.register.value);
    }
  }

  /**
    A request that identifies no plate answers "Ingen registreringsskylt
    kunde identifieras." (or fails with a 500 when the upload loops raise),
    makes no call and leaves the table as it was.
  */
  lemma UnidentifiedLeavesRegistry(ocr: OcrResult, plates: map<string, string>, gate: HttpReply, notify: HttpReply)
    ensures !Candidate(ocr, Upload).Found? ==>
              AnalyzeRun(ocr, plates, gate).calls == [] &&
              AnalyzeRun(ocr, plates, gate).register.None? &&
              AnalyzeRun(ocr, plates, gate).response ==
                (if Candidate(ocr, Upload).Crashed? then InternalServerError else Message(NoPlateIdentified))
    ensures !Candidate(ocr, Webcam).Found? ==>
              WebcamRun(Answered(200), ocr, plates, gate, notify) ==
                Run(Decision(Message(NoPlateIdentified), [], None), plates)
  {
  }

  /**
    An empty result, or one whose lines are all empty or missing, is "no
    plate" for the camera handler.
  */
  lemma EmptyResultIsNoPlate(ocr: OcrResult, plates: map<string, string>, gate: HttpReply, notify: HttpReply)
    requires ocr.Lines? ==> forall l :: 0 <= l < |ocr.lines| ==> ocr.lines[l] == NoLine || ocr.lines[l] == Words([])
    ensures WebcamRun(Answered(200), ocr, plates, gate, notify).decision.response == Message(NoPlateIdentified)
    ensures WebcamRun(Answered(200), ocr, plates, gate, notify).registry == plates
  {
    if ocr.Lines? {
      forall l, w ensures !AcceptedAt(ocr.lines, l, w) {
        if 0 <= l < |ocr.lines| {
          assert ocr.lines[l] == NoLine || ocr.lines[l] == Words([]);
        }
      }
    }
    WebcamNoMatch(ocr);
  }

  /**
    Both handlers post to `/ControlGate` exactly when the plate they found
    has the status "Godkänd", and make no other call then.
  */
  lemma GateOpenIffApproved(ocr: OcrResult, plates: map<string, string>, gate: HttpReply, notify: HttpReply)
    ensures ControlGateOpen in AnalyzeRun(ocr, plates, gate).calls <==>
              Candidate(ocr, Upload).Found? && StatusOf(plates, Candidate(ocr, Upload).plate) == Some(Approved)
    ensures ControlGateOpen in WebcamRun(Answered(200), ocr, plates, gate, notify).decision.calls <==>
              Candidate(ocr, Webcam).Found? && StatusOf(plates, Candidate(ocr, Webcam).plate) == Some(Approved)
  {
  }

  /**
    An approved plate whose gate does not open is still reported with its
    plate and status; only the action says the gate stayed shut.
  */
  lemma GateFailureKeepsDecision(ocr: OcrResult, plates: map<string, string>, code: int, notify: HttpReply)
    requires Candidate(ocr, Upload).Found?
    requires StatusOf(plates, Candidate(ocr, Upload).plate) == Some(Approved)
    ensures var p := Candidate(ocr, Upload).plate;
            var action := if code == 200 then GateOpened else GateNotOpened;
            && AnalyzeRun(ocr, plates, Answered(code)).response == Identified(p, Approved, action)
            && WebcamRun(Answered(200), ocr, plates, Answered(code), notify).decision.response == Identified(p, Approved, action)
            && WebcamRun(Answered(200), ocr, plates, Answered(code), notify).registry == plates
  {
    UploadFoundWebcamAgrees(ocr);
  }

  /** The upload handler never writes the table; a plate it does not know is only reported. */
  lemma UploadNeverRegisters(ocr: OcrResult, plates: map<string, string>, gate: HttpReply)
    ensures AnalyzeRun(ocr, plates, gate).register.None?
    ensures Candidate(ocr, Upload).Found? && Candidate(ocr, Upload).plate !in plates ==>
              AnalyzeRun(ocr, plates, gate) == Decision(Message(NotInDatabase), [], None)
  {
  }

  /**
    The camera handler's first sighting of a plate adds exactly one row, with
    status "Ej Godkänd", reports that status and notifies it as unknown; the
    row stays even when the notification call fails.
  */
  lemma FirstSightingRegisters(ocr: OcrResult, plates: map<string, string>, gate: HttpReply, notify: HttpReply)
    requires Candidate(ocr, Webcam).Found? && Candidate(ocr, Webcam).plate !in plates
    ensures var p := Candidate(ocr, Webcam).plate;
            var r := WebcamRun(Answered(200), ocr, plates, gate, notify);
            && r.registry == plates[p := NotApproved]
            && r.registry.Keys == plates.Keys + {p}
            && r.decision.calls == [NotificationUnknown(p)]
            && r.decision.response ==
                 (if notify.Answered? then Identified(p, NotApproved, RegisteredAndNotified) else Error(NotifierUnreachable))
  {
  }

  /**
    Seeing the same plate again right after its first sighting finds the new
    row: nothing is inserted and the plate is notified as known.
  */
  lemma RepeatSightingFindsRecord(ocr: OcrResult, plates: map<string, string>, gate: HttpReply,
                                  notify1: HttpReply, notify2: HttpReply)
    requires Candidate(ocr, Webcam).Found? && Candidate(ocr, Webcam).plate !in plates
    ensures var p := Candidate(ocr, Webcam).plate;
            var first := WebcamRun(Answered(200), ocr, plates, gate, notify1);
            var second := WebcamRun(Answered(200), ocr, first.registry, gate, notify2);
            && second.registry == first.registry
            && second.decision.calls == [NotificationKnown(p)]
            && second.decision.register.None?
            && (notify2.Answered? ==> second.decision.response == Identified(p, NotApproved, KnownNotified))
  {
    var p := Candidate(ocr, Webcam).plate;
    FirstSightingRegisters(ocr, plates, gate, notify1);
    var first := WebcamRun(Answered(200), ocr, plates, gate, notify1);
    assert StatusOf(first.registry, p) == Some(NotApproved);
    assert NotApproved != Approved;
  }

  /** Running the camera handler twice on the same picture leaves the table as running it once. */
  lemma WebcamRegistryIdempotent(camera: HttpReply, ocr: OcrResult, plates: map<string, string>,
                                 gate1: HttpReply, notify1: HttpReply, gate2: HttpReply, notify2: HttpReply)
    ensures var first := WebcamRun(camera, ocr, plates, gate1, notify1);
            WebcamRun(camera, ocr, first.registry, gate2, notify2).registry == first.registry
  {
    var first := WebcamRun(camera, ocr, plates, gate1, notify1);
    if camera == Answered(200) && Candidate(ocr, Webcam).Found? {
      var p := Candidate(ocr, Webcam).plate;
      assert p in first.registry;
    }
  }

  /**
    Two runs on the same picture report the same plate and status, whatever
    the gate and the notifier answer: a first sighting reports "Ej Godkänd",
    and so does the run that then finds its row.
  */
  lemma RepeatRunSameIdentification(camera: HttpReply, ocr: OcrResult, plates: map<string, string>,
                                    gate1: HttpReply, notify1: HttpReply, gate2: HttpReply, notify2: HttpReply)
    ensures var first := WebcamRun(camera, ocr, plates, gate1, notify1).decision.response;
            var second := WebcamRun(camera, ocr, WebcamRun(camera, ocr, plates, gate1, notify1).registry, gate2, notify2).decision.response;
            first.Identified? && second.Identified? ==>
              first.plateNumber == second.plateNumber && first.status == second.status
    ensures AnalyzeRun(ocr, plates, gate1).response.Identified? && AnalyzeRun(ocr, plates, gate2).response.Identified? ==>
              && AnalyzeRun(ocr, plates, gate1).response.plateNumber == AnalyzeRun(ocr, plates, gate2).response.plateNumber
              && AnalyzeRun(ocr, plates, gate1).response.status == AnalyzeRun(ocr, plates, gate2).response.status
  {
    var first := WebcamRun(camera, ocr, plates, gate1, notify1);
    if camera == Answered(200) && Candidate(ocr, Webcam).Found? {
      var p := Candidate(ocr, Webcam).plate;
      if p !in plates {
        assert StatusOf(first.registry, p) == Some(NotApproved);
        assert NotApproved != Approved;
      } else {
        assert first.registry == plates;
      }
    }
  }

  /** A new plate on an empty table: one "Ej Godkänd" row, an unknown-plate notification, no gate command. */
  lemma ScenarioNewPlate(gate: HttpReply)
    ensures var r := WebcamRun(Answered(200), Lines([Words([Recognized("XYZ123", 0.9)])]), map[], gate, Answered(200));
            && r.registry == map["XYZ123" := NotApproved]
            && r.decision.calls == [NotificationUnknown("XYZ123")]
            && r.decision.response == Identified("XYZ123", NotApproved, RegisteredAndNotified)
  {
    ExampleCompactPlates();
    SingleWordCandidate("XYZ123", 0.9, Webcam);
    assert ' ' !in "XYZ123";
    StripSpacesFacts("XYZ123");
  }

  /** An approved plate with a working gate: the gate opens, in both handlers. */
  lemma ScenarioApprovedPlate(notify: HttpReply)
    ensures var ocr := Lines([Words([Recognized("ABC12A", 0.95)])]);
            var plates := map["ABC12A" := Approved];
            && AnalyzeRun(ocr, plates, Answered(200)) == Decision(Identified("ABC12A", Approved, GateOpened), [ControlGateOpen], None)
            && WebcamRun(Answered(200), ocr, plates, Answered(200), notify).decision.response == Identified("ABC12A", Approved, GateOpened)
  {
    ExampleCompactPlates();
    SingleWordCandidate("ABC12A", 0.95, Webcam);
    SingleWordCandidate("ABC12A", 0.95, Upload);
    assert ' ' !in "ABC12A";
    StripSpacesFacts("ABC12A");
  }

  /** A lower-case text identifies no plate, so nothing is looked up or changed. */
  lemma ScenarioLowerCase(plates: map<string, string>, gate: HttpReply, notify: HttpReply)
    ensures AnalyzeRun(Lines([Words([Recognized("abc123", 0.9)])]), plates, gate).response == Message(NoPlateIdentified)
    ensures WebcamRun(Answered(200), Lines([Words([Recognized("abc123", 0.9)])]), plates, gate, notify)
            == Run(Decision(Message(NoPlateIdentified), [], None), plates)
  {
    ExampleRefusedTexts();
    SingleWordCandidate("abc123", 0.9, Webcam);
    SingleWordCandidate("abc123", 0.9, Upload);
  }
}
