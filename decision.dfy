/**
  The branching of both recognition handlers once a plate has been found
  and looked up: which outbound calls are made, whether the plate is
  registered, and which JSON payload is answered.
*/
module Decision {
  import opened Wrappers

  /** The one status that opens the gate. */
  const Approved: string := "Godkänd"

  /** The status the camera handler gives a plate it registers. */
  const NotApproved: string := "Ej Godkänd"

  /** The reply of an outbound HTTP call: a status code, or an exception from the client. */
  datatype HttpReply = Answered(code: int) | Unreachable

  /** The `action` texts of an identified plate. */
  datatype Action =
    | GateOpened              // "Grinden har öppnats."
    | GateNotOpened           // "Kunde inte öppna grinden."
    | NotAllowed              // "Statusen tillåter inte grindöppning."
    | KnownNotified           // "Notis skickad för Ej Godkänd registreringsskylt."
    | RegisteredAndNotified   // "Ny registreringsskylt tillagd och notis skickad."

  /** The `{"message": ...}` answers of the recognition handlers. */
  datatype Notice =
    | NotInDatabase       // "Registreringsnumret existerar inte i databasen."
    | NoPlateIdentified   // "Ingen registreringsskylt kunde identifieras."

  /** What an `{"error": ...}` answer reports. */
  datatype Failure =
    | CameraFetchFailed     // "Kunde inte hämta bilden från mobilen"
    | GateUnreachable       // str(e) of the client exception on /ControlGate
    | NotifierUnreachable   // str(e) of the client exception on a notification endpoint

  /** The payload of one recognition request. */
  datatype Response =
    | Identified(plateNumber: string, status: string, action: Action)
    | Message(notice: Notice)
    | Error(failure: Failure)
    | InternalServerError   // an exception no handler catches: HTTP 500

  /** The outbound calls a request makes. */
  datatype Call = ControlGateOpen | NotificationKnown(plate: string) | NotificationUnknown(plate: string)

  /** The response, the calls made in order, and the status of a row to insert, if any. */
  datatype Decision = Decision(response: Response, calls: seq<Call>, register: Option<string>)

  /**
    The `"Godkänd"` branch, the same in both handlers: post `{"action": "open"}`
    to `/ControlGate`; a 200 means the gate opened, any other code that it did
    not, and a client exception becomes an `{"error": ...}` answer.
  */
  function OpenGate(plate: string, gate: HttpReply): (d: Decision)
    ensures d.calls == [ControlGateOpen] && d.register.None?
    ensures d.response.Identified? <==> gate.Answered?
    ensures d.response.Identified? ==>
              d.response.plateNumber == plate && d.response.status == Approved &&
              (d.response.action == GateOpened <==> gate.code == 200) &&
              (d.response.action == GateOpened || d.response.action == GateNotOpened)
    ensures gate.Unreachable? ==> d.response == Error(GateUnreachable)
  {
    match gate
    case Answered(code) =>
      Decision(Identified(plate, Approved, if code == 200 then GateOpened else GateNotOpened), [ControlGateOpen], None)
    case Unreachable =>
      Decision(Error(GateUnreachable), [ControlGateOpen], None)
  }

  /**
    `analyze_picture` after the lookup: approved plates open the gate, other
    statuses are refused, an unknown plate is only reported.
  */
  function UploadDecision(plate: string, found: Option<string>, gate: HttpReply): (d: Decision)
    ensures d.register.None?
    ensures ControlGateOpen in d.calls <==> found == Some(Approved)
    ensures d.calls == [] || d.calls == [ControlGateOpen]
    ensures d.response == Message(NotInDatabase) <==> found.None?
    ensures d.response.Identified? ==> d.response.plateNumber == plate && found == Some(d.response.status)
    ensures d.response.Identified? && d.response.status != Approved ==> d.response.action == NotAllowed
    ensures found == Some(Approved) ==> d == OpenGate(plate, gate)
    ensures found.Some? && found.value != Approved ==> d == Decision(Identified(plate, found.value, NotAllowed), [], None)
  {
    match found
    case None => Decision(Message(NotInDatabase), [], None)
    case Some(status) =>
      if status == Approved then OpenGate(plate, gate)
      else Decision(Identified(plate, status, NotAllowed), [], None)
  }

  /**
    `webcam_picture` after the lookup: approved plates open the gate; other
    known plates are notified as known; an unknown plate is inserted as
    `"Ej Godkänd"` and then notified as unknown. A notification call that
    raises turns the answer into `{"error": ...}`, after the insert.
  */
  function WebcamDecision(plate: string, found: Option<string>, gate: HttpReply, notify: HttpReply): (d: Decision)
    ensures |d.calls| == 1
    ensures ControlGateOpen in d.calls <==> found == Some(Approved)
    ensures NotificationKnown(plate) in d.calls <==> found.Some? && found.value != Approved
    ensures NotificationUnknown(plate) in d.calls <==> found.None?
    ensures d.register.Some? <==> found.None?
    ensures d.register.Some? ==> d.register.value == NotApproved
    ensures d.response.Identified? ==>
              d.response.plateNumber == plate &&
              d.response.status == (if found.Some? then found.value else NotApproved)
    ensures found != Some(Approved) ==> (d.response.Identified? <==> notify.Answered?)
    ensures found == Some(Approved) ==> d == OpenGate(plate, gate)
    ensures found != Some(Approved) && d.response.Identified? ==>
              d.response.action == (if found.None? then RegisteredAndNotified else KnownNotified)
    ensures found != Some(Approved) && notify.Unreachable? ==> d.response == Error(NotifierUnreachable)
  {
    match found
    case None =>
      var response := if notify.Answered? then Identified(plate, NotApproved, RegisteredAndNotified)
                      else Error(NotifierUnreachable);
      Decision(response, [NotificationUnknown(plate)], Some(NotApproved))
    case Some(status) =>
      if status == Approved then OpenGate(plate, gate)
      else
        var response := if notify.Answered? then Identified(plate, status, KnownNotified)
                        else Error(NotifierUnreachable);
        Decision(response, [NotificationKnown(plate)], None)
  }
}
