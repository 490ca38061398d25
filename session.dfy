/** The session status the gateway keeps for its WhatsApp client (`clientStatus`,
    `lastQrText`) and how the client's lifecycle events change it. */
module Session {
  import opened Values

  datatype Status = Initializing | Qr | Ready | Disconnected

  /** The text /status, / and the 409 answer carry for a status. */
  function StatusName(s: Status): string
  {
    match s
    case Initializing => "initializing"
    case Qr => "qr"
    case Ready => "ready"
    case Disconnected => "disconnected"
  }

  /** Distinct statuses have distinct names, so a reply's text determines the status. */
  lemma StatusNamesDistinct(a: Status, b: Status)
    ensures StatusName(a) == StatusName(b) ==> a == b
  {
  }

  /** Lifecycle events of the session client, with the data the callbacks receive. */
  datatype Event =
    | QrIssued(qr: string)
    | Authenticated
    | ClientReady
    | AuthFailure(message: string)
    | LoadingScreen(percent: int, message: string)
    | StateChanged(state: string)
    | ClientDisconnected(reason: string)

  /** The events whose callbacks assign `clientStatus`. */
  predicate ChangesStatus(e: Event)
  {
    e.QrIssued? || e.ClientReady? || e.AuthFailure? || e.ClientDisconnected?
  }

  datatype State = State(status: Status, lastQr: Option<string>)

  /** `clientStatus = 'initializing'`, `lastQrText = null`. */
  const Initial: State := State(Initializing, None)

  /** One callback: qr stores the text and sets 'qr', ready sets 'ready', auth_failure and
      disconnected set 'disconnected'; the others only log. The restart that disconnected
      schedules does not touch the status. */
  function Step(s: State, e: Event): (t: State)
    ensures !ChangesStatus(e) ==> t == s
    ensures t.status != Initializing
         || (t == s && s.status == Initializing)
  {
    match e
    case QrIssued(qr) => State(Qr, Some(qr))
    case ClientReady => s.(status := Ready)
    case AuthFailure(_) => s.(status := Disconnected)
    case ClientDisconnected(_) => s.(status := Disconnected)
    case _ => s
  }

  /** The events of a run, applied in order. */
  function Run(s: State, events: seq<Event>): (t: State)
    ensures (forall i :: 0 <= i < |events| ==> !ChangesStatus(events[i])) ==> t == s
    decreases |events|
  {
    if events == [] then s
    else
      var t := Run(Step(s, events[0]), events[1..]);
      assert forall i :: 1 <= i < |events| ==> events[i] == events[1..][i - 1];
      t
  }

  lemma {:induction false} RunAppend(s: State, events: seq<Event>, e: Event)
    ensures Run(s, events + [e]) == Step(Run(s, events), e)
    decreases |events|
  {
    if events != [] {
      assert (events + [e])[0] == events[0];
      assert (events + [e])[1..] == events[1..] + [e];
      RunAppend(Step(s, events[0]), events[1..], e);
    }
  }

  /** Reference definition: the status the last status-changing event sets, or `d`. */
  function LastStatus(events: seq<Event>, d: Status): Status
  {
    if events == [] then d
    else
      var e := events[|events| - 1];
      match e
      case QrIssued(_) => Qr
      case ClientReady => Ready
      case AuthFailure(_) => Disconnected
      case ClientDisconnected(_) => Disconnected
      case _ => LastStatus(events[..|events| - 1], d)
  }

  /** Reference definition: the text of the last qr event, or `d`. */
  function LastQr(events: seq<Event>, d: Option<string>): Option<string>
  {
    if events == [] then d
    else if events[|events| - 1].QrIssued? then Some(events[|events| - 1].qr)
    else LastQr(events[..|events| - 1], d)
  }

  /** After any run, the status is the one the last status-changing event set, and the
      stored QR text is that of the last qr event (it is never cleared). */
  lemma {:induction false} RunIsLastWriter(s: State, events: seq<Event>)
    ensures Run(s, events).status == LastStatus(events, s.status)
    ensures Run(s, events).lastQr == LastQr(events, s.lastQr)
  {
    if events != [] {
      var front := events[..|events| - 1];
      var e := events[|events| - 1];
      assert events == front + [e];
      RunIsLastWriter(s, front);
      RunAppend(s, front, e);
    }
  }

  /** The status stays 'initializing' exactly as long as no status-changing event has
      arrived: nothing, including the restart after a disconnect, goes back to it. */
  lemma {:induction false} InitializingUntilFirstChange(s: State, events: seq<Event>)
    ensures Run(s, events).status == Initializing <==>
              s.status == Initializing && forall i :: 0 <= i < |events| ==> !ChangesStatus(events[i])
    decreases |events|
  {
    if events != [] {
      InitializingUntilFirstChange(Step(s, events[0]), events[1..]);
      assert forall i :: 1 <= i < |events| ==> events[i] == events[1..][i - 1];
    }
  }

  /** While the status is 'qr' a QR text is stored. */
  predicate Valid(s: State)
  {
    s.status == Qr ==> s.lastQr.Some?
  }

  lemma {:induction false} RunKeepsValid(s: State, events: seq<Event>)
    requires Valid(s)
    ensures Valid(Run(s, events))
    decreases |events|
  {
    if events != [] {
      RunKeepsValid(Step(s, events[0]), events[1..]);
    }
  }

  /** The body of GET /status: the status and, only while it is 'qr', the QR text. */
  datatype StatusReply = StatusReply(status: string, qr: Option<string>)

  function StatusReport(s: State): (r: StatusReply)
    requires Valid(s)
    ensures r.status == StatusName(s.status)
    ensures r.qr.Some? <==> s.status == Qr
    ensures r.qr.Some? ==> r.qr == s.lastQr
  {
    StatusReply(StatusName(s.status), if s.status == Qr then s.lastQr else None)
  }
}
