/** The gateway's process-wide state (`clientStatus`, `lastQrText`, `messageStatusMap`), the
    session client's callbacks that change it, and the HTTP handlers that read and write it.
    The session client and the URL fetch are collaborators: their answers are parameters,
    and each handler returns the calls it made to them. */
module Gateway {
  import opened Values
  import opened Fields
  import opened Phone
  import opened Auth
  import opened Session
  import opened Tracker
  import opened Media

  const NumberAliases: seq<string> := ["to", "number", "numero", "telefone", "phone", "destino"]
  const MessageAliases: seq<string> := ["msg", "message", "mensagem", "text", "body", "conteudo"]

  const NumberAndMessageRequired: string := "number_and_message_required"
  const NumberRequired: string := "number_required"
  const FileOrUrlRequired: string := "file_or_url_required"
  const IdRequired: string := "id_required"

  /** The JSON answers of the handlers; HttpStatus gives each one's status code. */
  datatype Response =
    | Accepted(id: Option<string>)                    // { success: true, id }
    | Unauthorized                                    // 'unauthorized'
    | NotReady(status: Status)                        // 'whatsapp_not_ready', status
    | BadRequest(error: string)
    | NotOnWhatsApp(number: string)                   // 'number_not_on_whatsapp', number
    | InternalError                                   // 'internal_error'
    | MessageFound(messageId: string, entry: Entry)   // { success: true, id, ...entry }
    | NotFound                                        // 'not_found'
    | NumberChecked(number: string, registered: bool) // { success: true, number, registered }

  function HttpStatus(r: Response): int
  {
    match r
    case Accepted(_) => 200
    case Unauthorized => 401
    case NotReady(_) => 409
    case BadRequest(_) => 400
    case NotOnWhatsApp(_) => 422
    case InternalError => 500
    case MessageFound(_, _) => 200
    case NotFound => 404
    case NumberChecked(_, _) => 200
  }

  /** Calls into the session client (and the URL fetch), in the order a handler makes them. */
  datatype ClientCall =
    | IsRegisteredUser(chatId: string)
    | FetchUrl(url: string)
    | SendText(chatId: string, text: string)
    | SendMedia(chatId: string, media: MediaPayload, caption: string)

  /** The raw number of a send request; None when absent or null. */
  function NumberOf(body: map<string, Value>): Option<string>
  {
    GetField(body, NumberAliases, None)
  }

  /** The number and text of /send-message, read from the body parsed without multer. */
  function TextNumber(req: Request): Option<string>
  {
    NumberOf(BodyBeforeMulter(req))
  }

  function TextMessage(req: Request): Option<string>
  {
    GetField(BodyBeforeMulter(req), MessageAliases, None)
  }

  /** The number of /send-image and /send-document, read after multer. */
  function MediaNumber(req: Request): Option<string>
  {
    NumberOf(BodyAfterMulter(req))
  }

  /** The normalised chat id for a raw number that passed the `!number` check. */
  function ChatId(number: string): string
    requires number != ""
  {
    NormalizePhone(number).value
  }

  /** GET /check-number. It reads no gateway state: there is no readiness check, and no
      credential gate is installed on the route. */
  function CheckNumber(query: map<string, Value>, registration: Call<bool>): (out: (Response, seq<ClientCall>))
    ensures var number := FirstTruthy([StringAt(query, "to"), StringAt(query, "number")]);
            && (number == "" ==> out == (BadRequest(NumberRequired), []))
            && (number != "" ==> out.1 == [IsRegisteredUser(ChatId(number))])
            && (number != "" && registration.Threw? ==> out.0 == InternalError)
            && (number != "" && registration.Returned? ==> out.0 == NumberChecked(number, registration.value))
  {
    var number := FirstTruthy([StringAt(query, "to"), StringAt(query, "number")]);
    if number == "" then (BadRequest(NumberRequired), [])
    else
      var calls := [IsRegisteredUser(ChatId(number))];
      match registration
      case Threw => (InternalError, calls)
      case Returned(registered) => (NumberChecked(number, registered), calls)
  }

  /** /check-number answers 200 exactly when a number was given and the registration check
      returned; 400 without a number, 500 when the check throws. */
  lemma CheckNumberStatus(query: map<string, Value>, registration: Call<bool>)
    ensures var number := FirstTruthy([StringAt(query, "to"), StringAt(query, "number")]);
            && (HttpStatus(CheckNumber(query, registration).0) == 200 <==> number != "" && registration.Returned?)
            && (number == "" ==> HttpStatus(CheckNumber(query, registration).0) == 400)
            && (number != "" && registration.Threw? ==> HttpStatus(CheckNumber(query, registration).0) == 500)
  {
  }

  /** `to` is read before `number`, and an empty `to` falls through to `number`. */
  lemma CheckNumberPrefersTo(query: map<string, Value>, registration: Call<bool>)
    requires registration.Returned?
    ensures Truthy(StringAt(query, "to")) ==>
              CheckNumber(query, registration).0 == NumberChecked(query["to"].s, registration.value)
    ensures !Truthy(StringAt(query, "to")) && Truthy(StringAt(query, "number")) ==>
              CheckNumber(query, registration).0 == NumberChecked(query["number"].s, registration.value)
  {
    FirstTruthyFirst([StringAt(query, "to"), StringAt(query, "number")]);
  }

  class Gateway {
    /** AUTH_ACCOUNT / AUTH_PASSWORD, read once at start-up. */
    const credentials: Credentials
    var status: Status
    var lastQr: Option<string>
    var table: map<string, Entry>

    ghost predicate Valid()
      reads this
    {
      Session.Valid(State(status, lastQr))
    }

    constructor (env: map<string, string>)
      ensures credentials == ConfiguredCredentials(env)
      ensures State(status, lastQr) == Initial && table == map[]
      ensures Valid()
    {
      credentials := ConfiguredCredentials(env);
      status := Initializing;
      lastQr := None;
      table := map[];
    }

    /** The client.on(...) callbacks for qr, ready, authenticated, auth_failure,
        loading_screen, change_state and disconnected. */
    method OnSessionEvent(e: Event)
      requires Valid()
      modifies this`status, this`lastQr
      ensures Valid()
      ensures State(status, lastQr) == Step(old(State(status, lastQr)), e)
    {
      match e {
        case QrIssued(qr) =>
          status := Qr;
          lastQr := Some(qr);
        case ClientReady =>
          status := Ready;
        case AuthFailure(_) =>
          status := Disconnected;
        case ClientDisconnected(_) =>
          status := Disconnected;
        case Authenticated =>
        case LoadingScreen(_, _) =>
        case StateChanged(_) =>
      }
    }

    /** The message_ack callback's write to the table. */
    method OnMessageAck(e: AckEvent, now: Timestamp)
      requires Valid()
      modifies this`table
      ensures Valid()
      ensures table == RecordAck(old(table), e, now)
      ensures e.id == "" ==> table == old(table)
      ensures e.id != "" ==> table.Keys == old(table).Keys + {e.id}
    {
      if e.id != "" {
        var prev := if e.id in table then Some(table[e.id]) else None;
        table := table[e.id := MergeAck(prev, e, now)];
      }
    }

    /** GET /status. */
    function StatusNow(): (r: StatusReply)
      reads this
      requires Valid()
      ensures r.status == StatusName(status)
      ensures r.qr.Some? <==> status == Qr
      ensures r.qr.Some? ==> r.qr == lastQr
    {
      StatusReport(State(status, lastQr))
    }

    /** GET /message-status?id=...: 400 without an id, 404 for an id not in the table,
        otherwise the stored entry. */
    method MessageStatus(query: map<string, Value>) returns (resp: Response)
      ensures resp.BadRequest? <==> !Truthy(StringAt(query, "id"))
      ensures resp.BadRequest? ==> resp == BadRequest(IdRequired)
      ensures resp.NotFound? <==> Truthy(StringAt(query, "id")) && query["id"].s !in table
      ensures resp.MessageFound? ==>
                resp.messageId == query["id"].s && resp.messageId in table && resp.entry == table[resp.messageId]
      ensures resp.BadRequest? || resp.NotFound? || resp.MessageFound?
      ensures HttpStatus(resp) == 200 <==> Truthy(StringAt(query, "id")) && query["id"].s in table
    {
      var id := StringAt(query, "id");
      if !Truthy(id) {
        return BadRequest(IdRequired);
      }
      if id.value !in table {
        return NotFound;
      }
      return MessageFound(id.value, table[id.value]);
    }

    /** A request the send handlers get past the credential gate and the readiness check. */
    predicate Admitted(req: Request, decode: string -> string)
      reads this
    {
      CheckMkAuth(credentials, req, decode) && status == Ready
    }

    /** POST /send-message behind checkMkAuth, in its order of checks: 401, 409 (no client
        call), 400 (no client call), the registration check (500 if it throws, 422 naming
        the raw number if negative), then the send (500 if it throws); on success the
        returned id is answered and, when non-empty, stored with ack 0. The body is the one
        parsed without multer. */
    method SendMessage(req: Request, decode: string -> string, registration: Call<bool>, send: Call<Option<string>>, now: Timestamp)
      returns (resp: Response, calls: seq<ClientCall>)
      requires Valid()
      modifies this`table
      ensures Valid()
      ensures !CheckMkAuth(credentials, req, decode) ==>
                resp == Unauthorized && calls == [] && table == old(table)
      ensures CheckMkAuth(credentials, req, decode) && status != Ready ==>
                resp == NotReady(status) && calls == [] && table == old(table)
      ensures Admitted(req, decode) && !(Truthy(TextNumber(req)) && Truthy(TextMessage(req))) ==>
                resp == BadRequest(NumberAndMessageRequired) && calls == [] && table == old(table)
      ensures Admitted(req, decode) && Truthy(TextNumber(req)) && Truthy(TextMessage(req)) ==>
                var number := TextNumber(req).value;
                var chat := ChatId(number);
                && (registration.Threw? ==> resp == InternalError && calls == [IsRegisteredUser(chat)] && table == old(table))
                && (registration == Returned(false) ==>
                      resp == NotOnWhatsApp(number) && calls == [IsRegisteredUser(chat)] && table == old(table))
                && (registration == Returned(true) ==>
                      calls == [IsRegisteredUser(chat), SendText(chat, TextMessage(req).value)])
                && (registration == Returned(true) && send.Threw? ==> resp == InternalError && table == old(table))
                && (registration == Returned(true) && send.Returned? ==>
                      resp == Accepted(send.value)
                      && table == RecordSent(old(table), send.value, SentEntry(number, "chat", now)))
    {
      resp, calls := Unauthorized, [];
      if !CheckMkAuth(credentials, req, decode) {
        return;
      }
      if status != Ready {
        return NotReady(status), [];
      }
      var number := TextNumber(req);
      var message := TextMessage(req);
      if !Truthy(number) || !Truthy(message) {
        return BadRequest(NumberAndMessageRequired), [];
      }
      var chat := ChatId(number.value);
      calls := [IsRegisteredUser(chat)];
      if registration.Threw? {
        return InternalError, calls;
      }
      if !registration.value {
        return NotOnWhatsApp(number.value), calls;
      }
      calls := calls + [SendText(chat, message.value)];
      if send.Threw? {
        return InternalError, calls;
      }
      table := RecordSent(table, send.value, SentEntry(number.value, "chat", now));
      resp := Accepted(send.value);
    }

    /** POST /send-image and POST /send-document behind checkMkAuth (which runs before
        multer), in their order of checks: 401, 409, 400 'number_required' (no client
        call), the registration check (500 / 422), then the media source (400
        'file_or_url_required', or a fetch that throws: 500), then the send (500 if it
        throws); on success the returned id is answered and, when non-empty, stored with
        ack 0 and the kind's tag. */
    method SendMediaMessage(k: MediaKind, req: Request, decode: string -> string, registration: Call<bool>,
                            fetch: Call<seq<bv8>>, send: Call<Option<string>>, now: Timestamp)
      returns (resp: Response, calls: seq<ClientCall>)
      requires Valid()
      modifies this`table
      ensures Valid()
      ensures !CheckMkAuth(credentials, req, decode) ==>
                resp == Unauthorized && calls == [] && table == old(table)
      ensures CheckMkAuth(credentials, req, decode) && status != Ready ==>
                resp == NotReady(status) && calls == [] && table == old(table)
      ensures Admitted(req, decode) && !Truthy(MediaNumber(req)) ==>
                resp == BadRequest(NumberRequired) && calls == [] && table == old(table)
      ensures Admitted(req, decode) && Truthy(MediaNumber(req)) ==>
                var chat := ChatId(MediaNumber(req).value);
                && (registration.Threw? ==> resp == InternalError && calls == [IsRegisteredUser(chat)] && table == old(table))
                && (registration == Returned(false) ==>
                      resp == NotOnWhatsApp(MediaNumber(req).value) && calls == [IsRegisteredUser(chat)] && table == old(table))
      ensures Admitted(req, decode) && Truthy(MediaNumber(req)) && registration == Returned(true) ==>
                var number := MediaNumber(req).value;
                var chat := ChatId(number);
                var body := BodyAfterMulter(req);
                var source := SourceOf(k, body, FilesOf(req));
                var fetched := if source.FromUrl? then [FetchUrl(source.url)] else [];
                var resolution := ResolveMedia(k, body, FilesOf(req), fetch);
                && (resolution == SourceRequired ==>
                      resp == BadRequest(FileOrUrlRequired) && calls == [IsRegisteredUser(chat)] && table == old(table))
                && (resolution == FetchFailed ==>
                      resp == InternalError && calls == [IsRegisteredUser(chat)] + fetched && table == old(table))
                && (resolution.Resolved? ==>
                      calls == [IsRegisteredUser(chat)] + fetched
                               + [SendMedia(chat, resolution.media, FieldOr(body, CaptionAliases, ""))])
                && (resolution.Resolved? && send.Threw? ==> resp == InternalError && table == old(table))
                && (resolution.Resolved? && send.Returned? ==>
                      resp == Accepted(send.value)
                      && table == RecordSent(old(table), send.value, SentEntry(number, KindTag(k), now)))
    {
      resp, calls := Unauthorized, [];
      if !CheckMkAuth(credentials, req, decode) {
        return;
      }
      if status != Ready {
        return NotReady(status), [];
      }
      var body := BodyAfterMulter(req);
      var number := MediaNumber(req);
      if !Truthy(number) {
        return BadRequest(NumberRequired), [];
      }
      var chat := ChatId(number.value);
      calls := [IsRegisteredUser(chat)];
      if registration.Threw? {
        return InternalError, calls;
      }
      if !registration.value {
        return NotOnWhatsApp(number.value), calls;
      }
      var source := SourceOf(k, body, FilesOf(req));
      if source.FromUrl? {
        calls := calls + [FetchUrl(source.url)];
      }
      var resolution := ResolveMedia(k, body, FilesOf(req), fetch);
      if resolution.SourceRequired? {
        return BadRequest(FileOrUrlRequired), calls;
      }
      if resolution.FetchFailed? {
        return InternalError, calls;
      }
      calls := calls + [SendMedia(chat, resolution.media, FieldOr(body, CaptionAliases, ""))];
      if send.Threw? {
        return InternalError, calls;
      }
      table := RecordSent(table, send.value, SentEntry(number.value, KindTag(k), now));
      resp := Accepted(send.value);
    }
  }

  /** Without Basic credentials configured, a disconnected session answers every send with
      409 carrying its status and makes no client call. */
  method DisconnectedRejectsSends(env: map<string, string>, req: Request, decode: string -> string,
                                  registration: Call<bool>, send: Call<Option<string>>, now: Timestamp)
    returns (resp: Response, calls: seq<ClientCall>)
    requires AuthDisabled(ConfiguredCredentials(env))
    ensures resp == NotReady(Disconnected) && calls == []
  {
    var g := new Gateway(env);
    g.OnSessionEvent(QrIssued("pairing"));
    g.OnSessionEvent(ClientReady);
    g.OnSessionEvent(ClientDisconnected("NAVIGATION"));
    assert g.status == Disconnected;
    assert CheckMkAuth(g.credentials, req, decode);
    resp, calls := g.SendMessage(req, decode, registration, send, now);
  }

  /** The end-to-end scenario: a text send to "11987654321" while ready and registered is
      answered with the client's id, /message-status then shows ack 0, and after an ack
      event with level 1 for that id it shows ack 1 with createdAt kept. */
  method SendThenAckScenario(env: map<string, string>, decode: string -> string, id: string, now: Timestamp, later: Timestamp)
    returns (first: Response, second: Response)
    requires AuthDisabled(ConfiguredCredentials(env))
    requires id != ""
    ensures first.MessageFound? && first.entry.ack == 0 && first.entry.to == Some("11987654321")
    ensures second.MessageFound? && second.entry.ack == 1 && second.entry.createdAt == now
  {
    var g := new Gateway(env);
    g.OnSessionEvent(ClientReady);
    first := SendHelloAndQuery(g, decode, id, now);
    g.OnMessageAck(AckEvent(id, "551187654321@c.us", 1, "chat"), later);
    assert id in g.table && g.table[id].ack == 1 && g.table[id].createdAt == now;
    second := g.MessageStatus(map["id" := Str(id)]);
    assert StringAt(map["id" := Str(id)], "id") == Some(id);
  }

  /** The first half of the scenario: the send, then the status query. */
  method SendHelloAndQuery(g: Gateway, decode: string -> string, id: string, now: Timestamp) returns (first: Response)
    requires g.Valid() && g.status == Ready && AuthDisabled(g.credentials)
    requires id != ""
    modifies g`table
    ensures id in g.table && g.table[id] == SentEntry("11987654321", "chat", now)
    ensures first == MessageFound(id, SentEntry("11987654321", "chat", now))
  {
    var body := map["to" := Str("11987654321"), "msg" := Str("hello")];
    var req := Request(map[], map[], Parsed(body));
    assert g.Admitted(req, decode);
    assert TextNumber(req) == Some("11987654321");
    assert TextMessage(req) == Some("hello");
    var resp, calls := g.SendMessage(req, decode, Returned(true), Returned(Some(id)), now);
    assert resp == Accepted(Some(id));
    first := g.MessageStatus(map["id" := Str(id)]);
    assert StringAt(map["id" := Str(id)], "id") == Some(id);
  }
}
