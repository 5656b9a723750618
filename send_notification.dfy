/**
 The request-decision logic of the `POST /send-notification` endpoint: validate the
 three request fields, build the push notification for a check-in or a check-out,
 hand it to the push gateway once, and turn the gateway's outcome into an HTTP status
 with a one-key JSON body.

 The Flask request object and the Firebase `messaging.send` call are abstracted away:
 the fields arrive already extracted, and the gateway is a function from the message
 it is given to the outcome it reports.
 */
module SendNotification {
  import opened Wrappers

  /** The three fields the handler reads with `data.get`; `None` when the key is absent or null. */
  datatype Request = Request(fcmToken: Option<string>, studentName: Option<string>, entryType: Option<string>)

  /** The two accepted values of `entryType`. */
  datatype Entry = In | Out

  /** The notification handed to the gateway: its title, its body and the destination device token. */
  datatype Message = Message(title: string, body: string, token: string)

  /** What the gateway reports: the id of the sent message, or the text of the exception it raised. */
  datatype SendOutcome = Sent(messageId: string) | Failed(reason: string)

  /** An HTTP response: the status code and the JSON object returned as its body. */
  datatype Response = Response(status: int, body: map<string, string>)

  /** The response, together with the message handed to the gateway (`None` when there was no send). */
  datatype Handled = Handled(response: Response, sent: Option<Message>)

  /** The outcome of the input checks: an error text, or the fields the message is built from. */
  datatype Validated = Rejected(error: string) | Accepted(token: string, name: string, entry: Entry)

  const MissingFields := "Missing required fields"
  const InvalidEntryType := "Invalid entryType. Use \"In\" or \"Out\"."

  const BadRequest := 400
  const Ok := 200
  const ServerError := 500

  /** Python truthiness of a string field: present and not the empty string. */
  predicate Truthy(field: Option<string>)
  {
    field.Some? && field.value != ""
  }

  /** The exact-case spelling of an entry type in a request. */
  function EntryName(e: Entry): string
  {
    match e
    case In => "In"
    case Out => "Out"
  }

  /** Reads `entryType` with an exact, case-sensitive comparison. */
  function ParseEntry(s: string): (r: Option<Entry>)
    ensures r.Some? ==> EntryName(r.value) == s
    ensures r.None? <==> (forall e: Entry :: EntryName(e) != s)
  {
    if s == "In" then Some(In)
    else if s == "Out" then Some(Out)
    else None
  }

  /** A JSON body `{"error": text}`. */
  function ErrorBody(text: string): map<string, string>
  {
    map["error" := text]
  }

  /** The input checks in the handler's order: first all three fields truthy, then the entry type. */
  function Validate(req: Request): (v: Validated)
    ensures (v == Rejected(MissingFields))
            <==> !(Truthy(req.fcmToken) && Truthy(req.studentName) && Truthy(req.entryType))
    ensures (v == Rejected(InvalidEntryType))
            <==> (Truthy(req.fcmToken) && Truthy(req.studentName) && Truthy(req.entryType)
                  && ParseEntry(req.entryType.value).None?)
    ensures v.Rejected? ==> v.error == MissingFields || v.error == InvalidEntryType
    ensures v.Accepted? ==> req == Request(Some(v.token), Some(v.name), Some(EntryName(v.entry)))
                            && v.token != "" && v.name != ""
  {
    if !Truthy(req.fcmToken) || !Truthy(req.studentName) || !Truthy(req.entryType) then
      Rejected(MissingFields)
    else
      match ParseEntry(req.entryType.value)
      case None => Rejected(InvalidEntryType)
      case Some(e) => Accepted(req.fcmToken.value, req.studentName.value, e)
  }

  /** The notification title and body for a student's entry, addressed to `token`. */
  function Compose(token: string, name: string, entry: Entry): (m: Message)
    ensures m.token == token
    ensures m.title == (if entry == In then "Attendance Alert" else "Departure Alert")
    ensures entry == In ==> m.body == name + " has checked in at school."
    ensures entry == Out ==> m.body == name + " has checked out from school."
  {
    match entry
    case In => Message("Attendance Alert", name + " has checked in at school.", token)
    case Out => Message("Departure Alert", name + " has checked out from school.", token)
  }

  /** Maps the gateway's outcome to the response: 200 with the message id, or 500 with the error text. */
  function Respond(outcome: SendOutcome): (r: Response)
    ensures r.status == Ok <==> outcome.Sent?
    ensures outcome.Sent? ==> r.body == map["messageId" := outcome.messageId]
    ensures outcome.Failed? ==> r == Response(ServerError, ErrorBody(outcome.reason))
  {
    match outcome
    case Sent(id) => Response(Ok, map["messageId" := id])
    case Failed(reason) => Response(ServerError, ErrorBody(reason))
  }

  /** The whole handler: a rejected request gets a 400 and no send; an accepted one is sent exactly once. */
  function Handle(req: Request, send: Message -> SendOutcome): (h: Handled)
    ensures h.sent.Some? <==> Validate(req).Accepted?
    ensures h.sent.None? ==> h.response == Response(BadRequest, ErrorBody(Validate(req).error))
    ensures h.sent.Some? ==> h.response == Respond(send(h.sent.value))
    ensures h.sent.Some? ==> Some(h.sent.value.token) == req.fcmToken
    ensures h.sent.Some? ==> h.sent.value == Compose(Validate(req).token, Validate(req).name, Validate(req).entry)
    ensures h.response.status == BadRequest <==> h.sent.None?
  {
    match Validate(req)
    case Rejected(error) => Handled(Response(BadRequest, ErrorBody(error)), None)
    case Accepted(token, name, entry) =>
      var m := Compose(token, name, entry);
      Handled(Respond(send(m)), Some(m))
  }

  /** Any missing or empty field gives the missing-fields 400, whatever `entryType` says, and no send. */
  lemma MissingFieldRejected(req: Request, send: Message -> SendOutcome)
    requires !Truthy(req.fcmToken) || !Truthy(req.studentName) || !Truthy(req.entryType)
    ensures Handle(req, send) == Handled(Response(BadRequest, ErrorBody(MissingFields)), None)
  {
  }

  /** The missing-field check comes first: a request without a token and with a bad entry type
      is reported as missing fields, not as a bad entry type. */
  lemma MissingFieldCheckedFirst(name: Option<string>, send: Message -> SendOutcome)
    ensures Handle(Request(None, name, Some("sideways")), send).response.body == ErrorBody(MissingFields)
  {
  }

  /** Exactly "In": an attendance alert saying the student checked in, sent to the request's token. */
  lemma CheckInMessage(token: string, name: string, send: Message -> SendOutcome)
    requires token != "" && name != ""
    ensures Handle(Request(Some(token), Some(name), Some("In")), send).sent
            == Some(Message("Attendance Alert", name + " has checked in at school.", token))
  {
  }

  /** Exactly "Out": a departure alert saying the student checked out, sent to the request's token. */
  lemma CheckOutMessage(token: string, name: string, send: Message -> SendOutcome)
    requires token != "" && name != ""
    ensures Handle(Request(Some(token), Some(name), Some("Out")), send).sent
            == Some(Message("Departure Alert", name + " has checked out from school.", token))
  {
  }

  /** Any other non-empty entry type is a 400 with the entry-type error and no send. */
  lemma UnknownEntryRejected(token: string, name: string, entry: string, send: Message -> SendOutcome)
    requires token != "" && name != "" && entry != ""
    requires entry != "In" && entry != "Out"
    ensures Handle(Request(Some(token), Some(name), Some(entry)), send)
            == Handled(Response(BadRequest, ErrorBody(InvalidEntryType)), None)
  {
  }

  /** The comparison is case-sensitive: "in", "OUT" and "sideways" are all rejected. */
  lemma EntryMatchIsCaseSensitive(token: string, name: string, send: Message -> SendOutcome)
    requires token != "" && name != ""
    ensures forall entry :: entry in ["in", "OUT", "sideways"] ==>
              Handle(Request(Some(token), Some(name), Some(entry)), send).response.body
              == ErrorBody(InvalidEntryType)
  {
    forall entry | entry in ["in", "OUT", "sideways"]
      ensures Handle(Request(Some(token), Some(name), Some(entry)), send).response.body
              == ErrorBody(InvalidEntryType)
    {
      UnknownEntryRejected(token, name, entry, send);
    }
  }

  /** A rejected request never reaches the gateway: its response is the same whatever the gateway would do. */
  lemma RejectionIgnoresGateway(req: Request, send1: Message -> SendOutcome, send2: Message -> SendOutcome)
    requires Validate(req).Rejected?
    ensures Handle(req, send1) == Handle(req, send2)
  {
  }

  /** After a send, a returned id gives 200 `{"messageId": id}` and a failure gives 500 `{"error": reason}`;
      a gateway failure is never reported as a client error. */
  lemma SendOutcomeMapped(req: Request, send: Message -> SendOutcome)
    requires Validate(req).Accepted?
    ensures var h := Handle(req, send);
            h.sent.Some? &&
            match send(h.sent.value)
            case Sent(id) => h.response == Response(Ok, map["messageId" := id])
            case Failed(reason) => h.response == Response(ServerError, ErrorBody(reason))
  {
  }

  /** Different requests that pass validation hand the gateway different messages: the message
      determines the token, the student's name and the entry type. */
  lemma {:induction false} ComposeInjective(t1: string, n1: string, e1: Entry, t2: string, n2: string, e2: Entry)
    requires Compose(t1, n1, e1) == Compose(t2, n2, e2)
    ensures t1 == t2 && n1 == n2 && e1 == e2
  {
    var m := Compose(t1, n1, e1);
    assert e1 == e2;
    var suffix := if e1 == In then " has checked in at school." else " has checked out from school.";
    assert |m.body| == |n1| + |suffix| == |n2| + |suffix|;
    assert n1 == m.body[..|n1|] == n2;
  }

  /** Two accepted requests that produce the same message were the same request. */
  lemma SentMessageDeterminesRequest(r1: Request, r2: Request, send1: Message -> SendOutcome, send2: Message -> SendOutcome)
    requires Handle(r1, send1).sent.Some?
    requires Handle(r1, send1).sent == Handle(r2, send2).sent
    ensures r1 == r2
  {
    var v1, v2 := Validate(r1), Validate(r2);
    ComposeInjective(v1.token, v1.name, v1.entry, v2.token, v2.name, v2.entry);
  }
}
