# fcm_school notification relay — a Dafny model of `send_notification`

The service has one endpoint, `POST /send-notification`. A school app posts a device's
Firebase Cloud Messaging token, a student's name and an entry type (`"In"` or `"Out"`). The
handler checks the three fields and builds a push notification announcing that the student
arrived at school or left it. It hands the notification to Firebase once and answers with the
message id (200) or the error text (500). Bad input gets a 400 with a fixed error text and is
never sent.

This project models that handler as total functions, in module `SendNotification`
(`send_notification.dfy`), and proves what it promises:

- `Request` holds the three fields as `Option<string>`. `None` is an absent or null key.
  Python truthiness of a field is `Truthy`: present and not the empty string.
- `Validate` runs the checks in the handler's order. First all three fields must be truthy.
  Then `entryType` must be exactly `"In"` or `"Out"`.
- `Compose` builds the `Message` (title, body, destination token).
- `Respond` maps the gateway's `SendOutcome` to a `Response`. A response is the status code
  plus the one-key JSON object that `jsonify` returns.
- `Handle` is the whole handler. It takes the gateway as a function `send: Message -> SendOutcome`
  and returns the response together with the message handed to the gateway (`None` when
  nothing was sent). Since there is a single `Option<Message>`, at most one send can happen.
  "The gateway was not called" is stated as "the response does not depend on `send`".

`entryType` is compared exactly against `"In"` and `"Out"` (main.py:34, 37), so `"in"` or
`"OUT"` is rejected. Every exception from the send becomes a 500 with `str(e)` as its error
text (main.py:55-56). There is no typed gateway error and no 429.

## Model

| member | source | states |
|---|---|---|
| SendNotification.ParseEntry | main.py:34-41 | only the exact spellings "In" and "Out" are accepted entry types, and an accepted value spells back to the input string |
| SendNotification.Validate | main.py:26-41 | the missing-fields error comes exactly when some field is absent or empty; the entry-type error comes exactly when all fields are present and the entry type is neither "In" nor "Out"; an accepted request has a non-empty token and name and is reconstructed from the accepted values |
| SendNotification.Compose | main.py:33-50 | the message goes to the given token unchanged, and its title is "Attendance Alert" for a check-in and "Departure Alert" for a check-out; the body is the student's name followed by " has checked in at school." or " has checked out from school." |
| SendNotification.Respond | main.py:52-56 | status 200 exactly when the gateway returned an id, with body {"messageId": id}; a failure gives 500 with body {"error": text} |
| SendNotification.Handle | main.py:23-56 | a message is sent exactly when validation accepts; a rejection is a 400 with the validation error; after a send the response is the mapping of what the gateway returned for that very message; the message's token is the request's fcmToken; status is 400 exactly when nothing was sent; the message sent is the one composed from the validated token, name and entry type |
| SendNotification.MissingFieldRejected | main.py:30-31 | any absent or empty field gives 400 {"error": "Missing required fields"} and no send |
| SendNotification.MissingFieldCheckedFirst | main.py:30-41 | a request without a token and with entry type "sideways" is reported as missing fields, not as a bad entry type |
| SendNotification.CheckInMessage | main.py:34-50 | entry type "In" sends the title "Attendance Alert" and the body "<name> has checked in at school." to the request's token |
| SendNotification.CheckOutMessage | main.py:37-50 | entry type "Out" sends the title "Departure Alert" and the body "<name> has checked out from school." to the request's token |
| SendNotification.UnknownEntryRejected | main.py:34-41 | every other non-empty entry type gives 400 {"error": "Invalid entryType. Use \"In\" or \"Out\"."} and no send |
| SendNotification.EntryMatchIsCaseSensitive | main.py:34-41 | "in", "OUT" and "sideways" are all rejected with the entry-type error |
| SendNotification.RejectionIgnoresGateway | main.py:30-53 | a rejected request gets the same response whatever the gateway would have answered, so the gateway is not consulted |
| SendNotification.SendOutcomeMapped | main.py:52-56 | after a send, a returned id gives 200 {"messageId": id} and a failure gives 500 {"error": text}, never a 4xx |
| SendNotification.ComposeInjective | main.py:33-50 | the message determines the token, the student's name and the entry type it was built from |
| SendNotification.SentMessageDeterminesRequest | main.py:26-50 | two requests that hand the gateway the same message are the same request |

## Left out

- Startup (main.py:10-20): reading `FIREBASE_CREDENTIALS_JSON` from the environment, parsing it, and initialising the Firebase Admin SDK. This is environment and foreign-library I/O, not request logic.
- The Flask application, its route decorator and `app.run` (main.py:7, 22, 58-59). These are web-framework plumbing.
- `request.get_json()` (main.py:24). The model takes the three fields already extracted. A request body that is absent, not JSON, or not a JSON object is not modelled.
- Python truthiness of non-string JSON values (numbers, lists, booleans). Fields are modelled as optional strings only.
- The internals of `messaging.Message`, `messaging.Notification` and `messaging.send`. These are the Firebase SDK and a network call. The send is the parameter `send`, and `str(e)` of the raised exception is the text carried by `Failed`.
- Serialising the response body to JSON text. The body is the one-key mapping handed to `jsonify`.
