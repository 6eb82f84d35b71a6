# homework_bot — a Dafny model of the polling decision logic

The bot polls a homework-review API and relays status changes to one
Telegram chat. This project models, as pure functions over explicit state,
the part of `homework.py` that decides what to relay:

- `check_tokens`: the start-up credential check (module `Tokens`).
- `check_response`: the shape check of an API answer (module `Response`).
- `parse_status`, with the `homework_statuses` store, `ALLOWED_STATUSES` and
  `HOMEWORK_VERDICTS` (module `Statuses`).
- `process_exception`, with the `errors_sent_to_telegram` set (module `Alerts`).
- `get_api_answer` on a given reply, one iteration of `main`'s loop, and the
  loop as a fold over a sequence of replies (module `Poll`).

The global dict and set become fields of an immutable `Bot` value.
`Bot` holds the status store and a `Channel`. The `Channel` holds the set of
alert texts already sent and an outbox: every message handed to the chat, in
order. Decoded JSON is the `Json` datatype. Python exceptions are the `Fault`
datatype: a `TypeError`, or any other exception, which the loop only ever
uses through its text.

The store is keyed the way a Python dict keys the `homework_name` value. A
name may be any JSON scalar, not only a string. `True`/`False` share the keys
of `1`/`0`. A list or dict name is unhashable. That raises `TypeError` at the
lookup on line 90. The lookup comes after the status check, and the loop
reports that `TypeError` with the fixed "malformed response" alert.

Notices and alerts are built from the source's literal strings. The model
proves that a notice can be decoded back into its homework name and status.
It also proves that a notice never ends in the retry sentence that marks an
alert. Together these give the run-level property: every alert text reaches
the chat at most once, while status notices are not deduplicated.

Quirks of the code that the model keeps as written:
- The store is written only on the first sighting of a name, never on a change.
  So a homework that changed state is announced again on every later poll
  (`Poll.ApprovedAnnouncedAgain`, `Statuses.ChangedStatusAnnouncedEveryTime`).
- The `from_date` cursor is fixed at start-up and never advanced.
- A record's name counts as missing both when the key is absent and when its
  value is `null`.
- A record with an unhashable name is not routed like other bad records. It
  gets the malformed-response alert, not the generic failure alert.

## Model

| member | source | states |
|---|---|---|
| Tokens.CheckTokens | homework.py:35-45 | succeeds iff all three credentials are non-empty; otherwise names the first missing one in the order PRACTICUM_TOKEN, TELEGRAM_TOKEN, TELEGRAM_CHAT_ID |
| Tokens.FirstMissing | homework.py:40-44 | the scan over the credential table stops at the first falsy value; all-present iff every value is truthy; a reported name is the first one whose value is falsy |
| Response.CheckResponse | homework.py:72-79 | accepts iff the answer is a dict whose `homeworks` entry is a list (returning that list); every other shape is a `TypeError` |
| Statuses.StatusOf | homework.py:87-89 | a status is accepted iff it is a JSON string spelling one of approved/reviewing/rejected, and the accepted value is the state it spells |
| Statuses.KeyOf | homework.py:90 | a name can be looked up in the store iff it is a scalar; lists and dicts raise `TypeError` |
| Statuses.KeysFollowPythonEquality | homework.py:90-95 | two hashable names share a store entry iff Python's `==` holds between them: strings by text, booleans and integers by numeric value (`True` is `1`), and a string never equals a number |
| Statuses.ParseStatus | homework.py:82-97 | a non-dict record, a missing/null name and an unknown status each raise their own exception; an unhashable name raises `TypeError`; otherwise: no message iff the stored status equals the current one; a first sighting adds exactly name ↦ status; a known name leaves the store unchanged; a stored entry is never overwritten; a non-empty message decodes to the record's name and status |
| Json.Show | homework.py:89-97 | Python's `str()` of a decoded value as the f-strings use it: a string shows as itself, an integer as its canonical decimal text (`Text.IntText`), `null` as `None`, booleans as `True`/`False` |
| Text.IntText | homework.py:66-67 | Python's `str()` of an integer: a leading minus sign exactly for negative numbers, then digits that read back as the magnitude, with no leading zero except for `0` itself |
| Statuses.Notice | homework.py:97 | the status-change message starts with the fixed head, ends with the quote-dot separator and the state's verdict, and holds exactly the homework name between them |
| Statuses.NoticeRoundTrip | homework.py:96-97 | a notice decodes back to the name and status it was built from, so distinct (name, status) pairs give distinct notices |
| Statuses.ChangedStatusAnnouncedEveryTime | homework.py:90-97 | a name stored with a different status is announced with a non-empty message, the store is unchanged, and the next identical call gives the same announcement |
| Statuses.FirstSightingThenSilent | homework.py:90-95 | after a first sighting is announced, the same record again yields no message and no change |
| Alerts.Alert | homework.py:102 | the alert text is exactly the failure message followed by the retry sentence (prefix, suffix and length), so distinct messages give distinct alerts and every alert is recognisable as one |
| Alerts.ProcessException | homework.py:100-107 | the suffixed text ends up in the sent set; the set only grows, by at most that text; the outbox gains the text iff it was not already in the set, and nothing changes otherwise |
| Alerts.RepeatSendsOnce | homework.py:102-106 | any positive number of consecutive calls with the same text has the effect of one call, so the text is sent at most once |
| Alerts.ProcessExceptionKeepsAlertsOnce | homework.py:102-106 | the invariant "every alert in the outbox is in the sent set, every sent alert is in the outbox, and no alert appears twice" is preserved |
| Poll.GetApiAnswer | homework.py:57-69 | the body is returned iff the reply decoded with code 200; a transport error raises with empty text; another code raises with the code in the text |
| Poll.Step | homework.py:121-123 | one record sends at most one message, which is a notice; on an exception it sends nothing and keeps the store; the store only gains entries |
| Poll.DispatchAll | homework.py:119-123 | the records are handled in order: at most one message per record, each message a decodable notice, and the store only gains entries |
| Poll.DispatchSplit | homework.py:120-123 | handling a concatenation of record lists is handling the first list and, unless it raised, continuing with the second from the store it left |
| Poll.DispatchStopsAt | homework.py:120-132 | when record i is the first to raise, the cycle stops with that exception and keeps the messages and store entries made for the records before it |
| Poll.Dispatch | homework.py:120-123 | the index loop over the records computes exactly what DispatchAll describes |
| Poll.ErrorMessage | homework.py:127-132 | a `TypeError` and only a `TypeError` is reported with the fixed malformed-response text; any other exception is reported as the failure head, then its own text, then a space |
| Poll.Report | homework.py:127-132 | reporting a failure leaves the store alone, adds exactly its alert to the sent set, appends that alert to the outbox when it was not sent before, and changes nothing when it was |
| Poll.Cycle | homework.py:116-132 | a fetch failure or a malformed answer leaves the store unchanged and only goes through ProcessException (the malformed one with the fixed text); a valid answer stores the dispatch's store, appends its notices in order, then reports the exception that stopped it, if any; the store, the sent set and the outbox only grow |
| Poll.NoticeIsNotAlert | homework.py:97-102 | a status notice never carries the retry sentence, so it is never mistaken for an alert |
| Poll.CycleKeepsAlertsOnce | homework.py:116-132 | one loop iteration preserves the alert invariant |
| Poll.LoopInvariant | homework.py:115-132 | over any number of iterations the store only gains entries, the sent set and outbox only grow, and the alert invariant holds |
| Poll.Loop | homework.py:115-132 | iterating the loop over any replies only adds store entries without overwriting, and only grows the sent set and the end of the outbox |
| Poll.Main | homework.py:110-115 | the run halts, naming the missing credential, iff the credential check fails; then nothing is fetched or sent |
| Poll.MainAlertsOnce | homework.py:100-132 | in a whole run no alert text appears in the chat twice |
| Poll.CycleOnOne | homework.py:116-123 | a cycle on a valid answer listing one readable record applies that record's `parse_status` result and sends its message only when it is non-empty |
| Poll.FirstPollAnnouncesReview | homework.py:116-123 | a first poll listing hw1 as reviewing stores hw1 ↦ reviewing and sends its notice |
| Poll.ReviewThenApproved | homework.py:110-132 | polls returning hw1 reviewing and then hw1 approved send exactly two notices, for reviewing and then for approved |
| Poll.ApprovedAnnouncedAgain | homework.py:90-97 | with hw1 stored as reviewing, whatever else the store holds, every poll listing hw1 approved sends the approved notice again and changes nothing else |
| Poll.NotAList | homework.py:116-129 | an answer whose `homeworks` is a string sends the malformed-response alert once and leaves the store empty |

## Left out

- The HTTP request in `get_api_answer` (homework.py:57-69): its outcome is the `Reply` input. The headers, endpoint and `from_date` parameter are not modelled.
- Telegram delivery (homework.py:48-54): sending appends to the outbox. A failed delivery is logged and swallowed by the source, so the outbox records attempts.
- `time.sleep`, `time.time` and the endless `while True`: the loop is a fold over a finite sequence of replies. The cursor is set once and never changes, so it is left out of the state.
- Logging at every level, `load_dotenv` and `fileConfig` (homework.py:11-14): configuration and output plumbing. This includes the critical message of `check_tokens` (homework.py:42-43), of which the model keeps only the missing credential's name.
- Creating the `telegram.Bot` object (homework.py:113): an external client.
- JSON floats: JSON numbers are modelled as integers. Python's `1.0 == 1` key collision is therefore not modelled.
- Json.Show: lists and dicts are rendered by a placeholder rather than Python's `repr`. Such values reach a message only as an unknown status. Two different container statuses therefore give the same error text in the model.
- Poll.GetApiAnswer: the text of a JSON decoding error is an input (`Undecodable.detail`), not derived.
