# ProofOK proof-approval core, modelled in Dafny

ProofOK is a small proof-approval service. A producer uploads a PDF and gets a
shareable link. A viewer opens the link and approves or rejects the proof,
optionally with a comment. The decision is stored and an e-mail notification
goes back to the producer. This project models the logic inside the request
handlers of `server/server.py` and proves properties of it:

- **Upload acceptance** (`Upload` module): the case-insensitive `.pdf` test on
  the uploaded file name, the `original_name` default, the 12-digit token taken
  from a random UUID, and the link `BASE_URL + "/proof/" + token`.
- **Records** (`Records` module): the proof record and its decision events,
  the separator-replacing `safe_name`, the new record written at upload time,
  and the record change on each decision (status overwritten, event appended).
  The record invariant `WellFormed` says the status is `pending` exactly while
  there are no events, and otherwise equals the latest event's decision.
- **Decision submission** (`Decisions` module): the decision is lower-cased and
  the other fields are stripped. The decision must be `approved` or `rejected`.
  The HTML form path alone also refuses a rejection with an empty comment.
- **Notification** (`Notifier` module): the delivery mode (`off`, `sync`,
  anything else async) and the advisory warning chosen from the send outcome.
- **Store** (`Store` module): a class holding the map from token to record,
  which stands for the one-JSON-file-per-token directory. Its methods are the
  upload, decision and proof-page handlers. The class invariant `Valid` holds
  after the constructor and every method: each record is filed under its own
  token, every token is 12 lower-case hex digits, and every record is
  `WellFormed`.
- **String operations** (`Text` module): Python's `lower`, `strip`, `endswith`
  and one-character `replace`, plus decimal rendering of numbers.

Inputs that the server gets from the outside world are parameters:
- the random UUID hex (`uuid4().hex`);
- the UTC timestamps;
- the request fields, with `None` for an absent field;
- the `X-Forwarded-For` header and the peer address;
- whether writing the PDF succeeded;
- the outcome of the e-mail send and whether it finished within the wait;
- the configuration (`BASE_URL`, relay host, port and timeout, `EMAIL_MODE`).

The model follows the code in three behaviours that a reader might expect otherwise:
- The recorded `ip` is the whole `X-Forwarded-For` header value
  (`server/server.py:126`, `Decisions.ClientIp`), not its first entry.
- `safe_name` only replaces `/` and `\`. A name such as `..` is kept as it
  is; `..` segments are not rejected (`server/server.py:91`).
- The comment-required rule is applied on the form path only. The model keeps
  this as a path parameter and proves the two paths differ on exactly that case.

One behaviour is modelled twice, as written and as intended; see "## Findings".
On Python 3.11 and later the async branch reports a send that raised
`TimeoutError` as still sending. The handlers in the store use the intended
`Notifier.Notify`.

## Model

| member | source | states |
|---|---|---|
| `Text.Lower` | server/server.py:120 | `lower()` keeps the length and maps every character by the ASCII case mapping |
| `Text.LowerSuffix` | server/server.py:86 | lower-casing and then taking a suffix is the same as taking the suffix and then lower-casing |
| `Text.LowerKeepsLower` | server/server.py:120 | a string with no upper-case letters is unchanged by `lower()` |
| `Text.LowerIdempotent` | server/server.py:26 | lower-casing twice equals lower-casing once |
| `Text.EndsWith` | server/server.py:86 | `endswith` holds exactly when the suffix fits and matches the input's last characters position by position |
| `Text.Replace` | server/server.py:91 | one-character `replace` keeps the length; each position holds the replacement exactly where the target was, and the original character elsewhere |
| `Text.TrimStart` | server/server.py:121 | the result is a suffix of the input; everything dropped is whitespace; the result does not start with whitespace |
| `Text.TrimEnd` | server/server.py:121 | the result is a prefix of the input; everything dropped is whitespace; the result does not end with whitespace |
| `Text.Strip` | server/server.py:121-123 | `strip()` leaves no whitespace at either end and never lengthens the input |
| `Text.StripIsSlice` | server/server.py:121-123 | `strip()` returns one contiguous slice of the input, with only whitespace before and after it |
| `Text.StripTrimmed` | server/server.py:161-163 | a string with no whitespace at either end is unchanged by `strip()` |
| `Text.StripIdempotent` | server/server.py:161-163 | stripping twice equals stripping once |
| `Text.NatToString` | server/server.py:144 | the decimal rendering of a port or timeout is a non-empty string of digits: one digit below 10, no leading zero from 10 on |
| `Text.DecimalValue` | server/server.py:19 | the value of a digit string, as `int()` reads it: its last digit is the value mod 10, and a string of zeros is 0 |
| `Text.DecimalRoundTrip` | server/server.py:19 | reading back the decimal rendering of a number with `int()` gives the number |
| `Records.SafeName` | server/server.py:91 | the stored name has the length of `original_name`, contains no `/` or `\`, and matches it at every other position |
| `Records.SafeNameKeepsClean` | server/server.py:91 | a name without separators is stored under exactly that name |
| `Records.SafeNameIdempotent` | server/server.py:91 | sanitising an already sanitised name changes nothing |
| `Records.StatusNameOfWellFormed` | server/server.py:94-95 | the stored `status` string of a well-formed record is `pending` while there are no events, otherwise the latest event's decision name |
| `Records.NewRecord` | server/server.py:93-95 | the new record has the given token, name and time, status `pending`, no responses, a separator-free stored name, and satisfies the record invariant |
| `Records.WithDecision` | server/server.py:128-130 | after a decision the status is that decision (never `pending`); one event is added at the end; earlier events, `token`, `original_name`, `stored_name` and `created_utc` are unchanged |
| `Records.WithDecisionWellFormed` | server/server.py:172 | recording a decision preserves the record invariant (status is the latest event's decision) |
| `Records.LastDecisionWins` | server/server.py:130 | after any series of submissions, the events are the old ones followed by the new ones in order, the status is the last decision, and the identifying fields are unchanged |
| `Upload.IsPdfName` | server/server.py:86 | a file name passes the upload test exactly when it has at least four characters and its last four lower-case to `.pdf` |
| `Upload.IsPdfNameExamples` | server/server.py:86 | `Proof.PDF` is accepted; `proof.pdf.exe` is refused |
| `Upload.AcceptedName` | server/server.py:85-88 | an upload is accepted exactly when a file is present and its name passes the `.pdf` test; the record's name is then `original_name`, defaulting to the file name |
| `Upload.TokenOf` | server/server.py:89 | the token is the first 12 characters of the UUID hex, so it is 12 lower-case hex digits |
| `Upload.ShareUrl` | server/server.py:97 | the link starts with `BASE_URL + "/proof/"` and ends with the token |
| `Upload.ShareUrlRoundTrip` | server/server.py:97 | reading the token back out of the link gives the token |
| `Upload.ShareUrlInjective` | server/server.py:131 | different tokens give different links |
| `Decisions.OrEmpty` | server/server.py:120-123 | `(v or "")`: an absent field reads as the empty string, a present one as itself |
| `Decisions.Normalise` | server/server.py:120-123 | the decision is lower-cased with its length kept; comment, viewer name and e-mail are stripped; absent fields read as empty |
| `Decisions.NormaliseIdempotent` | server/server.py:160-163 | normalising already normalised fields changes nothing |
| `Decisions.ParseDecision` | server/server.py:124 | a recognised word is exactly the name of the decision it yields |
| `Decisions.ParseDecisionName` | server/server.py:164 | each decision's stored name is recognised as that decision |
| `Decisions.Validate` | server/server.py:164-167 | an accepted decision is the one the word names; on the form path an accepted rejection has a non-empty comment; "comment required" comes only on the form path for the word `rejected` (both directions are in `ValidateAccepts`, `ValidateRefusesWord` and `ValidateCommentRule`) |
| `Decisions.ValidateAccepts` | server/server.py:164-167 | a submission is accepted with decision d exactly when its word is d's name, except a rejection with an empty comment on the form path |
| `Decisions.ValidateRefusesWord` | server/server.py:124-125 | on both paths, "invalid decision" is the answer exactly when the word is neither `approved` nor `rejected` |
| `Decisions.ValidateCommentRule` | server/server.py:166-167 | "comment required" is the answer exactly on the form path, for a rejection with an empty stripped comment |
| `Decisions.DecisionWordNormalisation` | server/server.py:120 | `Approved` is accepted as an approval; ` approved` with a leading space is refused, because the decision is lower-cased but not stripped |
| `Decisions.PathsDisagreeOnBareRejection` | server/server.py:166-167 | a rejection with an empty comment is accepted on the API path and refused on the form path |
| `Decisions.FormStricterThanApi` | server/server.py:164-167 | whatever the form path accepts, the API path accepts with the same decision |
| `Decisions.ClientIp` | server/server.py:126 | the recorded address is the whole `X-Forwarded-For` header when present, otherwise the peer address |
| `Decisions.MakeEvent` | server/server.py:128-129 | the event carries the validated decision, the normalised comment, name and e-mail, the timestamp and the client address |
| `Notifier.ModeOf` | server/server.py:140-146 | the mode is off exactly for `off`, sync exactly for `sync`, and async for anything else |
| `Notifier.EmailMode` | server/server.py:26 | the mode is off exactly when the setting is present and lower-cases to `off`, sync exactly when it lower-cases to `sync`; an unset setting is async |
| `Notifier.EmailModeDefault` | server/server.py:26 | an unset `EMAIL_MODE` and `ASYNC` both select async delivery |
| `Notifier.EmailModeIgnoresCase` | server/server.py:26 | two settings that lower-case alike select the same mode |
| `Notifier.FailureWarning` | server/server.py:144 | the failure warning starts with `Email send failed (` and the relay host, holds the decimal port after the colon, ends with the error message, and has nothing else in it |
| `Notifier.TimeoutWarning` | server/server.py:150 | the timeout warning is `Email is sending in background (timeout ` followed directly by the decimal timeout and `s).` |
| `Notifier.TimeoutIsNotFailure` | server/server.py:150-152 | the background-sending warning differs from every send-failed warning |
| `Notifier.Notify` | server/server.py:139-154 | the intended warning choice: a send is attempted exactly when the mode is not off; any warning produced is non-empty, so `if warn:` attaches each one |
| `Notifier.OffNeverWarns` | server/server.py:182-183 | mode off: nothing is sent and there is no warning |
| `Notifier.SyncWarnsIffFailed` | server/server.py:184-186 | mode sync: a warning exactly when the send raised, and it is the send-failed warning for that error |
| `Notifier.AsyncWarnsIffFailedOrLate` | server/server.py:187-193 | async mode: a warning exactly when the wait ran out or the send raised; a timed-out wait gives the background warning, a raised send the failure warning |
| `Notifier.WarningsDistinguishOutcome` | server/server.py:188-193 | with the intended choice, in async mode any raised send and a timed-out wait produce different warnings |
| `Notifier.NotifyAsWritten` | server/server.py:146-153 | the warning choice as computed on Python 3.11 and later: a send is attempted exactly when the mode is not off, and any warning is non-empty |
| `Notifier.AsWrittenMisreportsTimedOutSend` | server/server.py:149-152 | as written, a send that raised `TimeoutError` within the wait gets the background warning, where the intended choice gives the failure warning |
| `Notifier.AsWrittenAgreesElsewhere` | server/server.py:188-193 | in every other case the code as written and the intended choice give the same notification |
| `Store.UploadStatus` | server/server.py:86-99 | an upload answers 200 exactly when it succeeded |
| `Store.RespondStatus` | server/server.py:116-159 | the API path answers 404 for an unknown token and 400 for a refused decision; the form path and every recorded decision answer 200 |
| `Store.ProofStore.constructor` | server/server.py:31-33 | the store starts empty and valid |
| `Store.ProofStore.Upload` | server/server.py:84-99 | refused (400) exactly when the file is missing or not a `.pdf`; a failed file write leaves the store alone too; on success exactly one entry is set, under the token from the UUID, to the new record, and the answer carries the token and its link; the store invariant is kept |
| `Store.ProofStore.Respond` | server/server.py:116-154 | not found exactly for an unknown token; refused decisions change nothing; an accepted decision replaces only its own record with the record plus the event; the answer is a success carrying the warning of the intended `Notify`; every other record and the set of tokens are unchanged; the store invariant is kept |
| `Store.ProofStore.View` | server/server.py:102-107 | none (404) exactly for an unknown token; otherwise the record's original name and its sanitised stored name |
| `Store.UploadThenApprove` | server/server.py:84-141 | uploading any `.pdf`-named file and then approving it on the API path with mode off gives the token and its link, a success with no warning, and a record carrying the name, approved, with one event |

## Findings

| source | as written | input that shows it | evidently intended | confidence | as-written member | corrected member |
|---|---|---|---|---|---|---|
| server/server.py:149-152 | on Python 3.11 and later `FuturesTimeout` is the built-in `TimeoutError`, so a send that raises `TimeoutError` (an SMTP socket timeout) inside the wait is caught by the timeout clause | async mode, the send raises `TimeoutError("timed out")` before the wait ends (the socket timer and the wait both use SMTP_TIMEOUT, so this needs the send's own timer, or a connect that fails with ETIMEDOUT, to fire first): the reply says "Email is sending in background", but the send has already failed | only an expired wait gives the background warning; a failed send gives "Email send failed" | medium, found by reading, not executed | `Notifier.AsWrittenMisreportsTimedOutSend` | `Notifier.WarningsDistinguishOutcome` |

## Left out

- Flask routing, request parsing, `jsonify`, templates and `render_result`: presentation glue. Request fields are inputs and replies are datatypes.
- E-mail subject and body text (lines 131-138, 173-180): presentation only; no decision depends on it.
- `send_email`, SMTP, TLS and login: a network call. Only its outcome is modelled, as `Sent` or `Raised(error, timeoutError)`, where `timeoutError` says whether the exception is a `TimeoutError`.
- The thread pool and `fut.result(timeout=...)`: concurrency. It is reduced to the `finishedInTime` input. Since Python 3.11 a `TimeoutError` raised by the send itself inside the wait (`finishedInTime` true, `timeoutError` true) is caught by the same clause as the wait timeout. `Notifier.NotifyAsWritten` models that and gives the background warning. The intended `Notifier.Notify`, which the store uses, gives the failure warning; see "## Findings".
- JSON file I/O, `os.path.exists` and `os.makedirs`: replaced by the in-memory map. A storage error on the records directory is not modelled; it propagates in the source.
- `file.save`: only its success or failure is modelled (the `fileSaved` input). The PDF bytes and the per-token upload directory are not modelled.
- `fileSaved` is not tied to the name. When `original_name` is `""`, `.` or `..`, the path at server/server.py:92 is a directory and `file.save` always fails. The model can still record such an upload if the input says the save succeeded. `View` would then return an empty or `..` stored name, for which `url_for` would fail.
- `serve_pdf` and `send_from_directory`: path safety there rests on library code that is not part of this model. For the same reason `View` returns the stored name, not the URL-quoted `url_for` link.
- `uuid4` and `datetime.utcnow`: non-deterministic, so they are inputs. The UUID hex is required to be 32 lower-case hex digits, which is what `uuid4().hex` produces.
- `/`, `/healthz`, `/routes` and logging: not part of the workflow.
- Parsing of `SMTP_PORT`/`SMTP_TIMEOUT` by `int()`: the configuration is given already parsed, with port and timeout as natural numbers. `DecimalValue` covers only digit strings, not signs or surrounding spaces.
- JSON body fields that are not strings are outside the model, which types every field as a string. In the source a falsy value (`0`, `false`, `[]`, `{}`) reads as `""` through `or ""`; a truthy non-string decision makes `.lower()` raise, and a truthy non-string comment, viewer name or e-mail makes `.strip()` raise.
- Dafny strings hold only Unicode scalar values. A JSON body with a lone surrogate (`"\ud800"`) is outside the model. In the source, `json.dump` raises on it after `open(..., "w")` has truncated the record file, so the decision is lost and the record file is left broken.
- The store starts empty. The source's `os.makedirs(..., exist_ok=True)` keeps any records already in the data folder; the model does not start from such a folder.
- Concurrent submissions for one token (last writer wins) are not modelled. Each method is one atomic step on the store.
- Text.Lower: lower-cases ASCII letters only. Python's `str.lower` also maps non-ASCII letters, and a few of them to more than one character.
