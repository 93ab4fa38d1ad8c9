/**
 * The record store and the request handlers that use it. The store holds
 * one record per token (the JSON file per token on disk); `Upload`,
 * `Respond` and `View` are the upload, decision and proof-page handlers
 * with the request data, clock, random UUID and send outcome as inputs.
 */
module Store {
  import opened Wrappers
  import opened Text
  import opened Records
  import opened Upload
  import opened Decisions
  import opened Notifier

  /** The answer to an upload request. */
  datatype UploadReply =
    | Uploaded(token: string, url: string)
    | NotPdf            // status 400, "Please upload a .pdf file"
    | SaveFailed        // the PDF could not be written; the error propagates

  /** The answer to a decision submission. */
  datatype RespondReply =
    | NotFound
    | Refused(reason: Refusal)
    | Recorded(warning: Option<string>)

  /** What the proof page shows of a record. */
  datatype ProofView = ProofView(originalName: string, storedName: string)

  /** The HTTP status of an upload reply. */
  function UploadStatus(reply: UploadReply): (code: int)
    ensures code == 200 <==> reply.Uploaded?
    ensures reply.NotPdf? ==> code == 400
    ensures reply.SaveFailed? ==> code == 500
  {
    match reply
    case Uploaded(_, _) => 200
    case NotPdf => 400
    case SaveFailed => 500
  }

  /**
   * The HTTP status of a decision reply: the API path answers 404 and 400,
   * the form path renders a result page for every outcome.
   */
  function RespondStatus(path: Path, reply: RespondReply): (code: int)
    ensures reply.Recorded? ==> code == 200
    ensures path == Form ==> code == 200
    ensures path == Api && reply.NotFound? ==> code == 404
    ensures path == Api && reply.Refused? ==> code == 400
  {
    match (path, reply)
    case (Form, _) => 200
    case (Api, NotFound) => 404
    case (Api, Refused(_)) => 400
    case (Api, Recorded(_)) => 200
  }

  class ProofStore {
    /** One record per token. */
    var records: map<string, Record>

    /** Every record is filed under its own token, a well-formed token, and is well formed. */
    ghost predicate Valid()
      reads this
    {
      forall t :: t in records ==> records[t].token == t && IsToken(t) && WellFormed(records[t])
    }

    constructor ()
      ensures Valid() && records == map[]
    {
      records := map[];
    }

    /**
     * `api_upload`: refuse a missing or non-PDF file; otherwise take the
     * token from the UUID, write the PDF (`fileSaved` is whether that
     * succeeded) and then the new record, and answer with the link.
     * A record already filed under the same token is overwritten.
     */
    method Upload(baseUrl: string, form: UploadForm, uuidHex: string, nowUtc: string, fileSaved: bool)
      returns (reply: UploadReply)
      requires Valid() && IsUuidHex(uuidHex)
      modifies this
      ensures Valid()
      ensures reply.NotPdf? <==> AcceptedName(form).None?
      ensures reply.SaveFailed? <==> AcceptedName(form).Some? && !fileSaved
      ensures !reply.Uploaded? ==> records == old(records)
      ensures reply.Uploaded? ==>
                reply.token == TokenOf(uuidHex) && reply.url == ShareUrl(baseUrl, reply.token)
                && records == old(records)[reply.token := NewRecord(reply.token, AcceptedName(form).value, nowUtc)]
    {
      var name := AcceptedName(form);
      if name.None? {
        return NotPdf;
      }
      var token := TokenOf(uuidHex);
      if !fileSaved {
        return SaveFailed;
      }
      records := records[token := NewRecord(token, name.value, nowUtc)];
      reply := Uploaded(token, ShareUrl(baseUrl, token));
    }

    /**
     * `api_respond` and `respond_form`: look the token up, normalise and
     * validate the submission for the path, then overwrite the status,
     * append the event and save; finally choose the warning from the
     * notification outcome. Once saved, the reply is a success whatever
     * the notification did.
     */
    method Respond(smtp: Smtp, mode: Mode, path: Path, token: string, sub: Submission,
                   forwardedFor: Option<string>, remoteAddr: string, nowUtc: string,
                   send: SendResult, finishedInTime: bool)
      returns (reply: RespondReply)
      requires Valid()
      modifies this
      ensures Valid()
      ensures reply.NotFound? <==> token !in old(records)
      ensures !reply.Recorded? ==> records == old(records)
      ensures token in old(records) ==>
                var n := Normalise(sub);
                match Validate(path, n)
                case Err(why) => reply == Refused(why)
                case Ok(d) =>
                  reply == Recorded(Notify(smtp, mode, send, finishedInTime).warning)
                  && records == old(records)[token := WithDecision(old(records)[token],
                                                    MakeEvent(nowUtc, d, n, ClientIp(forwardedFor, remoteAddr)))]
      ensures forall t :: t in old(records) && t != token ==> t in records && records[t] == old(records)[t]
      ensures records.Keys == old(records).Keys
    {
      if token !in records {
        return NotFound;
      }
      var rec := records[token];
      var n := Normalise(sub);
      var checked := Validate(path, n);
      if checked.Err? {
        return Refused(checked.error);
      }
      var ev := MakeEvent(nowUtc, checked.value, n, ClientIp(forwardedFor, remoteAddr));
      WithDecisionWellFormed(rec, ev);
      records := records[token := WithDecision(rec, ev)];
      var note := Notify(smtp, mode, send, finishedInTime);
      reply := Recorded(note.warning);
    }

    /** `proof_page`: the record's names, or None (404) for an unknown token. */
    method View(token: string) returns (view: Option<ProofView>)
      requires Valid()
      ensures view.None? <==> token !in records
      ensures view.Some? ==> view.value.originalName == records[token].originalName
                             && view.value.storedName == SafeName(records[token].originalName)
    {
      if token !in records {
        return None;
      }
      view := Some(ProofView(records[token].originalName, records[token].storedName));
    }
  }

  /**
   * A client of the store: upload a PDF, then approve it through the API
   * path with notification off. The upload answers with the token and its
   * link, the decision is recorded without a warning, and the record reads
   * back with its name, approved, with one event.
   */
  method UploadThenApprove(uuidHex: string, filename: string)
    returns (up: UploadReply, answer: RespondReply, rec: Record)
    requires IsUuidHex(uuidHex) && IsPdfName(filename)
    ensures up == Uploaded(uuidHex[..12], ShareUrl(DefaultBaseUrl, uuidHex[..12]))
    ensures answer == Recorded(None) && RespondStatus(Api, answer) == 200
    ensures rec.originalName == filename && rec.storedName == SafeName(filename)
    ensures rec.status == Decided(Approved) && |rec.responses| == 1
  {
    var store := new ProofStore();
    var form := UploadForm(Some(filename), None);
    up := store.Upload(DefaultBaseUrl, form, uuidHex, "2024-01-01T00:00:00Z", true);
    var token := uuidHex[..12];
    var sub := Submission(Some("approved"), Some(""), Some("Alice"), Some("a@x.com"));
    LowerKeepsLower("approved");
    assert Validate(Api, Normalise(sub)) == Ok(Approved);
    answer := store.Respond(Smtp("smtp.example", 587, 10), Off, Api, token, sub,
                            None, "127.0.0.1", "2024-01-01T00:01:00Z", Sent, true);
    rec := store.records[token];
  }
}
