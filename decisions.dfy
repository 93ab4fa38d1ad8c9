/**
 * Decision submission (`api_respond` and `respond_form`): normalising the
 * submitted fields, validating the decision on each path, and building the
 * decision event.
 */
module Decisions {
  import opened Wrappers
  import opened Text
  import opened Records

  /** The submitted fields as they arrive; None for a field that is absent. */
  datatype Submission = Submission(decision: Option<string>, comment: Option<string>,
                                   viewerName: Option<string>, viewerEmail: Option<string>)

  /** The fields after normalisation. */
  datatype Normalised = Normalised(decision: string, comment: string,
                                   viewerName: string, viewerEmail: string)

  /** `(v or "")`: an absent field reads as the empty string. */
  function OrEmpty(v: Option<string>): (r: string)
    ensures v.None? ==> r == ""
    ensures v.Some? ==> r == v.value
  {
    v.GetOr("")
  }

  /**
   * The decision is lower-cased (and not stripped); the other three fields
   * are stripped (and keep their case).
   */
  function Normalise(sub: Submission): (n: Normalised)
    ensures |n.decision| == |OrEmpty(sub.decision)|
    ensures forall i :: 0 <= i < |n.decision| ==> n.decision[i] == LowerChar(OrEmpty(sub.decision)[i])
    ensures n.comment == Strip(OrEmpty(sub.comment))
    ensures n.viewerName == Strip(OrEmpty(sub.viewerName))
    ensures n.viewerEmail == Strip(OrEmpty(sub.viewerEmail))
  {
    Normalised(Lower(OrEmpty(sub.decision)), Strip(OrEmpty(sub.comment)),
               Strip(OrEmpty(sub.viewerName)), Strip(OrEmpty(sub.viewerEmail)))
  }

  /** Normalising normalised fields changes nothing. */
  lemma NormaliseIdempotent(sub: Submission)
    ensures var n := Normalise(sub);
            Normalise(Submission(Some(n.decision), Some(n.comment),
                                 Some(n.viewerName), Some(n.viewerEmail))) == n
  {
    LowerIdempotent(OrEmpty(sub.decision));
    StripIdempotent(OrEmpty(sub.comment));
    StripIdempotent(OrEmpty(sub.viewerName));
    StripIdempotent(OrEmpty(sub.viewerEmail));
  }

  /** The two submission endpoints: the JSON/API one and the HTML form one. */
  datatype Path = Api | Form

  /** Why a submission for an existing record is refused. */
  datatype Refusal = InvalidDecision | CommentRequired

  /** The decision a normalised word names, if it names one. */
  function ParseDecision(word: string): (d: Option<Decision>)
    ensures d.Some? ==> d.value.Name() == word
  {
    if word == "approved" then Some(Approved)
    else if word == "rejected" then Some(Rejected)
    else None
  }

  /** Every decision's name parses back to it. */
  lemma ParseDecisionName(d: Decision)
    ensures ParseDecision(d.Name()) == Some(d)
  {
  }

  /**
   * The decision must be "approved" or "rejected"; the form path alone also
   * refuses a rejection whose stripped comment is empty.
   */
  function Validate(path: Path, n: Normalised): (r: Result<Decision, Refusal>)
    ensures r.Ok? ==> r.value.Name() == n.decision
    ensures r.Ok? && path == Form && r.value == Rejected ==> n.comment != ""
    ensures r == Err(CommentRequired) ==> path == Form && n.decision == "rejected"
  {
    match ParseDecision(n.decision)
    case None => Err(InvalidDecision)
    case Some(d) =>
      if path == Form && d == Rejected && n.comment == "" then Err(CommentRequired)
      else Ok(d)
  }

  /** A submission is accepted exactly when it names a decision the path allows. */
  lemma ValidateAccepts(path: Path, n: Normalised, d: Decision)
    ensures Validate(path, n) == Ok(d)
            <==> n.decision == d.Name() && !(path == Form && d == Rejected && n.comment == "")
  {
    if n.decision == d.Name() {
      ParseDecisionName(d);
    }
  }

  /** The decision word is refused on both paths exactly when it is neither word. */
  lemma ValidateRefusesWord(path: Path, n: Normalised)
    ensures Validate(path, n) == Err(InvalidDecision)
            <==> n.decision != "approved" && n.decision != "rejected"
  {
  }

  /** The missing-comment rule: only on the form path, only for rejections. */
  lemma ValidateCommentRule(path: Path, n: Normalised)
    ensures Validate(path, n) == Err(CommentRequired)
            <==> path == Form && n.decision == "rejected" && n.comment == ""
  {
  }

  /**
   * The decision word is lower-cased but not stripped: upper-case letters
   * are accepted, surrounding spaces are not.
   */
  lemma DecisionWordNormalisation(path: Path, rest: Submission)
    ensures Validate(path, Normalise(rest.(decision := Some("Approved")))) == Ok(Approved)
    ensures Validate(path, Normalise(rest.(decision := Some(" approved")))) == Err(InvalidDecision)
  {
    var upper := Normalise(rest.(decision := Some("Approved")));
    var spaced := Normalise(rest.(decision := Some(" approved")));
    assert upper.decision == Lower("Approved");
    LowerApproved();
    assert |spaced.decision| == 9;
  }

  /** The one lowering step DecisionWordNormalisation needs. */
  lemma LowerApproved()
    ensures Lower("Approved") == "approved"
  {
    LowerKeepsLower("pproved");
    assert LowerChar('A') == 'a';
    assert forall i :: 1 <= i < 8 ==> Lower("Approved")[i] == "pproved"[i - 1];
  }

  /** The asymmetry between the two paths: a bare rejection passes the API only. */
  lemma PathsDisagreeOnBareRejection(n: Normalised)
    requires n.decision == "rejected" && n.comment == ""
    ensures Validate(Api, n) == Ok(Rejected)
    ensures Validate(Form, n) == Err(CommentRequired)
  {
  }

  /** Whatever the form path accepts, the API path accepts with the same decision. */
  lemma FormStricterThanApi(n: Normalised)
    ensures Validate(Form, n).Ok? ==> Validate(Api, n) == Validate(Form, n)
  {
  }

  /**
   * The client address recorded with the event: the X-Forwarded-For header
   * as a whole when present, otherwise the peer address.
   */
  function ClientIp(forwardedFor: Option<string>, remoteAddr: string): (ip: string)
    ensures forwardedFor.Some? ==> ip == forwardedFor.value
    ensures forwardedFor.None? ==> ip == remoteAddr
  {
    forwardedFor.GetOr(remoteAddr)
  }

  /** The event appended to the record for an accepted submission. */
  function MakeEvent(tsUtc: string, d: Decision, n: Normalised, ip: string): (ev: Event)
    ensures ev.decision == d && ev.tsUtc == tsUtc && ev.ip == ip
    ensures ev.comment == n.comment && ev.viewerName == n.viewerName && ev.viewerEmail == n.viewerEmail
  {
    Event(tsUtc, d, n.comment, n.viewerName, n.viewerEmail, ip)
  }
}
