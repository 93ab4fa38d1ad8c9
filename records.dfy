/**
 * The proof record kept per upload token, the decision events appended to it,
 * and the two ways the server builds or changes a record: creation on upload
 * and the status overwrite plus event append on each decision.
 */
module Records {
  import opened Text

  /** A decision the viewer may record. */
  datatype Decision = Approved | Rejected {
    /** The lower-case word the server stores and compares against. */
    function Name(): string {
      match this
      case Approved => "approved"
      case Rejected => "rejected"
    }
  }

  /** The record's `status` field: "pending" until some decision is recorded. */
  datatype Status = Pending | Decided(decision: Decision) {
    function Name(): string {
      match this
      case Pending => "pending"
      case Decided(d) => d.Name()
    }
  }

  /** One entry of the record's `responses` list. */
  datatype Event = Event(tsUtc: string, decision: Decision, comment: string,
                         viewerName: string, viewerEmail: string, ip: string)

  datatype Record = Record(token: string, originalName: string, storedName: string,
                           createdUtc: string, status: Status, responses: seq<Event>)

  predicate IsSeparator(c: char) {
    c == '/' || c == '\\'
  }

  /**
   * The stored file name: `original_name` with every `/` and then every `\`
   * replaced by `_`. Nothing else is changed; in particular `..` is kept.
   */
  function SafeName(name: string): (r: string)
    ensures |r| == |name|
    ensures forall i :: 0 <= i < |name| ==> r[i] == if IsSeparator(name[i]) then '_' else name[i]
    ensures forall i :: 0 <= i < |r| ==> !IsSeparator(r[i])
  {
    Replace(Replace(name, '/', '_'), '\\', '_')
  }

  /** A name without separators is stored under its own name. */
  lemma SafeNameKeepsClean(name: string)
    requires forall i :: 0 <= i < |name| ==> !IsSeparator(name[i])
    ensures SafeName(name) == name
  {
    assert forall i :: 0 <= i < |name| ==> SafeName(name)[i] == name[i];
  }

  /** Sanitising a sanitised name changes nothing. */
  lemma SafeNameIdempotent(name: string)
    ensures SafeName(SafeName(name)) == SafeName(name)
  {
    SafeNameKeepsClean(SafeName(name));
  }

  /**
   * The record invariant: the stored name is derived from the original name,
   * the status is pending exactly while no decision has been recorded, and
   * otherwise it is the decision of the latest event.
   */
  ghost predicate WellFormed(rec: Record) {
    rec.storedName == SafeName(rec.originalName)
    && (rec.status == Pending <==> rec.responses == [])
    && (rec.responses != [] ==> rec.status == Decided(rec.responses[|rec.responses| - 1].decision))
  }

  /** The record written at upload time. */
  function NewRecord(token: string, originalName: string, createdUtc: string): (rec: Record)
    ensures WellFormed(rec)
    ensures rec.token == token && rec.originalName == originalName && rec.createdUtc == createdUtc
    ensures rec.status == Pending && rec.responses == []
    ensures forall i :: 0 <= i < |rec.storedName| ==> !IsSeparator(rec.storedName[i])
  {
    Record(token, originalName, SafeName(originalName), createdUtc, Pending, [])
  }

  /**
   * The `status` string of a well-formed record: "pending" while there are
   * no events, otherwise the name of the latest event's decision.
   */
  lemma StatusNameOfWellFormed(rec: Record)
    requires WellFormed(rec)
    ensures rec.responses == [] ==> rec.status.Name() == "pending"
    ensures rec.responses != [] ==>
              rec.status.Name() == rec.responses[|rec.responses| - 1].decision.Name()
              && rec.status.Name() != "pending"
  {
  }

  /** The record after one decision: status overwritten, event appended. */
  function WithDecision(rec: Record, ev: Event): (r: Record)
    ensures r.status == Decided(ev.decision) && r.status != Pending
    ensures |r.responses| == |rec.responses| + 1
    ensures r.responses[..|rec.responses|] == rec.responses
    ensures r.responses[|r.responses| - 1] == ev
    ensures r.token == rec.token && r.originalName == rec.originalName
    ensures r.storedName == rec.storedName && r.createdUtc == rec.createdUtc
  {
    rec.(status := Decided(ev.decision), responses := rec.responses + [ev])
  }

  /** Recording a decision keeps the record invariant. */
  lemma WithDecisionWellFormed(rec: Record, ev: Event)
    requires WellFormed(rec)
    ensures WellFormed(WithDecision(rec, ev))
  {
  }

  /** The record after a series of submissions, in order. */
  function WithDecisions(rec: Record, evs: seq<Event>): Record
    decreases |evs|
  {
    if evs == [] then rec else WithDecisions(WithDecision(rec, evs[0]), evs[1..])
  }

  /**
   * Submissions are re-entrant and the last one wins: after any series of
   * decisions the events are appended in order, the status is the last
   * decision, and the identifying fields are those of the original record.
   */
  lemma {:induction false} LastDecisionWins(rec: Record, evs: seq<Event>)
    requires evs != []
    ensures var r := WithDecisions(rec, evs);
            r.responses == rec.responses + evs
            && r.status == Decided(evs[|evs| - 1].decision)
            && r.token == rec.token && r.originalName == rec.originalName
            && r.storedName == rec.storedName && r.createdUtc == rec.createdUtc
    decreases |evs|
  {
    var next := WithDecision(rec, evs[0]);
    if |evs| == 1 {
      assert evs[1..] == [];
    } else {
      LastDecisionWins(next, evs[1..]);
      assert next.responses + evs[1..] == rec.responses + evs;
    }
  }
}
