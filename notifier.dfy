/**
 * The notification step that follows a recorded decision: the delivery-mode
 * setting, and the advisory warning chosen from the outcome of the send.
 * The send itself (SMTP, TLS, login) and the worker pool are not modelled;
 * their outcome is an input.
 */
module Notifier {
  import opened Wrappers
  import opened Text

  datatype Mode = Off | Sync | Async

  /** How the lower-cased mode setting is read: "off", "sync", anything else async. */
  function ModeOf(setting: string): (m: Mode)
    ensures m == Off <==> setting == "off"
    ensures m == Sync <==> setting == "sync"
  {
    if setting == "off" then Off else if setting == "sync" then Sync else Async
  }

  /** The EMAIL_MODE setting: lower-cased, "async" when unset. */
  function EmailMode(setting: Option<string>): (m: Mode)
    ensures m == Off <==> setting.Some? && Lower(setting.value) == "off"
    ensures m == Sync <==> setting.Some? && Lower(setting.value) == "sync"
  {
    ModeOf(Lower(setting.GetOr("async")))
  }

  /** An unset mode and any spelling of "async" select async delivery. */
  lemma EmailModeDefault()
    ensures EmailMode(None) == Async
    ensures EmailMode(Some("ASYNC")) == Async
  {
  }

  /** Letter case in the setting does not matter. */
  lemma EmailModeIgnoresCase(a: string, b: string)
    requires Lower(a) == Lower(b)
    ensures EmailMode(Some(a)) == EmailMode(Some(b))
  {
  }

  /** The relay settings that appear in warning text. */
  datatype Smtp = Smtp(host: string, port: nat, timeout: nat)

  /**
   * The outcome of one call of the send routine: it returned, or it raised
   * an exception; `timeoutError` says whether that exception is a
   * `TimeoutError` (a socket timeout inside the SMTP client is one).
   */
  datatype SendResult = Sent | Raised(error: string, timeoutError: bool)

  /** Whether a send was started, and the warning attached to the response. */
  datatype Notification = Notification(attempted: bool, warning: Option<string>)

  /** The warning for a send that raised: relay address and error message. */
  function FailureWarning(smtp: Smtp, error: string): (w: string)
    ensures StartsWith(w, "Email send failed (" + smtp.host + ":")
    ensures EndsWith(w, "): " + error)
    ensures |w| == 19 + |smtp.host| + 1 + |NatToString(smtp.port)| + 3 + |error|
    ensures w[20 + |smtp.host|..20 + |smtp.host| + |NatToString(smtp.port)|] == NatToString(smtp.port)
  {
    "Email send failed (" + smtp.host + ":" + NatToString(smtp.port) + "): " + error
  }

  /** The warning for a wait that ran out: the send is left to finish in the background. */
  function TimeoutWarning(smtp: Smtp): (w: string)
    ensures StartsWith(w, "Email is sending in background (timeout ")
    ensures EndsWith(w, NatToString(smtp.timeout) + "s).")
    ensures |w| == 40 + |NatToString(smtp.timeout)| + 3
  {
    "Email is sending in background (timeout " + NatToString(smtp.timeout) + "s)."
  }

  /** The two warnings can never be confused with each other. */
  lemma TimeoutIsNotFailure(smtp: Smtp, error: string)
    ensures TimeoutWarning(smtp) != FailureWarning(smtp, error)
  {
    assert TimeoutWarning(smtp)[6] == 'i';
    assert FailureWarning(smtp, error)[6] == 's';
  }

  /**
   * The warning after a decision was saved, as the handlers intend it.
   * `send` is what the send routine did; `finishedInTime` says whether, in
   * async mode, it finished within the wait of `smtp.timeout` seconds. A
   * wait that ran out reports the background send; a send that raised,
   * whatever the exception, reports the failure. This is also what the code
   * does on Python versions before 3.11.
   */
  function Notify(smtp: Smtp, mode: Mode, send: SendResult, finishedInTime: bool): (n: Notification)
    ensures n.attempted <==> mode != Off
    ensures n.warning.Some? ==> n.warning.value != ""
  {
    match mode
    case Off => Notification(false, None)
    case Sync =>
      Notification(true, if send.Raised? then Some(FailureWarning(smtp, send.error)) else None)
    case Async =>
      if !finishedInTime then Notification(true, Some(TimeoutWarning(smtp)))
      else if send.Raised? then Notification(true, Some(FailureWarning(smtp, send.error)))
      else Notification(true, None)
  }

  /** Mode "off": nothing is sent and there is never a warning. */
  lemma OffNeverWarns(smtp: Smtp, send: SendResult, finishedInTime: bool)
    ensures Notify(smtp, Off, send, finishedInTime) == Notification(false, None)
  {
  }

  /** Mode "sync": a warning exactly when the send raised, and then it names the error. */
  lemma SyncWarnsIffFailed(smtp: Smtp, send: SendResult, finishedInTime: bool)
    ensures Notify(smtp, Sync, send, finishedInTime).warning.Some? <==> send.Raised?
    ensures send.Raised? ==> Notify(smtp, Sync, send, finishedInTime).warning == Some(FailureWarning(smtp, send.error))
  {
  }

  /**
   * Async mode: a warning exactly when the wait ran out or the send raised;
   * a timed-out wait reports the background send, a raised send the failure.
   */
  lemma AsyncWarnsIffFailedOrLate(smtp: Smtp, send: SendResult, finishedInTime: bool)
    ensures Notify(smtp, Async, send, finishedInTime).warning.Some? <==> !finishedInTime || send.Raised?
    ensures !finishedInTime ==> Notify(smtp, Async, send, finishedInTime).warning == Some(TimeoutWarning(smtp))
    ensures finishedInTime && send.Raised? ==>
              Notify(smtp, Async, send, finishedInTime).warning == Some(FailureWarning(smtp, send.error))
  {
  }

  /** With Notify, a caller can tell a timed-out wait from a failed send by the warning alone. */
  lemma WarningsDistinguishOutcome(smtp: Smtp, send: SendResult)
    requires send.Raised?
    ensures Notify(smtp, Async, send, true).warning != Notify(smtp, Async, Sent, false).warning
  {
    TimeoutIsNotFailure(smtp, send.error);
  }

  /**
   * The warning as the async branch computes it on Python 3.11 and later,
   * where the `TimeoutError` caught around the wait is the built-in one: a
   * send that raised `TimeoutError` within the wait is caught by the
   * timeout clause, not by the failure clause.
   */
  function NotifyAsWritten(smtp: Smtp, mode: Mode, send: SendResult, finishedInTime: bool): (n: Notification)
    ensures n.attempted <==> mode != Off
    ensures n.warning.Some? ==> n.warning.value != ""
  {
    match mode
    case Off => Notification(false, None)
    case Sync =>
      Notification(true, if send.Raised? then Some(FailureWarning(smtp, send.error)) else None)
    case Async =>
      if !finishedInTime || (send.Raised? && send.timeoutError) then Notification(true, Some(TimeoutWarning(smtp)))
      else if send.Raised? then Notification(true, Some(FailureWarning(smtp, send.error)))
      else Notification(true, None)
  }

  /**
   * The discrepancy: a send that has already failed with a socket timeout
   * inside the wait is reported as still sending in the background.
   */
  lemma AsWrittenMisreportsTimedOutSend(smtp: Smtp, e: string)
    ensures NotifyAsWritten(smtp, Async, Raised(e, true), true).warning == Some(TimeoutWarning(smtp))
    ensures Notify(smtp, Async, Raised(e, true), true).warning == Some(FailureWarning(smtp, e))
    ensures NotifyAsWritten(smtp, Async, Raised(e, true), true) != Notify(smtp, Async, Raised(e, true), true)
  {
    TimeoutIsNotFailure(smtp, e);
  }

  /** Outside that one case the code as written and Notify agree. */
  lemma AsWrittenAgreesElsewhere(smtp: Smtp, mode: Mode, send: SendResult, finishedInTime: bool)
    requires !(mode == Async && finishedInTime && send.Raised? && send.timeoutError)
    ensures NotifyAsWritten(smtp, mode, send, finishedInTime) == Notify(smtp, mode, send, finishedInTime)
  {
  }
}
