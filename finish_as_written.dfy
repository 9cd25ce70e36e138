/** `finish` of runOneTimeScan exactly as it is written
    (src/background/analyzer/analyzerEngine.js:116-151). It sets
    `settled = true` and then calls `clearTimeout(timer)`, but `const timer`
    is only declared after the injection attempt has returned. Before that
    the name is in its temporal dead zone, so the call throws a
    ReferenceError. The request is then marked settled, the result slot is
    not emptied and the promise is neither resolved nor rejected. The rest
    of the model uses `Engine.Finish`, where `timer` is declared ahead of
    `finish`. */
module FinishAsWritten {
  import opened Engine

  /** What one call of the as-written `finish` leaves: the request, and
      whether it got as far as `this.resultCallback = null`. */
  datatype Step = Step(req: Request, slotCleared: bool)

  /** The as-written `finish(err, data)`. */
  function FinishAsWritten(req: Request, o: Outcome): (s: Step)
    requires o != Pending
    ensures s.req.settled
    ensures req.timer != Unset ==> s.req == Finish(req, o) && s.slotCleared == !req.settled
    ensures req.timer == Unset ==> s.req.outcome == req.outcome && !s.slotCleared
  {
    if req.settled then Step(req, false)
    else if req.timer == Unset then Step(req.(settled := true), false)
    else Step(Finish(req, o), true)
  }

  /** A failed injection (line 144) reaches `finish` before `timer` exists:
      the request is left settled but pending and keeps the slot, and no
      later call of `finish` can settle it. With the timer declared first,
      the same call rejects it with the injection error. */
  lemma InjectionFailureStaysPending(o: Outcome)
    requires o != Pending
    ensures var req := FreshRequest.(injected := true);
      var s := FinishAsWritten(req, Rejected(InjectionFailedMessage));
      && s.req.settled && s.req.outcome == Pending && !s.slotCleared
      && FinishAsWritten(s.req, o).req == s.req
      && Finish(req, Rejected(InjectionFailedMessage)).outcome == Rejected(InjectionFailedMessage)
  {
  }

  /** A result that arrives while the injection attempt is still pending
      runs the wrapper, whose `finish` throws (the listener swallows it).
      The timer armed afterwards fires into a settled request, so the
      promise stays pending for good. With the timer declared first, the
      result resolves the promise. */
  lemma EarlyResultStaysPending(results: Extractor.Summary, now: nat)
    ensures var req := FreshRequest.(deliveries := 1);
      var s := FinishAsWritten(req, Resolved(results));
      var armed := s.req.(injected := true, timer := Armed(now + TimeoutMs));
      && s.req.settled && s.req.outcome == Pending
      && FinishAsWritten(armed.(timer := Cleared), Rejected(TimeoutMessage)).req.outcome == Pending
      && Finish(req, Resolved(results)).outcome == Resolved(results)
  {
  }

  /** Once the timer exists, the as-written `finish` and the corrected one agree. */
  lemma AgreesOnceTimerExists(req: Request, o: Outcome)
    requires o != Pending && req.timer != Unset
    ensures FinishAsWritten(req, o).req == Finish(req, o)
  {
  }
}
