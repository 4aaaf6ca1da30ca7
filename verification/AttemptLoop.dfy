/**
 The attempt loop of the request handler (pkg/gateway/chatcompletions.go): every
 call to the outside is answered by an oracle, and every effect is logged.
 */
module AttemptLoop {
  import opened Options
  import opened AttemptDiscipline

  datatype ReserveAnswer = Granted | Stopped | ReserveFailed

  datatype WaitAnswer = Slept | CancelledAsleep | WaitFailed

  /** A failed step of an attempt: the caller may have gone, and the failure may rule out a retry. */
  datatype Trouble = Trouble(cancelled: bool, mayRetry: bool)

  /** How a response is passed on: written through by the proxy, or buffered for
      the privacy and guardrail stages first. */
  datatype Delivery =
    | WrittenThrough
    | Buffered(success: bool, pii: bool, failClosed: bool, inspectFails: bool, blocked: bool,
               guardrailFails: bool, transformFails: bool, restore: bool, restoreFails: bool)

  /** Everything the outside may answer while one candidate is tried. */
  datatype Answers = Answers(
    expired: bool, dynamic: bool, target: bool, timeLeft: bool,
    admission: Option<Trouble>, activatedTarget: bool,
    rewritten: bool, defaulted: bool, build: Option<Trouble>, send: Option<Trouble>,
    retryableStatus: bool, reserve: ReserveAnswer, wait: WaitAnswer, delivery: Delivery)

  datatype Flow = NextCandidate | LeaveLoop | Return

  // -------------------------------------------------------------------------
  // The retry policy

  /** The candidate is tried at all. */
  predicate Tried(a: Answers) {
    !a.expired && (a.dynamic || a.target)
  }

  /** What keeps an attempt from getting a response, if anything does. */
  function Obstacle(a: Answers): Option<Trouble> {
    if a.dynamic && a.admission.Some? then a.admission
    else if a.dynamic && !a.activatedTarget then Some(Trouble(false, true))
    else if !a.rewritten || !a.defaulted then None
    else if a.build.Some? then a.build
    else a.send
  }

  /** The attempt gets a response and passes it on. */
  predicate Passes(a: Answers, canRetry: bool) {
    && Tried(a) && a.timeLeft && Obstacle(a).None?
    && (a.dynamic ==> a.admission.None? && a.activatedTarget) && a.rewritten && a.defaulted
    && !(a.retryableStatus && canRetry && a.reserve.Granted?)
  }

  function Waits(a: Answers): Flow {
    if a.wait.Slept? then NextCandidate else Return
  }

  /** Whether the loop goes on to the next candidate. */
  function Verdict(a: Answers, canRetry: bool): Flow {
    if a.expired then LeaveLoop
    else if !Tried(a) then NextCandidate
    else if !a.timeLeft then LeaveLoop
    else match Obstacle(a)
      case Some(t) =>
        if t.cancelled then Return
        else if !canRetry || !t.mayRetry || a.reserve.Stopped? then LeaveLoop
        else if a.reserve.Granted? then Waits(a) else Return
      case None =>
        if a.rewritten && a.defaulted && a.retryableStatus && canRetry && a.reserve.Granted? then Waits(a) else Return
  }

  /** Some answer reports that the caller has gone. */
  predicate Cancels(a: Answers) {
    || (a.admission.Some? && a.admission.value.cancelled)
    || (a.build.Some? && a.build.value.cancelled)
    || (a.send.Some? && a.send.value.cancelled)
    || a.wait.CancelledAsleep?
  }

  /** Trying candidates in order from i, some response is passed on. */
  predicate Served(candidates: seq<Answers>, i: nat, attempts: nat, maxAttempts: nat)
    requires i <= |candidates|
    decreases |candidates| - i
  {
    if i == |candidates| || attempts >= maxAttempts then false
    else
      var a := candidates[i];
      var attempts' := attempts + if Tried(a) then 1 else 0;
      var canRetry := attempts' < maxAttempts && i + 1 < |candidates|;
      match Verdict(a, canRetry)
      case NextCandidate => Served(candidates, i + 1, attempts', maxAttempts)
      case LeaveLoop => false
      case Return => Passes(a, canRetry)
  }

  /** The candidate fails in a way that another attempt may repair. */
  predicate Recoverable(a: Answers) {
    && !a.expired
    && (Tried(a) ==>
        && a.timeLeft && a.reserve.Granted? && a.wait.Slept?
        && match Obstacle(a)
           case Some(t) => !t.cancelled && t.mayRetry
           case None => a.rewritten && a.defaulted && a.retryableStatus)
  }

  /** The candidate answers with a response that is not worth retrying. */
  predicate Works(a: Answers) {
    && Tried(a) && a.timeLeft && a.rewritten && a.defaulted && !a.retryableStatus
    && (a.dynamic ==> a.admission.None? && a.activatedTarget) && a.build.None? && a.send.None?
  }

  /** How many candidates from i up to k are tried; those without capacity are passed over. */
  function TriedBetween(candidates: seq<Answers>, i: nat, k: nat): nat
    requires i <= k <= |candidates|
    decreases k - i
  {
    if i == k then 0 else (if Tried(candidates[i]) then 1 else 0) + TriedBetween(candidates, i + 1, k)
  }

  /** If every earlier candidate fails recoverably or is passed over, the first working
      one is served, provided the attempts before it leave one within the limit. */
  lemma {:induction false} FirstWorkingCandidate(candidates: seq<Answers>, i: nat, k: nat, attempts: nat, maxAttempts: nat)
    requires i <= k < |candidates| && Works(candidates[k])
    requires forall j :: i <= j < k ==> Recoverable(candidates[j])
    requires attempts + TriedBetween(candidates, i, k) < maxAttempts
    ensures Served(candidates, i, attempts, maxAttempts)
    decreases k - i
  {
    if i < k {
      FirstWorkingCandidate(candidates, i + 1, k, attempts + (if Tried(candidates[i]) then 1 else 0), maxAttempts);
    }
  }

  class Handler {
    const maxAttempts: nat
    var attempts: nat
    var activeRetry: Option<Lease>
    var issued: nat
    var log: seq<Entry>
    ghost var m: Monitor

    ghost predicate Valid()
      reads this
    {
      Follow(log) == Some(m) && m.issued == issued && m.retry == activeRetry && m.started == attempts
    }

    /** No attempt is under way. */
    ghost predicate Idle()
      reads this
    {
      Valid() && !m.open && !m.proxied && !m.ended && !m.cancelled && m.target.None? && m.runtime.None?
    }

    /** Another attempt may start. */
    ghost predicate Willing()
      reads this
    {
      Idle() && !m.settled && (attempts > 0 ==> activeRetry.Some?)
    }

    /** The latest attempt is under way. */
    ghost predicate Trying(target: Option<Lease>, runtime: Option<Lease>)
      reads this
    {
      Valid() && m.open && !m.settled && !m.proxied && !m.ended && !m.cancelled && m.target == target && m.runtime == runtime
    }

    constructor (maxAttempts: nat)
      ensures Willing() && attempts == 0 && log == [] && this.maxAttempts == maxAttempts
    {
      this.maxAttempts := maxAttempts;
      attempts, activeRetry, issued, log, m := 0, None, 0, [], FRESH;
    }

    method Note(e: Entry)
      requires Follow(log) == Some(m) && Step(m, e).Some?
      modifies this`log, this`m
      ensures log == old(log) + [e] && Follow(log) == Some(m) && Some(m) == Step(old(m), e)
    {
      FollowOne(log, e);
      log := log + [e];
      m := Step(m, e).value;
    }

    method ReleaseActiveRetry()
      requires Valid()
      modifies this`activeRetry, this`log, this`m
      ensures Valid() && activeRetry.None? && m == old(m).(retry := None)
    {
      if activeRetry.Some? {
        Note(ReleaseRetry(activeRetry.value));
        activeRetry := None;
      }
    }

    method ScheduleRetry(canRetry: bool, answer: ReserveAnswer) returns (willRetry: bool, failed: bool)
      requires Valid() && m.open && !m.proxied && !m.ended
      modifies this`activeRetry, this`issued, this`log, this`m
      ensures Valid() && m == old(m).(retry := activeRetry, issued := issued)
      ensures willRetry == (canRetry && answer.Granted?) == activeRetry.Some?
      ensures failed == (canRetry && answer.ReserveFailed?)
    {
      ReleaseActiveRetry();
      if !canRetry { return false, false; }
      if !answer.Granted? { return false, answer.ReserveFailed?; }
      Note(ReserveRetry(issued));
      activeRetry := Some(issued);
      issued := issued + 1;
      return true, false;
    }

    /** Schedules a retry, records the attempt with its leases, and waits. */
    method RecordAndRetry(target: Option<Lease>, runtime: Option<Lease>, canRetry: bool, a: Answers) returns (flow: Flow)
      requires Trying(target, runtime)
      modifies this`activeRetry, this`issued, this`log, this`m
      ensures flow == if !canRetry || a.reserve.Stopped? then LeaveLoop
                      else if a.reserve.Granted? then Waits(a) else Return
      ensures flow.NextCandidate? ==> Willing()
      ensures flow.LeaveLoop? ==> Idle()
      ensures flow.Return? ==> Valid() && Returned(m) && !m.proxied && (m.cancelled ==> Cancels(a))
    {
      var willRetry, failed := ScheduleRetry(canRetry, a.reserve);
      Note(Record(attempts, target, runtime, willRetry));
      if failed {
        ReleaseActiveRetry();
        Note(Commit);
        return Return;
      }
      if !willRetry { return LeaveLoop; }
      flow := WaitForRetry(a.wait);
    }

    method WaitForRetry(wait: WaitAnswer) returns (flow: Flow)
      requires Willing()
      modifies this`activeRetry, this`log, this`m
      ensures flow == if wait.Slept? then NextCandidate else Return
      ensures flow.NextCandidate? ==> Willing()
      ensures flow.Return? ==> Valid() && Returned(m) && !m.proxied && m.cancelled == wait.CancelledAsleep?
    {
      if wait.Slept? { return NextCandidate; }
      ReleaseActiveRetry();
      Note(if wait.CancelledAsleep? then CallerCancelled else Commit);
      return Return;
    }

    /** Records the attempt as the last one and answers the caller, if it is still there. */
    method GiveUp(target: Option<Lease>, runtime: Option<Lease>, cancelled: bool)
      requires Trying(target, runtime)
      modifies this`activeRetry, this`log, this`m
      ensures Valid() && Returned(m) && !m.proxied && m.cancelled == cancelled
    {
      Note(Record(attempts, target, runtime, false));
      ReleaseActiveRetry();
      Note(if cancelled then CallerCancelled else Commit);
    }

    /** The steps from the upstream request to the response. */
    method Send(target: Lease, runtime: Option<Lease>, canRetry: bool, a: Answers) returns (flow: Flow)
      requires Trying(Some(target), runtime) && Tried(a) && a.timeLeft
      requires a.dynamic ==> a.admission.None? && a.activatedTarget
      modifies this`activeRetry, this`issued, this`log, this`m
      ensures flow == Verdict(a, canRetry)
      ensures flow.NextCandidate? ==> Willing()
      ensures flow.LeaveLoop? ==> Idle()
      ensures flow.Return? ==> Valid() && Returned(m) && m.proxied == Passes(a, canRetry)
      ensures flow.Return? && m.cancelled ==> Cancels(a)
    {
      if !a.rewritten || !a.defaulted {
        GiveUp(Some(target), runtime, false);
        return Return;
      }
      var trouble := if a.build.Some? then a.build else a.send;
      if trouble.Some? {
        if trouble.value.cancelled {
          GiveUp(Some(target), runtime, true);
          return Return;
        }
        flow := RecordAndRetry(Some(target), runtime, canRetry && trouble.value.mayRetry, a);
        return;
      }
      if a.retryableStatus && canRetry {
        var willRetry, failed := ScheduleRetry(true, a.reserve);
        if willRetry {
          Note(Record(attempts, Some(target), runtime, true));
          flow := WaitForRetry(a.wait);
          return;
        }
      }
      Deliver(target, runtime, a.delivery);
      return Return;
    }

    /** Passes the upstream response on: by the proxy itself, or from the buffer
        once the privacy and guardrail stages have had their say. */
    method Deliver(target: Lease, runtime: Option<Lease>, d: Delivery)
      requires Trying(Some(target), runtime)
      modifies this`activeRetry, this`log, this`m
      ensures Valid() && Returned(m) && m.proxied && !m.cancelled
    {
      Note(Proxy(attempts));
      if d.WrittenThrough? { Note(Commit); }
      Note(Record(attempts, Some(target), runtime, false));
      ReleaseActiveRetry();
      if d.Buffered? {
        if d.success {
          if d.pii && d.inspectFails && d.failClosed {
            Note(Commit);  // inspection failed
            return;
          }
          if d.blocked {
            Note(Commit);  // rejected by a guardrail
          } else if d.guardrailFails {
            Note(Commit);  // no verdict
          } else {
            var privacyFailed := false;
            if d.pii {
              if d.transformFails && d.failClosed {
                Note(Commit);
                privacyFailed := true;
              }
              if !privacyFailed && d.restore && d.restoreFails && d.failClosed {
                Note(Commit);
                privacyFailed := true;
              }
            }
            if !privacyFailed { Note(Commit); }  // the buffered response
          }
        } else {
          Note(Commit);  // the buffered error
        }
      }
    }

    /** One iteration of the loop; `more` says whether another candidate follows. */
    method TryCandidate(a: Answers, more: bool) returns (flow: Flow)
      requires Willing() && attempts < maxAttempts
      modifies this`attempts, this`activeRetry, this`issued, this`log, this`m
      ensures attempts == old(attempts) + if Tried(a) then 1 else 0
      ensures flow == Verdict(a, attempts < maxAttempts && more)
      ensures flow.NextCandidate? ==> Willing()
      ensures flow.LeaveLoop? ==> Idle()
      ensures flow.Return? ==> Valid() && Returned(m) && m.proxied == Passes(a, attempts < maxAttempts && more)
      ensures flow.Return? && m.cancelled ==> Cancels(a)
    {
      if a.expired { return LeaveLoop; }
      var target: Option<Lease> := None;
      if !a.dynamic {
        if !a.target { return NextCandidate; }
        target := AcquireTargetLease();
      }
      attempts := attempts + 1;
      Note(Start(attempts));
      var canRetry := attempts < maxAttempts && more;
      if !a.timeLeft {
        Note(Record(attempts, target, None, false));
        ReleaseActiveRetry();
        return LeaveLoop;
      }
      var runtime: Option<Lease> := None;
      if a.dynamic {
        if a.admission.Some? {
          if a.admission.value.cancelled {
            GiveUp(None, None, true);
            return Return;
          }
          flow := RecordAndRetry(None, None, canRetry && a.admission.value.mayRetry, a);
          return;
        }
        Note(AcquireRuntime(issued));
        runtime := Some(issued);
        issued := issued + 1;
        if !a.activatedTarget {
          flow := RecordAndRetry(None, runtime, canRetry, a);
          return;
        }
        target := AcquireTargetLease();
      }
      flow := Send(target.value, runtime, canRetry, a);
    }

    method AcquireTargetLease() returns (lease: Option<Lease>)
      requires Valid() && m.target.None? && !m.settled && !m.ended
      modifies this`issued, this`log, this`m
      ensures lease.Some? && Valid() && m == old(m).(issued := issued, target := lease)
    {
      Note(AcquireTarget(issued));
      lease := Some(issued);
      issued := issued + 1;
    }

    /** The whole loop.  Whatever the outside answers, the log it leaves is
        disciplined, attempts stay within their bounds, and a response is passed
        on exactly when the retry policy leads to one. */
    method Serve(candidates: seq<Answers>)
      requires Willing() && attempts == 0 && log == []
      modifies this
      ensures Disciplined(log)
      ensures attempts == Starts(log) && attempts <= maxAttempts && attempts <= |candidates|
      ensures Commits(log) == 1 || exists i :: 0 <= i < |candidates| && Cancels(candidates[i])
      ensures Follow(log).value.proxied <==> Served(candidates, 0, 0, maxAttempts)
    {
      var index := 0;
      while index < |candidates|
        invariant index <= |candidates|
        invariant Willing() && attempts <= maxAttempts && attempts <= index
        invariant Served(candidates, 0, 0, maxAttempts) == Served(candidates, index, attempts, maxAttempts)
        decreases |candidates| - index
      {
        if attempts >= maxAttempts { break; }
        var flow := TryCandidate(candidates[index], index + 1 < |candidates|);
        index := index + 1;
        if flow.Return? {
          Counts(log);
          return;
        }
        if flow.LeaveLoop? { break; }
      }
      Note(Commit);
      ReleaseActiveRetry();
      Counts(log);
    }
  }
}
