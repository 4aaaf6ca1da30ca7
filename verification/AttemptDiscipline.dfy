/**
 What the request handler's attempt loop must never get wrong, as a monitor over
 the log of its effects: leases handed out and back, attempts started and
 recorded, and responses committed to the caller.
 */
module AttemptDiscipline {
  import opened Options

  type Lease = nat

  datatype Entry =
    | AcquireTarget(lease: Lease)
    | AcquireRuntime(lease: Lease)
    | Start(attempt: nat)
    | Record(attempt: nat, target: Option<Lease>, runtime: Option<Lease>, willRetry: bool)
    | ReserveRetry(lease: Lease)
    | ReleaseRetry(lease: Lease)
    | Proxy(attempt: nat)
    | Commit
    | CallerCancelled

  /** What the log so far amounts to. */
  datatype Monitor = Monitor(
    issued: nat,               // leases are numbered in the order they are issued
    target: Option<Lease>, runtime: Option<Lease>, retry: Option<Lease>,  // held now
    started: nat, open: bool,  // attempts started; the last one is not recorded yet
    settled: bool,             // an attempt was recorded as the last one
    proxied: bool, ended: bool, cancelled: bool)

  const FRESH := Monitor(0, None, None, None, 0, false, false, false, false, false)

  /** One entry; `None` when the entry breaks the discipline. */
  function Step(m: Monitor, e: Entry): Option<Monitor> {
    match e
    case AcquireTarget(l) =>
      if l == m.issued && m.target.None? && !m.settled && !m.ended
      then Some(m.(issued := l + 1, target := Some(l))) else None
    case AcquireRuntime(l) =>
      if l == m.issued && m.runtime.None? && m.open && !m.ended
      then Some(m.(issued := l + 1, runtime := Some(l))) else None
    case Start(n) =>
      // every attempt but the first runs under a retry reservation
      if n == m.started + 1 && !m.open && !m.settled && !m.proxied && !m.ended && (n > 1 ==> m.retry.Some?)
      then Some(m.(started := n, open := true)) else None
    case Record(n, target, runtime, willRetry) =>
      // the record takes every lease the attempt holds
      if n == m.started && m.open && target == m.target && runtime == m.runtime
         && (willRetry ==> m.retry.Some? && !m.proxied)
      then Some(m.(open := false, target := None, runtime := None, settled := !willRetry)) else None
    case ReserveRetry(l) =>
      if l == m.issued && m.retry.None? && m.open && !m.proxied && !m.ended
      then Some(m.(issued := l + 1, retry := Some(l))) else None
    case ReleaseRetry(l) =>
      if m.retry == Some(l) then Some(m.(retry := None)) else None
    case Proxy(n) =>
      if n == m.started && m.open && !m.proxied && !m.ended then Some(m.(proxied := true)) else None
    case Commit => if m.ended then None else Some(m.(ended := true))
    case CallerCancelled => if m.ended then None else Some(m.(ended := true, cancelled := true))
  }

  function Follow(log: seq<Entry>): Option<Monitor> {
    if log == [] then Some(FRESH)
    else match Follow(log[..|log| - 1])
      case Some(m) => Step(m, log[|log| - 1])
      case None => None
  }

  /** The handler has returned. */
  predicate Returned(m: Monitor) {
    m.ended && !m.open && m.target.None? && m.runtime.None? && m.retry.None?
  }

  predicate Disciplined(log: seq<Entry>) {
    Follow(log).Some? && Returned(Follow(log).value)
  }

  lemma FollowOne(log: seq<Entry>, e: Entry)
    ensures Follow(log + [e]) == match Follow(log) { case Some(m) => Step(m, e) case None => None }
  {
    assert (log + [e])[..|log|] == log;
  }

  // -------------------------------------------------------------------------
  // What a disciplined log guarantees

  lemma {:induction false} PrefixFollows(log: seq<Entry>, n: nat)
    requires n <= |log| && Follow(log).Some?
    ensures Follow(log[..n]).Some?
    decreases |log|
  {
    if n == |log| {
      assert log[..n] == log;
    } else {
      assert log[..|log| - 1][..n] == log[..n];
      PrefixFollows(log[..|log| - 1], n);
    }
  }

  // How often lease l occurs in the log, by role.

  function TargetAcquired(log: seq<Entry>, l: Lease): nat {
    if log == [] then 0
    else TargetAcquired(log[..|log| - 1], l) + if log[|log| - 1] == AcquireTarget(l) then 1 else 0
  }

  function TargetRecorded(log: seq<Entry>, l: Lease): nat {
    if log == [] then 0
    else TargetRecorded(log[..|log| - 1], l) + if log[|log| - 1].Record? && log[|log| - 1].target == Some(l) then 1 else 0
  }

  function RuntimeAcquired(log: seq<Entry>, l: Lease): nat {
    if log == [] then 0
    else RuntimeAcquired(log[..|log| - 1], l) + if log[|log| - 1] == AcquireRuntime(l) then 1 else 0
  }

  function RuntimeRecorded(log: seq<Entry>, l: Lease): nat {
    if log == [] then 0
    else RuntimeRecorded(log[..|log| - 1], l) + if log[|log| - 1].Record? && log[|log| - 1].runtime == Some(l) then 1 else 0
  }

  function RetryReserved(log: seq<Entry>, l: Lease): nat {
    if log == [] then 0
    else RetryReserved(log[..|log| - 1], l) + if log[|log| - 1] == ReserveRetry(l) then 1 else 0
  }

  function RetryReleased(log: seq<Entry>, l: Lease): nat {
    if log == [] then 0
    else RetryReleased(log[..|log| - 1], l) + if log[|log| - 1] == ReleaseRetry(l) then 1 else 0
  }

  lemma {:induction false} TargetBalance(log: seq<Entry>, l: Lease)
    requires Follow(log).Some?
    ensures TargetAcquired(log, l) == TargetRecorded(log, l) + if Follow(log).value.target == Some(l) then 1 else 0
  {
    if log != [] { TargetBalance(log[..|log| - 1], l); }
  }

  lemma {:induction false} RuntimeBalance(log: seq<Entry>, l: Lease)
    requires Follow(log).Some?
    ensures RuntimeAcquired(log, l) == RuntimeRecorded(log, l) + if Follow(log).value.runtime == Some(l) then 1 else 0
  {
    if log != [] { RuntimeBalance(log[..|log| - 1], l); }
  }

  lemma {:induction false} RetryBalance(log: seq<Entry>, l: Lease)
    requires Follow(log).Some?
    ensures RetryReserved(log, l) == RetryReleased(log, l) + if Follow(log).value.retry == Some(l) then 1 else 0
  {
    if log != [] { RetryBalance(log[..|log| - 1], l); }
  }

  lemma {:induction false} IssuedOnce(log: seq<Entry>, l: Lease)
    requires Follow(log).Some?
    ensures TargetAcquired(log, l) + RuntimeAcquired(log, l) + RetryReserved(log, l) ==
      if l < Follow(log).value.issued then 1 else 0
  {
    if log != [] { IssuedOnce(log[..|log| - 1], l); }
  }

  /** A lease is issued once, and what was acquired but not handed back is held. */
  lemma {:induction false} LeaseBalance(log: seq<Entry>, l: Lease)
    requires Follow(log).Some?
    ensures var m := Follow(log).value;
      && TargetAcquired(log, l) == TargetRecorded(log, l) + (if m.target == Some(l) then 1 else 0)
      && RuntimeAcquired(log, l) == RuntimeRecorded(log, l) + (if m.runtime == Some(l) then 1 else 0)
      && RetryReserved(log, l) == RetryReleased(log, l) + (if m.retry == Some(l) then 1 else 0)
      && TargetAcquired(log, l) + RuntimeAcquired(log, l) + RetryReserved(log, l) == if l < m.issued then 1 else 0
  {
    TargetBalance(log, l);
    RuntimeBalance(log, l);
    RetryBalance(log, l);
    IssuedOnce(log, l);
  }

  /** Every target and runtime lease acquired is handed to exactly one record, and
      every retry reservation is released exactly once. */
  lemma LeasesReturned(log: seq<Entry>, l: Lease)
    requires Disciplined(log)
    ensures TargetAcquired(log, l) == TargetRecorded(log, l) <= 1
    ensures RuntimeAcquired(log, l) == RuntimeRecorded(log, l) <= 1
    ensures RetryReserved(log, l) == RetryReleased(log, l) <= 1
  {
    LeaseBalance(log, l);
  }

  /** At any time at most one retry reservation is held. */
  lemma OneReservationAtATime(log: seq<Entry>, n: nat, l: Lease, k: Lease)
    requires Disciplined(log) && n <= |log|
    requires RetryReserved(log[..n], l) > RetryReleased(log[..n], l)
    requires RetryReserved(log[..n], k) > RetryReleased(log[..n], k)
    ensures l == k
  {
    PrefixFollows(log, n);
    LeaseBalance(log[..n], l);
    LeaseBalance(log[..n], k);
  }

  function Starts(log: seq<Entry>): nat {
    if log == [] then 0 else Starts(log[..|log| - 1]) + if log[|log| - 1].Start? then 1 else 0
  }

  function Records(log: seq<Entry>): nat {
    if log == [] then 0 else Records(log[..|log| - 1]) + if log[|log| - 1].Record? then 1 else 0
  }

  function Commits(log: seq<Entry>): nat {
    if log == [] then 0 else Commits(log[..|log| - 1]) + if log[|log| - 1].Commit? then 1 else 0
  }

  lemma {:induction false} Counts(log: seq<Entry>)
    requires Follow(log).Some?
    ensures var m := Follow(log).value;
      && Starts(log) == m.started && Records(log) + (if m.open then 1 else 0) == Starts(log)
      && (m.cancelled ==> m.ended) && Commits(log) == if m.ended && !m.cancelled then 1 else 0
  {
    if log != [] { Counts(log[..|log| - 1]); }
  }

  /** Attempts are started and recorded in turn, once each; the caller gets
      exactly one response, or none at all because it cancelled. */
  lemma AttemptsRecordedOnce(log: seq<Entry>, i: nat)
    requires Disciplined(log) && i < |log|
    ensures Starts(log) == Records(log)
    ensures Commits(log) == if Follow(log).value.cancelled then 0 else 1
    ensures log[i].Start? ==> log[i].attempt == Starts(log[..i]) + 1 && Records(log[..i]) == Starts(log[..i])
    ensures log[i].Record? ==> log[i].attempt == Starts(log[..i]) && Records(log[..i]) + 1 == Starts(log[..i])
  {
    Counts(log);
    PrefixFollows(log, i);
    PrefixFollows(log, i + 1);
    Counts(log[..i]);
    assert log[..i + 1][..i] == log[..i];
  }

  lemma {:induction false} Settled(log: seq<Entry>, i: nat)
    requires Follow(log).Some? && i < |log|
    ensures log[i].Record? && !log[i].willRetry ==> Follow(log).value.settled && !Follow(log).value.open
    ensures log[i].Proxy? ==> Follow(log).value.proxied && Follow(log).value.started == log[i].attempt
    ensures log[i].Proxy? ==> Follow(log).value.settled || Follow(log).value.open
  {
    if i < |log| - 1 { Settled(log[..|log| - 1], i); }
  }

  /** No attempt starts after one that was recorded as the last, nor after the
      upstream response was passed on; that happens at most once, and for the
      last attempt. */
  lemma NothingAfterTheLast(log: seq<Entry>, i: nat, j: nat)
    requires Disciplined(log) && i < j < |log|
    ensures log[i].Record? && !log[i].willRetry ==> !log[j].Start? && !log[j].AcquireTarget?
    ensures log[i].Proxy? ==> !log[j].Start? && !log[j].Proxy? && log[i].attempt == Starts(log)
  {
    PrefixFollows(log, j);
    PrefixFollows(log, j + 1);
    assert log[..j + 1][..j] == log[..j];
    Settled(log[..j], i);
    Settled(log, i);
    Counts(log);
  }

  /** An attempt after the first runs while a retry reservation is held. */
  lemma RetriesAreReserved(log: seq<Entry>, i: nat) returns (l: Lease)
    requires Disciplined(log) && i < |log| && log[i].Start? && log[i].attempt > 1
    ensures RetryReserved(log[..i], l) == RetryReleased(log[..i], l) + 1
  {
    PrefixFollows(log, i + 1);
    PrefixFollows(log, i);
    assert log[..i + 1][..i] == log[..i];
    l := Follow(log[..i]).value.retry.value;
    LeaseBalance(log[..i], l);
  }
}
