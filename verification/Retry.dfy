/** The worker's handling of one ingest event: three attempts with backoff, permanent errors, dead letters. */
module Retry {

  const MAX_ATTEMPTS := 3
  const BACKOFF_SECONDS: seq<nat> := [5, 15, 45]

  datatype BuiltinError = ValueError | FileNotFoundError | KeyError | TypeError | OtherError

  /** A raised exception: the built-in classes it is an instance of, and its class name. */
  datatype Raised = Raised(classes: set<BuiltinError>, name: string)

  /** The result of a pipeline call. A failed call is `marked` if it had written RUNNING before it failed. */
  datatype Attempt = Success | Failure(error: Raised, marked: bool)

  /** How the handling of an event ends: with status DONE or DEAD, or with an exception because the status
      of a failed attempt could not be written. */
  datatype Outcome = Completed | Buried | Escaped

  datatype JobStatus = RUNNING | DONE | FAILED | DEAD

  datatype Event = Event(kind: string, docType: string, action: string, documentId: string, jobId: string)

  const DEAD_KIND := "ingest.document.dead"

  predicate Contains(s: string, part: string) {
    part <= s || (s != "" && Contains(s[1..], part))
  }

  /** `is_non_retryable` */
  predicate IsNonRetryable(e: Raised) {
    e.classes * {ValueError, FileNotFoundError, KeyError, TypeError} != {}
    || Contains(e.name, "FileDataError") || Contains(e.name, "PdfError")
  }

  lemma {:induction false} ContainsMeaning(s: string, part: string)
    ensures Contains(s, part) <==> exists i :: 0 <= i <= |s| && part <= s[i..]
  {
    assert s[0..] == s;
    if s != "" {
      ContainsMeaning(s[1..], part);
      assert forall i :: 0 <= i < |s| ==> s[1..][i..] == s[i + 1..];
      if i :| 0 <= i <= |s| && part <= s[i..] {
        assert i > 0 ==> s[1..][i - 1..] == s[i..];
      }
    }
  }

  /** The permanent errors: four classes of built-in errors, and errors of the PDF library, known by their names. */
  lemma PermanentErrors(e: Raised)
    ensures IsNonRetryable(e) <==>
      || ValueError in e.classes || FileNotFoundError in e.classes || KeyError in e.classes || TypeError in e.classes
      || (exists i :: 0 <= i <= |e.name| && "FileDataError" <= e.name[i..])
      || (exists i :: 0 <= i <= |e.name| && "PdfError" <= e.name[i..])
  {
    ContainsMeaning(e.name, "FileDataError");
    ContainsMeaning(e.name, "PdfError");
    var permanent := {ValueError, FileNotFoundError, KeyError, TypeError};
    assert forall c :: c in e.classes * permanent <==> c in e.classes && c in permanent;
  }

  predicate IsTransient(a: Attempt) { a.Failure? && !IsNonRetryable(a.error) }

  /** The first `n` attempts fail with errors that may pass. */
  predicate Retried(attempts: nat -> Attempt, n: nat) {
    forall i :: 0 <= i < n ==> IsTransient(attempts(i))
  }

  /** The statuses an attempt writes first. */
  function Start(a: Attempt): seq<JobStatus> { if a.Failure? && !a.marked then [] else [RUNNING] }

  /** The statuses of the first `n` attempts, which failed. */
  function Tried(attempts: nat -> Attempt, n: nat): seq<JobStatus> {
    if n == 0 then [] else Tried(attempts, n - 1) + Start(attempts(n - 1)) + [FAILED]
  }

  function TotalBackoff(n: nat): nat
    requires n <= |BACKOFF_SECONDS|
  {
    if n == 0 then 0 else TotalBackoff(n - 1) + BACKOFF_SECONDS[n - 1]
  }

  /** How the handling ends after `n` retries; `stores(i)` says whether the status write after the failure of
      attempt `i` succeeds. */
  ghost predicate EndsAfter(attempts: nat -> Attempt, stores: nat -> bool, n: nat, end: Outcome) {
    && n < 3 && Retried(attempts, n) && (forall i :: 0 <= i < n ==> stores(i))
    && (end == Completed <==> attempts(n) == Success)
    && (end == Escaped <==> attempts(n).Failure? && !stores(n))
    && (end == Buried ==> IsNonRetryable(attempts(n).error) || n == 2)
  }

  /** `handle_with_retry` for an event; `attempts` are the results of the pipeline calls, and `publishes` says
      whether the dead letter can be sent. Returned are the statuses the job record went through, the dead
      letters, the seconds slept, and whether an exception escapes. */
  method HandleWithRetry(event: Event, attempts: nat -> Attempt, stores: nat -> bool, publishes: bool)
      returns (history: seq<JobStatus>, deadLetters: seq<Event>, slept: nat, raised: bool)
    // an event of an unknown type is skipped
    ensures event.docType !in {"manual", "drawing"} ==>
      history == [] && deadLetters == [] && slept == 0 && !raised
    // otherwise the statuses are those of the attempts; a dead letter is sent exactly with a final DEAD
    ensures event.docType in {"manual", "drawing"} ==>
      exists n: nat, end :: EndsAfter(attempts, stores, n, end)
        && history == Tried(attempts, n) + Start(attempts(n))
                      + (if end == Completed then [DONE] else if end == Buried then [DEAD] else [])
        && deadLetters == (if end == Buried && publishes then [event.(kind := "ingest.document.dead")] else [])
        && slept == [0, 5, 20][n]
        && (raised <==> end == Escaped || (end == Buried && !publishes))
  {
    history, deadLetters, slept, raised := [], [], 0, false;
    if event.docType !in {"manual", "drawing"} { return; }
    for i := 0 to MAX_ATTEMPTS
      invariant deadLetters == [] && !raised
      invariant i < MAX_ATTEMPTS ==>
        Retried(attempts, i) && (forall j :: 0 <= j < i ==> stores(j))
        && history == Tried(attempts, i) && slept == TotalBackoff(i)
      invariant i == MAX_ATTEMPTS ==>
        Retried(attempts, i) && (forall j :: 0 <= j < i - 1 ==> stores(j))
        && history == Tried(attempts, i - 1) + Start(attempts(i - 1)) && slept == TotalBackoff(i - 1)
    {
      history := history + Start(attempts(i));
      if attempts(i) == Success {
        assert EndsAfter(attempts, stores, i, Completed);
        history := history + [DONE];
        return;
      }
      if IsNonRetryable(attempts(i).error) {
        history, deadLetters, raised := Bury(event, history, stores(i), publishes);
        assert EndsAfter(attempts, stores, i, if stores(i) then Buried else Escaped);
        return;
      }
      if i < MAX_ATTEMPTS - 1 {
        if !stores(i) {
          assert EndsAfter(attempts, stores, i, Escaped);
          raised := true;
          return;
        }
        history := history + [FAILED];
        slept := slept + BACKOFF_SECONDS[i];
      }
    }
    var n := MAX_ATTEMPTS - 1;
    assert IsTransient(attempts(n));
    assert EndsAfter(attempts, stores, n, if stores(n) then Buried else Escaped);
    history, deadLetters, raised := Bury(event, history, stores(n), publishes);
  }

  /** The status DEAD is written, then the dead letter is sent. */
  method Bury(event: Event, before: seq<JobStatus>, stores: bool, publishes: bool)
      returns (history: seq<JobStatus>, deadLetters: seq<Event>, raised: bool)
    ensures history == before + (if stores then [DEAD] else [])
    ensures deadLetters == if stores && publishes then [event.(kind := DEAD_KIND)] else []
    ensures raised <==> !(stores && publishes)
  {
    if !stores { return before, [], true; }
    history := before + [DEAD];
    if !publishes { return history, [], true; }
    return history, [event.(kind := DEAD_KIND)], false;
  }

  /** The outcome is total and unique: the attempts and status writes determine the retries and the end. */
  lemma OutcomeUnique(attempts: nat -> Attempt, stores: nat -> bool)
    ensures exists n, end :: EndsAfter(attempts, stores, n, end)
    ensures forall n, end, m, other ::
      EndsAfter(attempts, stores, n, end) && EndsAfter(attempts, stores, m, other) ==> n == m && end == other
  {
    var first := if Stops(attempts, stores, 0) then 0 else if Stops(attempts, stores, 1) then 1 else 2;
    var last := if attempts(first) == Success then Completed else if stores(first) then Buried else Escaped;
    assert EndsAfter(attempts, stores, first, last);
    forall n, end, m, other | EndsAfter(attempts, stores, n, end) && EndsAfter(attempts, stores, m, other)
      ensures n == m && end == other
    {
      assert n < m ==> IsTransient(attempts(n)) && stores(n);
      assert m < n ==> IsTransient(attempts(m)) && stores(m);
    }
  }

  /** The handling ends with attempt `n` if it gets that far. */
  predicate Stops(attempts: nat -> Attempt, stores: nat -> bool, n: nat) {
    !IsTransient(attempts(n)) || !stores(n) || n == MAX_ATTEMPTS - 1
  }

  /** A permanent error ends the handling on its own attempt, whichever it is; the backoff until then
      is 0, 5 or 20 seconds, so the third backoff constant is never used. */
  lemma PermanentErrorEnds(attempts: nat -> Attempt, stores: nat -> bool, n: nat)
    requires n < MAX_ATTEMPTS && Retried(attempts, n) && (forall i :: 0 <= i < n ==> stores(i))
    requires attempts(n).Failure? && IsNonRetryable(attempts(n).error)
    ensures forall m, end :: EndsAfter(attempts, stores, m, end) ==>
      m == n && end == (if stores(n) then Buried else Escaped)
    ensures TotalBackoff(n) == [0, 5, 20][n]
  {
    assert EndsAfter(attempts, stores, n, if stores(n) then Buried else Escaped);
    OutcomeUnique(attempts, stores);
    assert TotalBackoff(1) == 5 && TotalBackoff(2) == 20;
  }

  /** `n` times FAILED and RUNNING. */
  function Retries(n: nat): (r: seq<JobStatus>)
    ensures |r| == 2 * n
  {
    if n == 0 then [] else Retries(n - 1) + [FAILED, RUNNING]
  }

  lemma {:induction false} TriedLength(attempts: nat -> Attempt, n: nat)
    ensures |Tried(attempts, n)| <= 2 * n
    ensures |Tried(attempts, n)| == 2 * n ==> forall i :: 0 <= i < n ==> Start(attempts(i)) == [RUNNING]
  {
    if n > 0 {
      TriedLength(attempts, n - 1);
    }
  }

  lemma {:induction false} MarkedHistory(attempts: nat -> Attempt, n: nat)
    requires forall i :: 0 <= i <= n ==> Start(attempts(i)) == [RUNNING]
    ensures Tried(attempts, n) + Start(attempts(n)) == [RUNNING] + Retries(n)
  {
    if n > 0 {
      MarkedHistory(attempts, n - 1);
      assert Tried(attempts, n) + [RUNNING] == (Tried(attempts, n - 1) + [RUNNING]) + [FAILED, RUNNING];
      assert [RUNNING] + Retries(n) == ([RUNNING] + Retries(n - 1)) + [FAILED, RUNNING];
    }
  }

  /** The statuses are RUNNING, a pair FAILED, RUNNING for each of the at most two retries, and the final status,
      if and only if every attempt gets as far as writing RUNNING. */
  lemma HistoryShape(attempts: nat -> Attempt, n: nat)
    ensures Tried(attempts, n) + Start(attempts(n)) == [RUNNING] + Retries(n)
      <==> forall i :: 0 <= i <= n ==> attempts(i) == Success || attempts(i).marked
  {
    assert forall i :: 0 <= i <= n ==>
      (Start(attempts(i)) == [RUNNING] <==> attempts(i) == Success || attempts(i).marked);
    if forall i :: 0 <= i <= n ==> Start(attempts(i)) == [RUNNING] {
      MarkedHistory(attempts, n);
    }
    if Tried(attempts, n) + Start(attempts(n)) == [RUNNING] + Retries(n) {
      LengthMarks(attempts, n);
    }
  }

  lemma LengthMarks(attempts: nat -> Attempt, n: nat)
    requires |Tried(attempts, n) + Start(attempts(n))| == 2 * n + 1
    ensures forall i :: 0 <= i <= n ==> Start(attempts(i)) == [RUNNING]
  {
    TriedLength(attempts, n);
  }
}
