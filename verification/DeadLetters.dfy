/** When events are given up: what a run without failures promises, and what it takes to dead-letter or lose an
    event. */
module DeadLetters {
  import opened Options
  import opened Ingestion
  import opened IndexContent
  import opened IngestionSafety

  /** No pipeline call fails and no API call breaks off in this step. */
  predicate Undisturbed(step: Step) { !step.Abort? && !(step.Work? && step.reply.Bad?) }

  /** Nothing has been given up. */
  predicate NothingGivenUp(s: State) {
    s.dead == [] && s.lost == [] && !s.missed && (s.worker.Busy? ==> !s.worker.stage.Failing?)
  }

  lemma UndisturbedStep(s: State, step: Step)
    requires NothingGivenUp(s) && Undisturbed(step)
    ensures NothingGivenUp(Apply(s, step))
  {
  }

  /** A run without failing calls and broken-off API calls gives nothing up. */
  lemma {:induction false} UndisturbedRun(setup: Setup, steps: seq<Step>)
    requires forall i :: 0 <= i < |steps| ==> Undisturbed(steps[i])
    ensures NothingGivenUp(Run(setup, steps))
  {
    if steps != [] {
      UndisturbedRun(setup, steps[..|steps| - 1]);
      UndisturbedStep(Run(setup, steps[..|steps| - 1]), steps[|steps| - 1]);
    }
  }

  /** Without failures every event does its work: no dead letter, no lost event, and whenever the system comes to
      rest, an existing document is DONE and indexed from its current source, and a deleted one has no rows. */
  lemma UndisturbedSettles(kind: Kind, steps: seq<Step>)
    requires forall i :: 0 <= i < |steps| ==> Undisturbed(steps[i])
    ensures
      var s := Run(Pipelines(kind), steps);
      && s.dead == [] && s.lost == []
      && (AtRest(s) && s.record.Some? ==>
            s.record.value.status == DONE && Workable(s.record.value.src) && s.rows == Rows(s.record.value.src))
      && (AtRest(s) && s.record.None? ==> s.rows == [])
  {
    UndisturbedRun(Pipelines(kind), steps);
    SettledIsConsistent(kind, steps);
  }

  // ---------------------------------------------------------------- what it takes to give an event up

  /** The failures of the event in work: for each failing call since the worker took it, whether the error was
      permanent. A step that changes nothing was not possible. */
  ghost function Failures(setup: Setup, steps: seq<Step>): seq<bool> {
    if steps == [] then []
    else
      var init, step := steps[..|steps| - 1], steps[|steps| - 1];
      if Run(setup, steps) == Run(setup, init) then Failures(setup, init)
      else if step.Take? then []
      else if step.Work? && step.reply.Bad? then Failures(setup, init) + [step.reply.permanent]
      else Failures(setup, init)
  }

  /** The attempts are counted: all failures but the last were temporary and led to a new attempt. */
  predicate Counted(s: State, failures: seq<bool>) {
    s.worker.Busy? ==>
      && 1 <= s.worker.attempt <= 3
      && |failures| == (if s.worker.stage.Failing? then s.worker.attempt else s.worker.attempt - 1)
      && (s.worker.stage.Failing? ==> failures[|failures| - 1] == s.worker.stage.permanent)
      && (forall i :: 0 <= i < s.worker.attempt - 1 ==> !failures[i])
  }

  lemma CountedWork(s: State, o: Reply, failures: seq<bool>)
    requires Counted(s, failures) && DoWork(s, o) != s
    ensures Counted(DoWork(s, o), if o.Bad? then failures + [o.permanent] else failures)
  {
  }

  lemma CountedStep(s: State, step: Step, failures: seq<bool>)
    requires Counted(s, failures) && !step.Work? && !step.Take?
    ensures Counted(Apply(s, step), failures)
  {
  }

  lemma {:induction false} FailuresCounted(setup: Setup, steps: seq<Step>)
    ensures Counted(Run(setup, steps), Failures(setup, steps))
  {
    if steps != [] {
      var init, step := steps[..|steps| - 1], steps[|steps| - 1];
      FailuresCounted(setup, init);
      if Run(setup, steps) != Run(setup, init) {
        if step.Work? {
          CountedWork(Run(setup, init), step.reply, Failures(setup, init));
        } else if !step.Take? {
          CountedStep(Run(setup, init), step, Failures(setup, init));
        }
      }
    }
  }

  /** The event in work has failed for good: with a permanent error, or for the third time. */
  predicate Hopeless(failures: seq<bool>) {
    failures != [] && (failures[|failures| - 1] || |failures| == 3)
  }

  /** The worker deals with a failed attempt in this step. */
  predicate AfterFailure(s: State, step: Step) {
    s.worker.Busy? && s.worker.stage.Failing? && step == Work(Good)
  }

  /** After a failed attempt, an existing record is FAILED, and the event is given up if it is hopeless and tried
      once more if it is not. */
  ghost predicate GivesUp(s: State, t: State, failures: seq<bool>)
    requires s.worker.Busy?
  {
    && (s.record.Some? ==> t.record == Some(s.record.value.(status := FAILED)))
    && t.dead == (if Hopeless(failures) then s.dead + [s.worker.action] else s.dead)
    && t.worker == if Hopeless(failures) then Idle else Busy(s.worker.action, |failures| + 1, First, None, true)
  }

  lemma FailureHandled(s: State, failures: seq<bool>)
    requires Counted(s, failures) && s.worker.Busy? && s.worker.stage.Failing?
    ensures GivesUp(s, DoWork(s, Good), failures)
  {
  }

  lemma DeadKept(s: State, step: Step)
    requires !AfterFailure(s, step)
    ensures Apply(s, step).dead == s.dead
  {
  }

  lemma LostOnlyByAbort(s: State, step: Step)
    ensures
      var t := Apply(s, step);
      t.lost == if step.Abort? && step.call.Publishing? && step.call in s.calls then s.lost + [step.call.action]
                else s.lost
  {
  }

  /** Over every run, an event is dead-lettered exactly when its handling has failed with a permanent error or for
      the third time, and until then every failure leads to a new attempt; a failed attempt sets an existing record
      to FAILED. An event is lost exactly when its publication fails. */
  lemma GivenUpOnlyWhenHopeless(setup: Setup, steps: seq<Step>, step: Step)
    ensures
      var s, t := Run(setup, steps), Run(setup, steps + [step]);
      if AfterFailure(s, step) then GivesUp(s, t, Failures(setup, steps)) else t.dead == s.dead
    ensures
      var s, t := Run(setup, steps), Run(setup, steps + [step]);
      t.lost == if step.Abort? && step.call.Publishing? && step.call in s.calls then s.lost + [step.call.action]
                else s.lost
  {
    assert (steps + [step])[..|steps|] == steps;
    FailuresCounted(setup, steps);
    LostOnlyByAbort(Run(setup, steps), step);
    if AfterFailure(Run(setup, steps), step) {
      FailureHandled(Run(setup, steps), Failures(setup, steps));
    } else {
      DeadKept(Run(setup, steps), step);
    }
  }
}
