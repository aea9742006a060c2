/** The ingestion protocol of one document: API calls and the worker as interleaved atomic steps over the
    record store, the file, the keyed event queue, the row index, and the dead-letter queue.
    Events are keyed by document, so one worker handles the events of a document in order. */
module Ingestion {
  import opened IndexContent
  import opened Options
  import Retry

  datatype Status = PENDING | PROCESSING | DONE | FAILED

  datatype Record = Record(src: Source, status: Status, count: nat)

  datatype Action = Upsert | Delete

  /** An API call that found its record, by the store write or publication it does next. */
  datatype Call =
    | DeletingFile
    | DeletingRecord
    | Reingesting
    | Updating(change: Change)
    | Revising(revision: nat)
    | Publishing(action: Action)

  /** The next pipeline call of the worker. `First` and `Second` mark the status and find the record,
      in this order for manuals and in the other order for drawings. */
  datatype Stage =
    | First | Second | Reading | Embedding | Clearing | Inserting | Committing | Finishing
    | Failing(permanent: bool)

  /** `src` is what the current attempt has read; `marked` says that a status was written for this event. */
  datatype Worker = Idle | Busy(action: Action, attempt: nat, stage: Stage, src: Option<Source>, marked: bool)

  /** `dead` are the dead letters and `lost` the events whose publication failed, both ever since; `missed`
      says that one of them was an upsert after the worker last found the record, and `found` is the source it
      found then. */
  datatype State = State(setup: Setup, created: bool, record: Option<Record>, file: bool, rows: seq<Row>,
                         calls: multiset<Call>, queue: seq<Action>, worker: Worker,
                         dead: seq<Action>, lost: seq<Action>, missed: bool, found: Option<Source>)

  /** The result of a pipeline call; a failed index call may have had its effect. */
  datatype Reply = Good | Bad(permanent: bool, applied: bool)

  datatype Step =
    | Create(src: Source)
    | Begin(call: Call)
    | Advance(call: Call)
    | Abort(call: Call)
    | Take
    | Work(reply: Reply)

  // ---------------------------------------------------------------- API steps

  function Initial(setup: Setup): State {
    State(setup, false, None, false, [], multiset{}, [], Idle, [], [], false, None)
  }

  function Replace(s: State, call: Call, next: Call): State { s.(calls := s.calls - multiset{call} + multiset{next}) }

  function End(s: State, call: Call): State { s.(calls := s.calls - multiset{call}) }

  /** Upload or registration: file and record are stored, the upsert event is about to be published. */
  function DoCreate(s: State, src: Source): State {
    if s.created || !s.setup.fits(src) then s
    else
      s.(created := true, file := true, record := Some(Record(src, PENDING, 0)),
         calls := s.calls + multiset{Publishing(Upsert)})
  }

  /** An API call finds its record; an update must change something, and `add_revision` remembers the
      revision it read. */
  function DoBegin(s: State, call: Call): State {
    if s.record.None? then s
    else
      match call
      case DeletingFile => s.(calls := s.calls + multiset{call})
      case Reingesting => if s.setup.kind == Manual then s.(calls := s.calls + multiset{call}) else s
      case Updating(c) =>
        if s.setup.kind == Drawing && c != NO_CHANGE then s.(calls := s.calls + multiset{call}) else s
      case Revising(n) =>
        var src := s.record.value.src;
        if src.Card? && n == src.meta.revision + 1 then s.(calls := s.calls + multiset{call}) else s
      case DeletingRecord => s
      case Publishing(_) => s
  }

  /** A call's record update with the status reset; without a record the call fails. */
  function DoReset(s: State, call: Call, src: Source): State
    requires s.record.Some?
  {
    Replace(s.(record := Some(s.record.value.(src := src, status := PENDING))), call, Publishing(Upsert))
  }

  function DoAdvance(s: State, call: Call): State {
    if call !in s.calls then s
    else
      match call
      case DeletingFile => Replace(s.(file := false), call, DeletingRecord)
      case DeletingRecord =>
        if s.record.None? then End(s, call) else Replace(s.(record := None), call, Publishing(Delete))
      case Reingesting => if s.record.None? then End(s, call) else DoReset(s, call, s.record.value.src)
      case Updating(c) =>
        if s.record.None? then End(s, call)
        else
          var src := s.record.value.src;
          DoReset(s, call, if src.Card? then Card(ChangeMeta(src.meta, c)) else src)
      case Revising(n) =>
        if s.record.None? then End(s, call)
        else
          var src := s.record.value.src;
          DoReset(s, call, if src.Card? then Card(src.meta.(revision := n)) else src)
      case Publishing(a) => End(s, call).(queue := s.queue + [a])
  }

  /** A call fails between two writes; an event that was about to be published is lost. */
  function DoAbort(s: State, call: Call): State {
    if call !in s.calls then s
    else if call.Publishing? then
      End(s, call).(lost := s.lost + [call.action], missed := s.missed || call.action == Upsert)
    else End(s, call)
  }

  // ---------------------------------------------------------------- worker steps

  function DoTake(s: State): State {
    if !s.worker.Idle? || s.queue == [] then s
    else s.(queue := s.queue[1..], worker := Busy(s.queue[0], 1, First, None, false))
  }

  function SetStatus(s: State, status: Status): State {
    if s.record.None? then s else s.(record := Some(s.record.value.(status := status)))
  }

  function Goto(s: State, stage: Stage): State
    requires s.worker.Busy?
  {
    s.(worker := s.worker.(stage := stage))
  }

  function Mark(s: State, next: Stage): State
    requires s.worker.Busy?
  {
    SetStatus(s, PROCESSING).(worker := s.worker.(stage := next, marked := true))
  }

  function Find(s: State, next: Stage): State
    requires s.worker.Busy? && s.record.Some?
  {
    var src := Some(s.record.value.src);
    s.(worker := s.worker.(stage := next, src := src), missed := false, found := src)
  }

  /** The rows the current attempt inserts. */
  function NewRows(s: State): seq<Row> {
    if s.worker.Busy? && s.worker.src.Some? then s.setup.rows(s.worker.src.value) else []
  }

  /** Whether the next pipeline call can succeed. */
  predicate CanSucceed(s: State)
    requires s.worker.Busy?
  {
    match s.worker.stage
    case First => s.worker.action == Delete || s.record.Some?
    case Second => s.record.Some?
    case Reading => s.file && NewRows(s) != []
    case Committing => s.record.Some?
    case _ => true
  }

  /** Whether the next pipeline call can fail: a status write fails only when the record is gone,
      and job records are never gone. */
  predicate CanFail(s: State)
    requires s.worker.Busy?
  {
    match s.worker.stage
    case First => s.worker.action == Upsert
    case Second => s.setup.kind == Manual || s.record.None?
    case Committing => s.record.None?
    case Finishing => false
    case Failing(_) => false
    case _ => true
  }

  function Succeed(s: State): State
    requires s.worker.Busy? && CanSucceed(s)
  {
    var w := s.worker;
    match w.stage
    case First =>
      if w.action == Delete then Goto(s, Clearing)
      else if s.setup.kind == Manual then Mark(s, Second) else Find(s, Second)
    case Second => if s.setup.kind == Manual then Find(s, Reading) else Mark(s, Embedding)
    case Reading => Goto(s, Embedding)
    case Embedding => Goto(s, Clearing)
    case Clearing => Goto(s.(rows := []), if w.action == Delete then Finishing else Inserting)
    case Inserting => Goto(s.(rows := s.rows + NewRows(s)), Committing)
    case Committing =>
      var count := if s.setup.kind == Manual then |NewRows(s)| else s.record.value.count;
      Goto(s.(record := Some(s.record.value.(status := DONE, count := count))), Finishing)
    case Finishing => s.(worker := Idle)
    case Failing(permanent) =>
      var t := SetStatus(s, FAILED);
      if permanent || w.attempt >= Retry.MAX_ATTEMPTS then
        t.(worker := Idle, dead := s.dead + [w.action], missed := s.missed || w.action == Upsert)
      else t.(worker := Busy(w.action, w.attempt + 1, First, None, true))
  }

  function Fail(s: State, permanent: bool, applied: bool): State
    requires s.worker.Busy?
  {
    var rows := if !applied then s.rows
                else if s.worker.stage == Clearing then []
                else if s.worker.stage == Inserting then s.rows + NewRows(s)
                else s.rows;
    Goto(s.(rows := rows), Failing(permanent))
  }

  function DoWork(s: State, o: Reply): State {
    if !s.worker.Busy? then s
    else
      match o
      case Good => if CanSucceed(s) then Succeed(s) else s
      case Bad(permanent, applied) => if CanFail(s) then Fail(s, permanent, applied) else s
  }

  function Apply(s: State, step: Step): State {
    match step
    case Create(src) => DoCreate(s, src)
    case Begin(call) => DoBegin(s, call)
    case Advance(call) => DoAdvance(s, call)
    case Abort(call) => DoAbort(s, call)
    case Take => DoTake(s)
    case Work(o) => DoWork(s, o)
  }

  /** The state after any interleaving of steps; a step that is not possible changes nothing. */
  function Run(setup: Setup, steps: seq<Step>): State {
    if steps == [] then Initial(setup) else Apply(Run(setup, steps[..|steps| - 1]), steps[|steps| - 1])
  }
}
