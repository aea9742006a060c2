/** What every interleaving of API calls and worker steps keeps. */
module IngestionSafety {
  import opened Options
  import opened Text
  import opened PdfParser
  import opened Chunker
  import opened ManualText
  import opened IndexContent
  import opened Ingestion

  /** An event of this kind is about to be published or queued. */
  predicate OnItsWay(s: State, a: Action) { Publishing(a) in s.calls || a in s.queue }

  /** An upsert is on its way, or was lost or dead-lettered since the worker last found the record. */
  predicate UpsertDue(s: State) { OnItsWay(s, Upsert) || s.missed }

  predicate InWork(s: State, a: Action) { s.worker.Busy? && s.worker.action == a }

  /** The worker handles an upsert and has not yet written DONE. */
  predicate Uncommitted(s: State) { InWork(s, Upsert) && s.worker.stage != Finishing }

  /** The current attempt of an upsert has read the record. */
  predicate HasRead(s: State) {
    InWork(s, Upsert)
    && (s.worker.stage in {Reading, Embedding, Clearing, Inserting, Committing, Finishing}
        || (s.setup.kind == Drawing && s.worker.stage == Second))
  }

  /** The current attempt of an upsert has passed its first check that the record exists, and may still insert. */
  predicate MayInsert(s: State) {
    InWork(s, Upsert) && s.worker.stage in {Second, Reading, Embedding, Clearing, Inserting}
  }

  predicate DeletePending(s: State) {
    OnItsWay(s, Delete) || InWork(s, Delete) || Delete in s.dead || Delete in s.lost
  }

  /** What was read is still the record's source, unless a newer upsert event is on its way. */
  predicate StillCurrent(s: State, src: Source) {
    s.record.Some? ==> src == s.record.value.src || (s.setup.kind == Drawing && UpsertDue(s))
  }

  /** The index holds exactly the rows of the record's current source. */
  predicate Indexed(s: State)
    requires s.record.Some?
  {
    && s.rows == s.setup.rows(s.record.value.src)
    && (s.setup.kind == Manual ==> s.rows != [] && s.record.value.count == |s.rows|)
  }

  predicate ReadOk(s: State) {
    HasRead(s) ==>
      s.worker.src.Some? && s.setup.fits(s.worker.src.value)
      && StillCurrent(s, s.worker.src.value)
      && (s.setup.kind == Manual && s.worker.stage != Reading ==> NewRows(s) != [])
  }

  /** What the current attempt has read is what was found last, and a DONE document outside of an upsert is
      indexed from it. */
  predicate FoundOk(s: State) {
    && (HasRead(s) ==> s.found == s.worker.src)
    && (s.found.Some? ==> s.setup.fits(s.found.value))
    && (s.record.Some? && s.record.value.status == DONE && !Uncommitted(s) ==>
          s.found.Some? && s.rows == s.setup.rows(s.found.value))
  }

  predicate RowsOk(s: State) {
    && (InWork(s, Upsert) && s.worker.stage == Inserting ==> s.rows == [])
    && (InWork(s, Upsert) && s.worker.stage in {Committing, Finishing} ==> s.rows == NewRows(s))
    && (InWork(s, Delete) && s.worker.stage == Finishing ==> s.rows == [])
    && DeleteOnTrack(s)
  }

  /** A delete event goes through the stages of a delete. */
  predicate DeleteOnTrack(s: State) {
    InWork(s, Delete) ==> s.worker.stage in {First, Clearing, Finishing} || s.worker.stage.Failing?
  }

  predicate MarkOk(s: State) {
    InWork(s, Upsert) ==>
      && (s.setup.kind == Manual && s.worker.stage == Second ==> s.worker.marked)
      && (s.worker.stage in {Reading, Embedding, Clearing, Inserting, Committing} ==> s.worker.marked)
      && (s.worker.marked && s.record.Some? && s.worker.stage != Finishing ==> s.record.value.status != DONE)
  }

  predicate RecordOk(s: State) {
    s.record.Some? ==>
      s.created && s.setup.fits(s.record.value.src) && !DeletePending(s)
  }

  predicate Agreement(s: State)
  {
    s.record.Some? && s.record.value.status == DONE ==>
      Indexed(s) || (s.setup.kind == Drawing && (UpsertDue(s) || Uncommitted(s)))
  }

  predicate Progress(s: State) {
    s.record.Some? && s.record.value.status != DONE ==> UpsertDue(s) || Uncommitted(s)
  }

  predicate NoOrphans(s: State) {
    s.created && s.record.None? && (s.rows != [] || MayInsert(s)) ==> DeletePending(s)
  }

  /** Drawings have cards and manuals have files. */
  ghost predicate SetupOk(setup: Setup) {
    forall src :: setup.fits(src) ==> (src.File? <==> setup.kind == Manual)
  }

  /** Every card fits a drawing. */
  ghost predicate CardsFit(setup: Setup) {
    setup.kind == Drawing ==> forall m :: setup.fits(Card(m))
  }

  ghost predicate Inv(s: State) {
    && (!s.created ==> s == Initial(s.setup))
    && ReadOk(s) && FoundOk(s) && RowsOk(s) && MarkOk(s) && RecordOk(s) && Agreement(s) && Progress(s) && NoOrphans(s)
  }

  lemma CreateKeeps(s: State, src: Source)
    requires Inv(s)
    ensures Inv(DoCreate(s, src))
  {
  }

  lemma BeginKeeps(s: State, call: Call)
    requires Inv(s)
    ensures Inv(DoBegin(s, call))
  {
  }

  /** A record update that resets the status and goes on to publish an upsert. */
  lemma ResetKeeps(s: State, call: Call, src: Source)
    requires Inv(s) && call in s.calls && !call.Publishing? && s.record.Some?
    requires s.setup.fits(src)
    requires s.setup.kind == Manual ==> src == s.record.value.src
    ensures Inv(DoReset(s, call, src))
  {
    var t := DoReset(s, call, src);
    assert OnItsWay(t, Upsert);
    assert OnItsWay(t, Delete) ==> OnItsWay(s, Delete);
  }

  lemma RemoveKeeps(s: State)
    requires Inv(s) && DeletingRecord in s.calls && s.record.Some?
    ensures Inv(Replace(s.(record := None), DeletingRecord, Publishing(Delete)))
  {
    assert OnItsWay(Replace(s.(record := None), DeletingRecord, Publishing(Delete)), Delete);
  }

  lemma PublishKeeps(s: State, a: Action)
    requires Inv(s) && Publishing(a) in s.calls
    ensures Inv(End(s, Publishing(a)).(queue := s.queue + [a]))
  {
    var t := End(s, Publishing(a)).(queue := s.queue + [a]);
    assert forall b :: OnItsWay(t, b) <==> OnItsWay(s, b);
  }

  lemma EndKeeps(s: State, call: Call)
    requires Inv(s) && call in s.calls && !call.Publishing?
    ensures Inv(End(s, call))
  {
    assert forall b :: OnItsWay(End(s, call), b) <==> OnItsWay(s, b);
  }

  lemma FileKeeps(s: State)
    requires Inv(s) && DeletingFile in s.calls
    ensures Inv(Replace(s.(file := false), DeletingFile, DeletingRecord))
  {
    assert forall b :: OnItsWay(Replace(s.(file := false), DeletingFile, DeletingRecord), b) <==> OnItsWay(s, b);
  }

  lemma AdvanceKeeps(s: State, call: Call)
    requires Inv(s) && SetupOk(s.setup) && CardsFit(s.setup)
    ensures Inv(DoAdvance(s, call))
  {
    if call in s.calls {
      match call
      case DeletingFile => FileKeeps(s);
      case DeletingRecord =>
        if s.record.None? { EndKeeps(s, call); } else { RemoveKeeps(s); }
      case Publishing(a) => PublishKeeps(s, a);
      case Reingesting =>
        if s.record.None? { EndKeeps(s, call); } else { ResetKeeps(s, call, s.record.value.src); }
      case Updating(c) =>
        if s.record.None? {
          EndKeeps(s, call);
        } else {
          var src := s.record.value.src;
          ResetKeeps(s, call, if src.Card? then Card(ChangeMeta(src.meta, c)) else src);
        }
      case Revising(n) =>
        if s.record.None? {
          EndKeeps(s, call);
        } else {
          var src := s.record.value.src;
          ResetKeeps(s, call, if src.Card? then Card(src.meta.(revision := n)) else src);
        }
    }
  }

  lemma LoseKeeps(s: State, a: Action)
    requires Inv(s) && Publishing(a) in s.calls
    ensures Inv(DoAbort(s, Publishing(a)))
  {
    var t := DoAbort(s, Publishing(a));
    assert forall b :: OnItsWay(t, b) ==> OnItsWay(s, b);
    assert forall b :: OnItsWay(s, b) && b != a ==> OnItsWay(t, b);
  }

  lemma AbortKeeps(s: State, call: Call)
    requires Inv(s)
    ensures Inv(DoAbort(s, call))
  {
    if call in s.calls {
      if call.Publishing? { LoseKeeps(s, call.action); } else { EndKeeps(s, call); }
    }
  }

  lemma TakeKeeps(s: State)
    requires Inv(s)
    ensures Inv(DoTake(s))
  {
  }

  lemma ReadKeeps(s: State)
    requires Inv(s) && s.worker.Busy? && CanSucceed(s) && s.worker.stage in {First, Second, Reading, Embedding}
    ensures Inv(Succeed(s))
  {
    assert forall a :: OnItsWay(Succeed(s), a) <==> OnItsWay(s, a);
  }

  lemma WriteKeeps(s: State)
    requires Inv(s) && s.worker.Busy? && CanSucceed(s) && s.worker.stage in {Clearing, Inserting, Committing}
    ensures Inv(Succeed(s))
  {
    assert forall a :: OnItsWay(Succeed(s), a) <==> OnItsWay(s, a);
  }

  lemma FinishKeeps(s: State)
    requires Inv(s) && s.worker.Busy? && s.worker.stage == Finishing
    ensures Inv(Succeed(s))
  {
    assert forall a :: OnItsWay(Succeed(s), a) <==> OnItsWay(s, a);
  }

  lemma RetryKeeps(s: State)
    requires Inv(s) && s.worker.Busy? && s.worker.stage.Failing? && Succeed(s).worker.Busy?
    ensures Inv(Succeed(s))
  {
    assert forall a :: OnItsWay(Succeed(s), a) <==> OnItsWay(s, a);
  }

  lemma GiveUpKeeps(s: State)
    requires Inv(s) && s.worker.Busy? && s.worker.stage.Failing? && Succeed(s).worker.Idle?
    ensures Inv(Succeed(s))
  {
    assert forall a :: OnItsWay(Succeed(s), a) <==> OnItsWay(s, a);
  }

  lemma SucceedKeeps(s: State)
    requires Inv(s) && s.worker.Busy? && CanSucceed(s)
    ensures Inv(Succeed(s))
  {
    if s.worker.stage in {First, Second, Reading, Embedding} {
      ReadKeeps(s);
    } else if s.worker.stage in {Clearing, Inserting, Committing} {
      WriteKeeps(s);
    } else if s.worker.stage == Finishing {
      FinishKeeps(s);
    } else if Succeed(s).worker.Busy? {
      RetryKeeps(s);
    } else {
      GiveUpKeeps(s);
    }
  }

  lemma FailKeeps(s: State, permanent: bool, applied: bool)
    requires Inv(s) && s.worker.Busy? && CanFail(s)
    ensures Inv(Fail(s, permanent, applied))
  {
  }

  lemma StepKeeps(s: State, step: Step)
    requires Inv(s) && SetupOk(s.setup) && CardsFit(s.setup)
    ensures Inv(Apply(s, step))
  {
    match step
    case Create(src) => CreateKeeps(s, src);
    case Begin(call) => BeginKeeps(s, call);
    case Advance(call) => AdvanceKeeps(s, call);
    case Abort(call) => AbortKeeps(s, call);
    case Take => TakeKeeps(s);
    case Work(o) =>
      if s.worker.Busy? {
        if o.Good? && CanSucceed(s) { SucceedKeeps(s); }
        if o.Bad? && CanFail(s) { FailKeeps(s, o.permanent, o.applied); }
      }
  }

  lemma StepKeepsSetup(s: State, step: Step)
    ensures Apply(s, step).setup == s.setup
  {
  }

  lemma {:induction false} RunKeeps(setup: Setup, steps: seq<Step>)
    requires SetupOk(setup) && CardsFit(setup)
    ensures Inv(Run(setup, steps)) && Run(setup, steps).setup == setup
  {
    if steps != [] {
      var s := Run(setup, steps[..|steps| - 1]);
      RunKeeps(setup, steps[..|steps| - 1]);
      StepKeeps(s, steps[|steps| - 1]);
      StepKeepsSetup(s, steps[|steps| - 1]);
    }
  }

  /** The invariant of the real pipelines. */
  lemma PipelinesKeep(kind: Kind, steps: seq<Step>)
    ensures Inv(Run(Pipelines(kind), steps)) && Run(Pipelines(kind), steps).setup == Pipelines(kind)
  {
    RunKeeps(Pipelines(kind), steps);
  }

  // ---------------------------------------------------------------- index agreement

  /** `short` is the beginning of `text`, or all of it if it has at most `n` characters. */
  predicate IsCutAt(short: string, text: string, n: nat) {
    short <= text && |short| == if |text| <= n then |text| else n
  }

  predicate IsRowOf(row: Row, chunk: Chunk, number: nat) {
    row.ChunkRow? && row.seqNo == number && row.page == chunk.page && row.text == chunk.text
    && IsCutAt(row.heading, chunk.heading, 512)
  }

  /** In every reachable state, a manual in status DONE has exactly its file's chunks indexed:
      the numbers run from 0 to chunk_count - 1, and the texts are the chunk texts, untruncated. */
  lemma ManualDoneIsIndexed(steps: seq<Step>)
    ensures
      var s := Run(Pipelines(Manual), steps);
      s.record.Some? && s.record.value.status == DONE ==>
        && s.record.value.src.File? && Workable(s.record.value.src)
        && s.rows == ChunkRows(FileChunks(s.record.value.src))
        && s.record.value.count == |s.rows| == |FileChunks(s.record.value.src)|
        && (forall i :: 0 <= i < |s.rows| ==> IsRowOf(s.rows[i], FileChunks(s.record.value.src)[i], i))
  {
    PipelinesKeep(Manual, steps);
    var s := Run(Pipelines(Manual), steps);
    if s.record.Some? && s.record.value.status == DONE {
      ChunkRowsFaithful(s.record.value.src);
    }
  }

  lemma ChunkRowsFaithful(src: Source)
    requires src.File? && Workable(src)
    ensures
      var chunks, rows := FileChunks(src), Rows(src);
      |rows| == |chunks| && forall i :: 0 <= i < |rows| ==> IsRowOf(rows[i], chunks[i], i)
  {
    ChunksNumbered(Parse(src.lines, src.stem).sections, CHUNK_MAX_CHARS, CHUNK_OVERLAP_CHARS);
    RowsFaithful(FileChunks(src));
  }

  lemma RowsFaithful(chunks: seq<Chunk>)
    requires forall i :: 0 <= i < |chunks| ==> chunks[i].seqNo == i && |chunks[i].text| <= 8000
    ensures forall i :: 0 <= i < |chunks| ==> IsRowOf(ChunkRows(chunks)[i], chunks[i], i)
  {
  }

  predicate IsCardOf(row: Row, m: Meta) {
    && row.CardRow? && row.revision == m.revision && row.embedded == CardText(m)
    && IsCutAt(row.title, m.title, 256) && IsCutAt(row.description, m.description, 2048)
    && IsCutAt(row.equipment, m.equipment, 64)
  }

  /** In every reachable state, a drawing in status DONE has exactly the card of its current metadata and
      revision, unless an upsert is about to be published, queued, in work, or was lost since the worker last
      found the record. What was lost before that is made up for. */
  lemma DrawingDoneIsIndexed(steps: seq<Step>)
    ensures
      var s := Run(Pipelines(Drawing), steps);
      s.record.Some? && s.record.value.status == DONE && !UpsertDue(s) && !InWork(s, Upsert) ==>
        s.record.value.src.Card? && s.rows == Rows(s.record.value.src) && |s.rows| == 1
        && IsCardOf(s.rows[0], s.record.value.src.meta)
  {
    PipelinesKeep(Drawing, steps);
  }

  /** What a DONE drawing shows, whatever was lost or missed: outside of an upsert it has exactly the card of the
      source that the worker found last, and so its card is current if and only if that source and the present
      one have the same card. */
  lemma DoneShowsWhatWasFound(steps: seq<Step>)
    ensures
      var s := Run(Pipelines(Drawing), steps);
      s.record.Some? && s.record.value.status == DONE && !Uncommitted(s) ==>
        && s.found.Some? && s.found.value.Card? && s.record.value.src.Card? && s.rows == Rows(s.found.value)
        && (s.rows == Rows(s.record.value.src) <==> Rows(s.found.value) == Rows(s.record.value.src))
  {
    PipelinesKeep(Drawing, steps);
  }

  /** Nothing is going on. */
  predicate AtRest(s: State) {
    s.created && s.calls == multiset{} && s.queue == [] && s.worker.Idle?
  }

  /** Eventual consistency: at rest, an existing document is DONE and indexed from its current source unless an
      upsert was lost or dead-lettered since the worker last found the record, and a deleted document has no
      rows unless its delete was lost or dead-lettered. */
  lemma SettledIsConsistent(kind: Kind, steps: seq<Step>)
    ensures
      var s := Run(Pipelines(kind), steps);
      AtRest(s) ==>
        if s.record.Some? then
          s.missed
          || (s.record.value.status == DONE && Workable(s.record.value.src) && s.rows == Rows(s.record.value.src))
        else s.rows == [] || Delete in s.dead || Delete in s.lost
  {
    PipelinesKeep(kind, steps);
  }

  // ---------------------------------------------------------------- deletion

  /** Deletion is complete: rows of a document that is gone imply that its delete event is about to be
      published, queued, in work or dead-lettered, or that its publication failed. */
  lemma DeletionIsPending(kind: Kind, steps: seq<Step>)
    ensures
      var s := Run(Pipelines(kind), steps);
      s.created && s.record.None? && s.rows != [] ==>
        || Publishing(Delete) in s.calls || Delete in s.queue || InWork(s, Delete)
        || Delete in s.dead || Delete in s.lost
  {
    PipelinesKeep(kind, steps);
  }

  /** The document is gone, and no upsert that saw it is still able to insert. */
  predicate Gone(s: State) { s.created && s.record.None? && !MayInsert(s) && DeleteOnTrack(s) }

  lemma GoneAdvance(s: State, call: Call)
    requires Gone(s)
    ensures Gone(DoAdvance(s, call)) && DoAdvance(s, call).rows == s.rows
  {
  }

  lemma GoneWork(s: State, o: Reply)
    requires Gone(s)
    ensures Gone(DoWork(s, o)) && (DoWork(s, o).rows == s.rows || DoWork(s, o).rows == [])
  {
  }

  lemma GoneStep(s: State, step: Step)
    requires Gone(s)
    ensures Gone(Apply(s, step)) && (Apply(s, step).rows == s.rows || Apply(s, step).rows == [])
  {
    match step
    case Advance(call) => GoneAdvance(s, call);
    case Work(o) => GoneWork(s, o);
    case _ =>
  }

  /** An upsert that starts after the deletion never inserts rows: once the record is gone and no upsert
      that saw it is in work, the rows are the old ones or none, whatever happens from then on. */
  lemma {:induction false} NoInsertAfterDelete(kind: Kind, before: seq<Step>, after: seq<Step>)
    requires
      var s := Run(Pipelines(kind), before);
      s.created && s.record.None? && !MayInsert(s)
    ensures
      var s, t := Run(Pipelines(kind), before), Run(Pipelines(kind), before + after);
      Gone(t) && (t.rows == s.rows || t.rows == [])
  {
    if after == [] {
      assert before + after == before;
      PipelinesKeep(kind, before);
    } else {
      var n := |after| - 1;
      NoInsertAfterDelete(kind, before, after[..n]);
      assert (before + after)[..|before + after| - 1] == before + after[..n];
      GoneStep(Run(Pipelines(kind), before + after[..n]), after[n]);
    }
  }

  /** The document is gone, and neither a delete nor an upsert that saw the record is on its way or in work. */
  predicate Abandoned(s: State) { Gone(s) && !OnItsWay(s, Delete) && !InWork(s, Delete) }

  lemma AbandonedAdvance(s: State, call: Call)
    requires Abandoned(s)
    ensures Abandoned(DoAdvance(s, call)) && DoAdvance(s, call).rows == s.rows
  {
    GoneAdvance(s, call);
    var t := DoAdvance(s, call);
    assert Publishing(Delete) in t.calls ==> Publishing(Delete) in s.calls;
  }

  lemma AbandonedWork(s: State, o: Reply)
    requires Abandoned(s)
    ensures Abandoned(DoWork(s, o)) && DoWork(s, o).rows == s.rows
  {
    GoneWork(s, o);
  }

  lemma AbandonedStep(s: State, step: Step)
    requires Abandoned(s)
    ensures Abandoned(Apply(s, step)) && Apply(s, step).rows == s.rows
  {
    match step
    case Advance(call) => AbandonedAdvance(s, call);
    case Work(o) => AbandonedWork(s, o);
    case _ =>
  }

  /** Only a delete event clears the rows of a deleted document: once none is on its way or in work, no later
      step changes them. */
  lemma {:induction false} OrphansStay(kind: Kind, before: seq<Step>, after: seq<Step>)
    requires Abandoned(Run(Pipelines(kind), before))
    ensures
      var s, t := Run(Pipelines(kind), before), Run(Pipelines(kind), before + after);
      Abandoned(t) && t.rows == s.rows
  {
    if after == [] {
      assert before + after == before;
    } else {
      var n := |after| - 1;
      OrphansStay(kind, before, after[..n]);
      assert (before + after)[..|before + after| - 1] == before + after[..n];
      AbandonedStep(Run(Pipelines(kind), before + after[..n]), after[n]);
    }
  }
}
