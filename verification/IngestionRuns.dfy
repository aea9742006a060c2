/** Runs of the ingestion protocol: what undisturbed uploads, updates and deletions achieve from every reachable
    state at rest, and what lost events leave behind. */
module IngestionRuns {
  import opened Options
  import opened Text
  import opened PdfParser
  import opened Chunker
  import opened ManualText
  import opened IndexContent
  import opened Ingestion
  import opened IngestionSafety
  import opened DeadLetters

  /** The run `longer` continues `steps`, and nothing fails from there on. */
  predicate Calm(steps: seq<Step>, longer: seq<Step>) {
    steps <= longer && forall i :: |steps| <= i < |longer| ==> Undisturbed(longer[i])
  }

  lemma CalmContinues(steps: seq<Step>, more: seq<Step>, most: seq<Step>)
    requires Calm(steps, more) && Calm(more, most)
    ensures Calm(steps, most)
  {
    forall i | |steps| <= i < |most| ensures Undisturbed(most[i]) {
      if i < |more| {
        assert most[i] == most[..|more|][i];
      }
    }
  }

  /** One more step of a run. */
  lemma Extend(setup: Setup, steps: seq<Step>, s: State, step: Step) returns (longer: seq<Step>, t: State)
    requires s == Run(setup, steps)
    ensures longer == steps + [step] && t == Apply(s, step) == Run(setup, longer)
    ensures Undisturbed(step) ==> Calm(steps, longer)
  {
    longer, t := steps + [step], Apply(s, step);
    assert longer[..|steps|] == steps;
  }

  /** `s` with a fresh event in work. */
  function Started(s: State, a: Action): State { s.(worker := Busy(a, 1, First, None, false)) }

  /** An event that is about to be published is published and taken. */
  lemma PublishAndTake(setup: Setup, before: seq<Step>, s: State, a: Action) returns (steps: seq<Step>)
    requires Run(setup, before) == s.(calls := multiset{Publishing(a)}) && AtRest(s)
    ensures Calm(before, steps) && steps == before + [Advance(Publishing(a)), Take]
    ensures Run(setup, steps) == Started(s, a)
  {
    var t: State;
    steps, t := Extend(setup, before, s.(calls := multiset{Publishing(a)}), Advance(Publishing(a)));
    assert t.calls == multiset{} && t.queue == [a];
    steps, t := Extend(setup, steps, t, Take);
  }

  /** `s` after the worker has read the record for an upsert. */
  function ReadBy(s: State, stage: Stage, marked: bool): State
    requires s.record.Some?
  {
    var src := Some(s.record.value.src);
    var t := s.(worker := Busy(Upsert, 1, stage, src, marked), missed := false, found := src);
    if marked then SetStatus(t, PROCESSING) else t
  }

  /** The worker marks and finds a manual. */
  lemma FindManual(setup: Setup, before: seq<Step>, s: State) returns (steps: seq<Step>)
    requires Run(setup, before) == Started(s, Upsert) && s.setup.kind == Manual && s.record.Some?
    ensures Calm(before, steps) && Run(setup, steps) == ReadBy(s, Reading, true)
  {
    var t := Started(s, Upsert);
    steps, t := Extend(setup, before, t, Work(Good));
    assert t == SetStatus(s, PROCESSING).(worker := Busy(Upsert, 1, Second, None, true));
    steps, t := Extend(setup, steps, t, Work(Good));
  }

  /** The worker parses and embeds a manual. */
  lemma ReadManual(setup: Setup, before: seq<Step>, s: State) returns (steps: seq<Step>)
    requires s.record.Some? && s.file && s.setup.rows(s.record.value.src) != []
    requires Run(setup, before) == ReadBy(s, Reading, true)
    ensures Calm(before, steps) && Run(setup, steps) == ReadBy(s, Clearing, true)
  {
    var t := ReadBy(s, Reading, true);
    steps, t := Extend(setup, before, t, Work(Good));
    assert t == ReadBy(s, Embedding, true);
    steps, t := Extend(setup, steps, t, Work(Good));
  }

  /** The worker finds the record of a drawing. */
  lemma FindDrawing(setup: Setup, before: seq<Step>, s: State) returns (steps: seq<Step>)
    requires Run(setup, before) == Started(s, Upsert) && s.setup.kind == Drawing && s.record.Some?
    ensures Calm(before, steps) && Run(setup, steps) == ReadBy(s, Second, false)
  {
    var t;
    steps, t := Extend(setup, before, Started(s, Upsert), Work(Good));
  }

  /** The worker marks and embeds a drawing. */
  lemma EmbedDrawing(setup: Setup, before: seq<Step>, s: State, read: Source) returns (steps: seq<Step>)
    requires s.setup.kind == Drawing && s.record.Some? && s.worker == Busy(Upsert, 1, Second, Some(read), false)
    requires Run(setup, before) == s
    ensures Calm(before, steps)
    ensures Run(setup, steps)
         == SetStatus(s, PROCESSING).(worker := Busy(Upsert, 1, Clearing, Some(read), true))
  {
    var t := s;
    steps, t := Extend(setup, before, t, Work(Good));
    steps, t := Extend(setup, steps, t, Work(Good));
  }

  /** `s` after an upsert has indexed the source `read`. */
  function Indexing(s: State, read: Source): State
    requires s.record.Some?
  {
    var rows := s.setup.rows(read);
    var count := if s.setup.kind == Manual then |rows| else s.record.value.count;
    s.(rows := rows, record := Some(s.record.value.(status := DONE, count := count)), worker := Idle)
  }

  /** The worker replaces the rows. */
  lemma ReplaceRows(setup: Setup, before: seq<Step>, s: State, read: Source) returns (steps: seq<Step>)
    requires s.worker == Busy(Upsert, 1, Clearing, Some(read), true)
    requires Run(setup, before) == s
    ensures Calm(before, steps)
    ensures Run(setup, steps)
         == s.(rows := s.setup.rows(read), worker := Busy(Upsert, 1, Committing, Some(read), true))
  {
    var t := s;
    steps, t := Extend(setup, before, t, Work(Good));
    assert t == s.(rows := [], worker := Busy(Upsert, 1, Inserting, Some(read), true));
    assert [] + s.setup.rows(read) == s.setup.rows(read);
    steps, t := Extend(setup, steps, t, Work(Good));
  }

  /** The worker replaces the rows and commits. */
  lemma WriteRows(setup: Setup, before: seq<Step>, s: State, read: Source) returns (steps: seq<Step>)
    requires s.record.Some? && s.worker == Busy(Upsert, 1, Clearing, Some(read), true)
    requires Run(setup, before) == s
    ensures Calm(before, steps) && Run(setup, steps) == Indexing(s, read)
  {
    steps := ReplaceRows(setup, before, s, read);
    var t := s.(rows := s.setup.rows(read), worker := Busy(Upsert, 1, Committing, Some(read), true));
    steps, t := Extend(setup, steps, t, Work(Good));
    assert t.worker == Busy(Upsert, 1, Finishing, Some(read), true);
    steps, t := Extend(setup, steps, t, Work(Good));
  }

  /** `s` after an upsert that nothing disturbs. */
  function Ingested(s: State): State
    requires s.record.Some?
  {
    Indexing(s, s.record.value.src).(missed := false, found := Some(s.record.value.src))
  }

  /** An upsert that nothing disturbs. */
  lemma UpsertRuns(setup: Setup, before: seq<Step>, s: State) returns (steps: seq<Step>)
    requires Run(setup, before) == s.(calls := multiset{Publishing(Upsert)}) && AtRest(s) && s.record.Some?
    requires s.setup.kind == Manual ==> s.file && s.setup.rows(s.record.value.src) != []
    ensures Calm(before, steps) && Run(setup, steps) == Ingested(s)
  {
    var src := s.record.value.src;
    var started := PublishAndTake(setup, before, s, Upsert);
    if s.setup.kind == Manual {
      var found := FindManual(setup, started, s);
      var read := ReadManual(setup, found, s);
      steps := WriteRows(setup, read, ReadBy(s, Clearing, true), src);
    } else {
      var found := FindDrawing(setup, started, s);
      var t := ReadBy(s, Second, false);
      var embedded := EmbedDrawing(setup, found, t, src);
      t := SetStatus(t, PROCESSING).(worker := Busy(Upsert, 1, Clearing, Some(src), true));
      steps := WriteRows(setup, embedded, t, src);
    }
  }

  // ---------------------------------------------------------------- repair

  /** The call can change a document with this source. */
  predicate Asks(kind: Kind, src: Source, call: Call) {
    match call
    case Reingesting => kind == Manual
    case Updating(c) => kind == Drawing && c != NO_CHANGE
    case Revising(n) => src.Card? && n == src.meta.revision + 1
    case _ => false
  }

  /** A field after an update. */
  predicate IsUpdated(given: Option<string>, before: string, after: string) {
    after == if given.Some? then given.value else before
  }

  /** What the call makes of the source: an update replaces the given fields and keeps the drawing's number and
      revision, a revision only counts up, and a re-ingestion leaves the file as it is. */
  predicate Becomes(before: Source, call: Call, after: Source) {
    match call
    case Updating(c) =>
      && before.Card? && after.Card?
      && IsUpdated(c.title, before.meta.title, after.meta.title)
      && IsUpdated(c.equipment, before.meta.equipment, after.meta.equipment)
      && IsUpdated(c.line, before.meta.line, after.meta.line)
      && IsUpdated(c.description, before.meta.description, after.meta.description)
      && after.meta.drawingNo == before.meta.drawingNo && after.meta.revision == before.meta.revision
    case Revising(n) =>
      && before.Card? && n == before.meta.revision + 1
      && after == Card(Meta(before.meta.title, before.meta.drawingNo, before.meta.equipment, before.meta.line,
                            before.meta.description, n))
    case _ => after == before
  }

  /** The source after the call. */
  function Repaired(src: Source, call: Call): Source {
    if src.File? then src
    else
      match call
      case Updating(c) => Card(ChangeMeta(src.meta, c))
      case Revising(n) => Card(src.meta.(revision := n))
      case _ => src
  }

  /** `s` after the record update of the call. */
  function Repairing(s: State, call: Call): State
    requires s.record.Some?
  {
    s.(record := Some(s.record.value.(src := Repaired(s.record.value.src, call), status := PENDING)))
  }

  /** What was lost or dead-lettered can be made up for: from every reachable state at rest, whatever happened
      before, a re-ingestion of a manual whose file is there and has text, or any update or revision of a drawing,
      that nothing disturbs leaves the document DONE, indexed from its current source, and nothing missed. */
  lemma RepairRestores(kind: Kind, before: seq<Step>, call: Call) returns (after: seq<Step>)
    requires
      var s := Run(Pipelines(kind), before);
      AtRest(s) && s.record.Some? && Asks(kind, s.record.value.src, call)
      && (kind == Manual ==> s.file && Workable(s.record.value.src) && Rows(s.record.value.src) != [])
    ensures |after| >= 2 && after[0] == Begin(call) && after[1] == Advance(call)
    ensures forall i :: 0 <= i < |after| ==> Undisturbed(after[i])
    ensures
      var s, t := Run(Pipelines(kind), before), Run(Pipelines(kind), before + after);
      && t.record.Some? && Restored(t, t.record.value.src)
      && Becomes(s.record.value.src, call, t.record.value.src) && t.dead == s.dead && t.lost == s.lost
  {
    var s := Run(Pipelines(kind), before);
    RecordFits(kind, before);
    PipelineRows(kind, Repaired(s.record.value.src, call));
    var steps := RepairRuns(Pipelines(kind), before, s, call);
    IngestedRestored(Repairing(s, call));
    after := CalmRest(before, steps);
  }

  /** What a run goes on with. */
  lemma CalmRest(before: seq<Step>, steps: seq<Step>) returns (after: seq<Step>)
    requires Calm(before, steps)
    ensures before + after == steps && forall i :: 0 <= i < |after| ==> Undisturbed(after[i])
    ensures forall i :: 0 <= i < |after| ==> after[i] == steps[|before| + i]
  {
    after := steps[|before|..];
  }

  /** The repairing call and the upsert it causes. */
  lemma RepairRuns(setup: Setup, before: seq<Step>, s: State, call: Call) returns (steps: seq<Step>)
    requires Run(setup, before) == s && AtRest(s) && s.record.Some? && Asks(s.setup.kind, s.record.value.src, call)
    requires s.record.value.src.File? <==> s.setup.kind == Manual
    requires s.setup.kind == Manual ==> s.file && s.setup.rows(s.record.value.src) != []
    ensures Calm(before, steps) && Run(setup, steps) == Ingested(Repairing(s, call))
    ensures |steps| >= |before| + 2 && steps[|before|] == Begin(call) && steps[|before| + 1] == Advance(call)
  {
    var asked := AskForUpsert(setup, before, s, call);
    steps := UpsertRuns(setup, asked, Repairing(s, call));
    CalmContinues(before, asked, steps);
    AskedFirst(before, asked, steps, call);
  }

  lemma AskedFirst(before: seq<Step>, asked: seq<Step>, steps: seq<Step>, call: Call)
    requires asked == before + [Begin(call), Advance(call)] && asked <= steps
    ensures |steps| >= |before| + 2 && steps[|before|] == Begin(call) && steps[|before| + 1] == Advance(call)
  {
    var n := |before|;
    assert steps[n] == asked[n] && steps[n + 1] == asked[n + 1];
  }

  /** At rest, DONE, indexed from this source, and nothing missed. */
  predicate Restored(s: State, src: Source) {
    AtRest(s) && s.record.Some? && s.record.value.status == DONE && !s.missed
    && s.record.value.src == src && Workable(src) && s.rows == Rows(src)
  }

  lemma IngestedRestored(t: State)
    requires AtRest(t) && t.record.Some?
    requires Workable(t.record.value.src) && t.setup.rows(t.record.value.src) == Rows(t.record.value.src)
    ensures Restored(Ingested(t), t.record.value.src)
  {
  }

  lemma RecordFits(kind: Kind, steps: seq<Step>)
    ensures
      var s := Run(Pipelines(kind), steps);
      s.setup == Pipelines(kind) && (s.record.Some? ==> FitsKind(kind, s.record.value.src))
  {
    PipelinesKeep(kind, steps);
  }

  lemma PipelineRows(kind: Kind, src: Source)
    requires Workable(src)
    ensures Pipelines(kind).rows(src) == Rows(src)
  {
  }

  /** The API call that repairs, up to the publication of its event. */
  lemma AskForUpsert(setup: Setup, before: seq<Step>, s: State, call: Call) returns (steps: seq<Step>)
    requires Run(setup, before) == s && AtRest(s) && s.record.Some? && Asks(s.setup.kind, s.record.value.src, call)
    requires s.record.value.src.File? <==> s.setup.kind == Manual
    ensures Calm(before, steps) && steps == before + [Begin(call), Advance(call)]
    ensures Run(setup, steps) == Repairing(s, call).(calls := multiset{Publishing(Upsert)})
  {
    var t;
    steps, t := Extend(setup, before, s, Begin(call));
    assert t.calls == multiset{call};
    steps, t := Extend(setup, steps, t, Advance(call));
    assert t.calls == multiset{Publishing(Upsert)};
  }

  // ---------------------------------------------------------------- deletion

  /** Deleting a document, up to the publication of its event. */
  lemma DeleteRecord(setup: Setup, before: seq<Step>, s: State) returns (steps: seq<Step>)
    requires Run(setup, before) == s && AtRest(s) && s.record.Some?
    ensures steps == before + [Begin(DeletingFile), Advance(DeletingFile), Advance(DeletingRecord)]
    ensures Run(setup, steps) == s.(record := None, file := false, calls := multiset{Publishing(Delete)})
  {
    var t;
    steps, t := Extend(setup, before, s, Begin(DeletingFile));
    assert t.calls == multiset{DeletingFile};
    steps, t := Extend(setup, steps, t, Advance(DeletingFile));
    assert t.calls == multiset{DeletingRecord};
    steps, t := Extend(setup, steps, t, Advance(DeletingRecord));
    assert t.calls == multiset{Publishing(Delete)};
  }

  /** The worker's handling of a delete event that nothing disturbs. */
  lemma WorkOffDelete(setup: Setup, before: seq<Step>, s: State) returns (steps: seq<Step>)
    requires Run(setup, before) == Started(s, Delete) && s.worker.Idle?
    ensures steps == before + [Work(Good), Work(Good), Work(Good)] && Run(setup, steps) == s.(rows := [])
  {
    var t;
    steps, t := Extend(setup, before, Started(s, Delete), Work(Good));
    steps, t := Extend(setup, steps, t, Work(Good));
    steps, t := Extend(setup, steps, t, Work(Good));
  }

  lemma Joined<T>(a: seq<T>, b: seq<T>, c: seq<T>, d: seq<T>)
    ensures a + b + c + d == a + (b + c + d)
  {
  }

  /** A deletion that nothing disturbs clears the index: from every reachable state at rest, the delete call, the
      delivery of its event and three pipeline calls leave neither record nor file nor rows, and nothing is
      dead-lettered or lost. */
  lemma DeleteClears(kind: Kind, before: seq<Step>)
    requires AtRest(Run(Pipelines(kind), before)) && Run(Pipelines(kind), before).record.Some?
    ensures
      var after := [Begin(DeletingFile), Advance(DeletingFile), Advance(DeletingRecord)]
                   + [Advance(Publishing(Delete)), Take] + [Work(Good), Work(Good), Work(Good)];
      var s, t := Run(Pipelines(kind), before), Run(Pipelines(kind), before + after);
      AtRest(t) && t.record.None? && !t.file && t.rows == [] && t.dead == s.dead && t.lost == s.lost
  {
    var setup := Pipelines(kind);
    var s := Run(setup, before);
    var deleted := DeleteRecord(setup, before, s);
    var t := s.(record := None, file := false);
    var taken := PublishAndTake(setup, deleted, t, Delete);
    var steps := WorkOffDelete(setup, taken, t);
    Joined(before, [Begin(DeletingFile), Advance(DeletingFile), Advance(DeletingRecord)],
           [Advance(Publishing(Delete)), Take], [Work(Good), Work(Good), Work(Good)]);
  }

  // ---------------------------------------------------------------- why lost events matter

  /** A new document at rest, before its first upsert. */
  function Created(setup: Setup, src: Source): State {
    Initial(setup).(created := true, record := Some(Record(src, PENDING, 0)), file := true)
  }

  /** A document is created, and its first upsert runs undisturbed. */
  lemma CreateAndIngest(setup: Setup, src: Source) returns (steps: seq<Step>)
    requires setup.fits(src) && (setup.kind == Manual ==> setup.rows(src) != [])
    ensures Calm([Create(src)], steps) && Run(setup, steps) == Ingested(Created(setup, src))
  {
    var s;
    steps, s := Extend(setup, [], Initial(setup), Create(src));
    assert s.calls == multiset{Publishing(Upsert)};
    steps := UpsertRuns(setup, steps, s.(calls := multiset{}));
  }

  /** A new document that nothing disturbs is indexed: after its upload and the worker's handling of its event it is
      DONE and has exactly the rows of its source, for a manual as many as its chunk count says. */
  lemma UploadIsIndexed(kind: Kind, src: Source) returns (after: seq<Step>)
    requires FitsKind(kind, src) && Workable(src) && (kind == Manual ==> Rows(src) != [])
    ensures forall i :: 0 <= i < |after| ==> Undisturbed(after[i])
    ensures
      var t := Run(Pipelines(kind), [Create(src)] + after);
      Restored(t, src) && t.dead == [] && t.lost == [] && (kind == Manual ==> t.record.value.count == |Rows(src)|)
  {
    PipelineRows(kind, src);
    var steps := CreateAndIngest(Pipelines(kind), src);
    IngestedRestored(Created(Pipelines(kind), src));
    after := CalmRest([Create(src)], steps);
  }

  /** Deleting a document when the publication of the delete event fails. */
  lemma DeleteUnpublished(setup: Setup, before: seq<Step>, s: State) returns (steps: seq<Step>)
    requires Run(setup, before) == s && AtRest(s) && s.record.Some?
    ensures Run(setup, steps) == s.(record := None, file := false, lost := s.lost + [Delete])
  {
    var deleted := DeleteRecord(setup, before, s);
    var t := s.(record := None, file := false, calls := multiset{Publishing(Delete)});
    steps, t := Extend(setup, deleted, t, Abort(Publishing(Delete)));
  }

  lemma DeleteNewUnpublished(setup: Setup, src: Source, lines: seq<Line>, stem: string) returns (steps: seq<Step>)
    requires src == File(lines, stem) && Workable(src) && lines != [] && setup == Pipelines(Manual)
    ensures Rows(src) != []
    ensures Run(setup, steps)
         == Ingested(Created(setup, src)).(record := None, file := false, lost := [Delete])
  {
    NoTextIffNoLines(lines, stem, CHUNK_MAX_CHARS, CHUNK_OVERLAP_CHARS);
    assert FileChunks(src) != [];
    var ingested := CreateAndIngest(setup, src);
    steps := DeleteUnpublished(setup, ingested, Ingested(Created(setup, src)));
  }

  /** The condition on lost events is needed: a delete whose publication fails leaves the rows of a deleted
      document in the index for good, whatever happens from then on. */
  lemma LostDeleteLeavesRows(lines: seq<Line>, stem: string) returns (steps: seq<Step>)
    requires Workable(File(lines, stem)) && lines != []
    ensures
      var s := Run(Pipelines(Manual), steps);
      AtRest(s) && s.record.None? && s.rows == Rows(File(lines, stem)) != [] && s.dead == []
    ensures forall after ::
      var s, t := Run(Pipelines(Manual), steps), Run(Pipelines(Manual), steps + after);
      t.record.None? && t.rows == s.rows
  {
    var setup, src := Pipelines(Manual), File(lines, stem);
    steps := DeleteNewUnpublished(setup, src, lines, stem);
    forall after
      ensures
        var t := Run(setup, steps + after);
        t.record.None? && t.rows == Run(setup, steps).rows
    {
      OrphansStay(Manual, steps, after);
    }
  }

  /** A metadata update whose event is lost, while the worker is between two stages. */
  lemma UpdateUnpublished(setup: Setup, before: seq<Step>, s: State, c: Change) returns (steps: seq<Step>)
    requires Run(setup, before) == s && s.setup.kind == Drawing && c != NO_CHANGE
    requires s.calls == multiset{} && s.record.Some? && s.record.value.src.Card?
    ensures
      var src := Card(ChangeMeta(s.record.value.src.meta, c));
      Run(setup, steps) == s.(record := Some(s.record.value.(src := src, status := PENDING)),
                              lost := s.lost + [Upsert], missed := true)
  {
    var t;
    steps, t := Extend(setup, before, s, Begin(Updating(c)));
    assert t.calls == multiset{Updating(c)};
    steps, t := Extend(setup, steps, t, Advance(Updating(c)));
    assert t.calls == multiset{Publishing(Upsert)};
    steps, t := Extend(setup, steps, t, Abort(Publishing(Upsert)));
  }

  /** Likewise for drawings: an update during an upsert whose own event is lost leaves a drawing DONE with
      the card of its former metadata, and nothing pending that would correct it. */
  lemma LostUpsertLeavesStaleCard(m: Meta, title: string) returns (steps: seq<Step>)
    requires Text.Take(title, 256) != Text.Take(m.title, 256)
    ensures
      var s := Run(Pipelines(Drawing), steps);
      && AtRest(s) && s.dead == [] && s.record.Some? && s.record.value.status == DONE
      && Workable(s.record.value.src) && s.rows != Rows(s.record.value.src)
  {
    var c, setup := Change(Some(title), None, None, None), Pipelines(Drawing);
    var now := Card(ChangeMeta(m, c));
    var s;
    steps, s := Extend(setup, [], Initial(setup), Create(Card(m)));
    assert s.calls == multiset{Publishing(Upsert)};
    s := s.(calls := multiset{});
    steps := PublishAndTake(setup, steps, s, Upsert);
    steps := FindDrawing(setup, steps, s);
    s := ReadBy(s, Second, false);
    steps := UpdateUnpublished(setup, steps, s, c);
    s := s.(record := Some(Record(now, PENDING, 0)), lost := [Upsert], missed := true);
    steps := EmbedDrawing(setup, steps, s, Card(m));
    s := SetStatus(s, PROCESSING).(worker := Busy(Upsert, 1, Clearing, Some(Card(m)), true));
    steps := WriteRows(setup, steps, s, Card(m));
  }
}
