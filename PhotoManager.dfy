/** The `usePhotoManager` hook of utils/photos/photo-util/usePhotoManager.ts,
    which talks to Supabase directly. Its upload checks each file's name with
    its own query, skips taken names with an alert, uploads and inserts the
    others one by one, and commits the inserted rows to the list only when
    the whole loop got through: any error aborts and keeps the list. */
module PhotoManager {
  import opened Common
  import opened Photos
  import Lists

  /** The Supabase calls the hook makes, in the order it makes them. */
  datatype Call =
    | SelectPhotos(userId: string, orderBy: string)
    | FindByName(userId: string, name: string)
    | StoreObject(path: string)
    | InsertPhoto(userId: string, name: string, path: string)
    | RemoveObject(path: string)
    | DeleteRow(id: string)

  /** `sortType === "name" ? "photo_name" : "created_at"`. */
  function OrderColumn(sortType: string): (column: string)
    ensures column == "photo_name" <==> sortType == "name"
    ensures column == "photo_name" || column == "created_at"
  {
    if sortType == "name" then "photo_name" else "created_at"
  }

  /** The backend's answers for one file of a batch: the same-name lookup,
      the clock reading, the storage upload's error, and the insert. */
  datatype FileAnswers = FileAnswers(
    existing: Db<Option<seq<Photo>>>,
    stamp: string,
    storageError: Option<string>,
    insert: Db<Photo>)

  /** What one turn of the loop ends in. */
  datatype Step = Skipped | Added(row: Photo) | Broke(message: string)

  /** A non-empty same-name lookup means the name is taken. */
  predicate NameTaken(a: FileAnswers)
    requires a.existing.Done?
  {
    a.existing.data.Some? && |a.existing.data.value| > 0
  }

  /** One turn of the loop: a lookup error, a storage error or an insert
      error is thrown; a taken name is skipped; otherwise the inserted row is
      kept. */
  function StepFor(a: FileAnswers): Step {
    match a.existing
    case Failed(m) => Broke(m)
    case Done(_) =>
      if NameTaken(a) then Skipped
      else if a.storageError.Some? then Broke(a.storageError.value)
      else match a.insert
        case Failed(m) => Broke(m)
        case Done(row) => Added(row)
  }

  /** The calls one turn makes: the lookup, then (for a free name) the
      storage upload, then (if that succeeded) the insert. */
  function StepCalls(userId: string, f: File, a: FileAnswers): seq<Call> {
    var path := StoragePath(a.stamp, f.name);
    [FindByName(userId, f.name)]
    + if a.existing.Failed? || NameTaken(a) then []
      else [StoreObject(path)] + if a.storageError.Some? then [] else [InsertPhoto(userId, f.name, path)]
  }

  /** The alert for a taken name. */
  function TakenAlert(name: string): Notice {
    Alert("A file named \"" + name + "\" already exists. Rename it and try again.")
  }

  /** Whether the loop got through, and with which rows. */
  datatype Outcome = Committed(rows: seq<Photo>) | Aborted(message: string)

  /** The calls made, the alerts shown and the outcome of a batch. */
  datatype Batch = Batch(calls: seq<Call>, alerts: seq<Notice>, outcome: Outcome)

  predicate Breaks(a: FileAnswers) {
    StepFor(a).Broke?
  }

  /** The alert one turn shows: one for a taken name, none otherwise. */
  function StepAlerts(f: File, a: FileAnswers): seq<Notice> {
    if StepFor(a).Skipped? then [TakenAlert(f.name)] else []
  }

  /** The row one turn collects: the inserted row, or none. */
  function StepRows(a: FileAnswers): seq<Photo> {
    if StepFor(a).Added? then [StepFor(a).row] else []
  }

  /** `rows` collected before an outcome: kept in front of a commit, lost
      in an abort. */
  function Prepend(rows: seq<Photo>, o: Outcome): Outcome {
    match o
    case Committed(more) => Committed(rows + more)
    case Aborted(m) => Aborted(m)
  }

  lemma PrependTwice(r1: seq<Photo>, r2: seq<Photo>, o: Outcome)
    ensures Prepend(r1, Prepend(r2, o)) == Prepend(r1 + r2, o)
  {
    if o.Committed? {
      assert r1 + (r2 + o.rows) == (r1 + r2) + o.rows;
    }
  }

  /** A batch that first made `calls`, showed `alerts` and collected `rows`,
      then went on as `rest`. */
  function Extend(calls: seq<Call>, alerts: seq<Notice>, rows: seq<Photo>, rest: Batch): Batch {
    Batch(calls + rest.calls, alerts + rest.alerts, Prepend(rows, rest.outcome))
  }

  lemma ExtendTwice(c1: seq<Call>, a1: seq<Notice>, r1: seq<Photo>, c2: seq<Call>, a2: seq<Notice>, r2: seq<Photo>, b: Batch)
    ensures Extend(c1, a1, r1, Extend(c2, a2, r2, b)) == Extend(c1 + c2, a1 + a2, r1 + r2, b)
  {
    assert c1 + (c2 + b.calls) == (c1 + c2) + b.calls;
    assert a1 + (a2 + b.alerts) == (a1 + a2) + b.alerts;
    PrependTwice(r1, r2, b.outcome);
  }

  /** A batch with nothing done before it is itself. */
  lemma ExtendNothing(b: Batch)
    ensures Extend([], [], [], b) == b
  {
    assert [] + b.calls == b.calls && [] + b.alerts == b.alerts;
    if b.outcome.Committed? {
      assert [] + b.outcome.rows == b.outcome.rows;
    }
  }

  /** The loop `for (const file of files)` with its `continue` and `throw`,
      from file `i` on, as a function of the answers. */
  function RunFrom(userId: string, files: seq<File>, answers: seq<FileAnswers>, i: int): Batch
    requires |files| == |answers| && 0 <= i <= |files|
    decreases |files| - i
  {
    if i == |files| then Batch([], [], Committed([]))
    else if Breaks(answers[i]) then Batch(StepCalls(userId, files[i], answers[i]), [], Aborted(StepFor(answers[i]).message))
    else Extend(StepCalls(userId, files[i], answers[i]), StepAlerts(files[i], answers[i]), StepRows(answers[i]),
                RunFrom(userId, files, answers, i + 1))
  }

  /** The whole batch. */
  function RunBatch(userId: string, files: seq<File>, answers: seq<FileAnswers>): Batch
    requires |files| == |answers|
  {
    RunFrom(userId, files, answers, 0)
  }

  /** The outcome of a batch with these answers alone. */
  function OutcomeOf(answers: seq<FileAnswers>): Outcome
    decreases |answers|
  {
    if answers == [] then Committed([])
    else if Breaks(answers[0]) then Aborted(StepFor(answers[0]).message)
    else Prepend(StepRows(answers[0]), OutcomeOf(answers[1..]))
  }

  /** A batch's outcome depends on the answers alone. */
  lemma {:induction false} OutcomeOfBatch(userId: string, files: seq<File>, answers: seq<FileAnswers>, i: int)
    requires |files| == |answers| && 0 <= i <= |files|
    ensures RunFrom(userId, files, answers, i).outcome == OutcomeOf(answers[i..])
    decreases |files| - i
  {
    if i < |files| {
      assert answers[i..][0] == answers[i] && answers[i..][1..] == answers[i + 1..];
      if !Breaks(answers[i]) {
        OutcomeOfBatch(userId, files, answers, i + 1);
      }
    }
  }

  /** The batch commits exactly when no file's turn throws: a skipped name
      does not stop the loop. */
  lemma {:induction false} CommitsIffNoBreak(answers: seq<FileAnswers>)
    ensures OutcomeOf(answers).Committed? <==> forall j :: 0 <= j < |answers| ==> !Breaks(answers[j])
    decreases |answers|
  {
    if answers != [] {
      CommitsIffNoBreak(answers[1..]);
      assert forall j :: 1 <= j < |answers| ==> answers[j] == answers[1..][j - 1];
    }
  }

  predicate Inserts(a: FileAnswers) {
    StepFor(a).Added?
  }

  /** The row a file's insert returned. */
  function RowOf(a: FileAnswers): Photo {
    match a.insert
    case Done(row) => row
    case Failed(_) => Photo("", "", "", "", "")
  }

  lemma StepRowsOf(a: FileAnswers)
    ensures StepRows(a) == if Inserts(a) then [RowOf(a)] else []
  {
  }

  /** A committed batch holds the inserted rows of the files that were not
      skipped, in file order. */
  lemma {:induction false} CommittedRows(answers: seq<FileAnswers>)
    requires OutcomeOf(answers).Committed?
    ensures OutcomeOf(answers).rows == Lists.Map(Lists.Filter(answers, Inserts), RowOf)
    decreases |answers|
  {
    if answers != [] {
      var a, rest := answers[0], answers[1..];
      assert OutcomeOf(answers) == Prepend(StepRows(a), OutcomeOf(rest));
      CommittedRows(rest);
      assert answers == [a] + rest;
      Lists.MapFilterCons(a, rest, Inserts, RowOf);
      StepRowsOf(a);
    }
  }

  /** The files from `i` on, each with its answers. */
  function Pairs(files: seq<File>, answers: seq<FileAnswers>, i: int): (ps: seq<(File, FileAnswers)>)
    requires |files| == |answers| && 0 <= i <= |files|
    decreases |files| - i
  {
    if i == |files| then [] else [(files[i], answers[i])] + Pairs(files, answers, i + 1)
  }

  /** The file's name was found taken, so its turn was skipped. */
  predicate SkippedPair(p: (File, FileAnswers)) {
    StepFor(p.1).Skipped?
  }

  function AlertOf(p: (File, FileAnswers)): Notice {
    TakenAlert(p.0.name)
  }

  /** A batch that does not abort shows, in file order, exactly one alert
      per skipped file, naming that file, and no other alert. */
  lemma {:induction false} AlertsNameTakenFiles(userId: string, files: seq<File>, answers: seq<FileAnswers>, i: int)
    requires |files| == |answers| && 0 <= i <= |files|
    requires forall j :: i <= j < |answers| ==> !Breaks(answers[j])
    ensures RunFrom(userId, files, answers, i).alerts == Lists.Map(Lists.Filter(Pairs(files, answers, i), SkippedPair), AlertOf)
    ensures |RunFrom(userId, files, answers, i).alerts| == |Lists.Filter(answers[i..], (a: FileAnswers) => StepFor(a).Skipped?)|
    decreases |files| - i
  {
    if i < |files| {
      AlertsNameTakenFiles(userId, files, answers, i + 1);
      assert answers[i..][1..] == answers[i + 1..];
      Lists.MapFilterCons((files[i], answers[i]), Pairs(files, answers, i + 1), SkippedPair, AlertOf);
      assert RunFrom(userId, files, answers, i).alerts
             == StepAlerts(files[i], answers[i]) + RunFrom(userId, files, answers, i + 1).alerts;
    }
  }

  /** The body of `uploadPhotos`' `try`: the loop over the files, run on the
      calls, alerts and rows of the turns so far, stopping at the first
      turn that throws. */
  method RunLoop(userId: string, files: seq<File>, answers: seq<FileAnswers>) returns (batch: Batch)
    requires |answers| == |files|
    ensures batch == RunBatch(userId, files, answers)
  {
    ghost var total := RunBatch(userId, files, answers);
    var doneCalls: seq<Call> := [];
    var doneAlerts: seq<Notice> := [];
    var rows: seq<Photo> := [];
    ExtendNothing(total);
    var i := 0;
    while i < |files|
      invariant 0 <= i <= |files|
      invariant Extend(doneCalls, doneAlerts, rows, RunFrom(userId, files, answers, i)) == total
    {
      var step := StepFor(answers[i]);
      if step.Broke? {
        assert doneAlerts + [] == doneAlerts;
        return Batch(doneCalls + StepCalls(userId, files[i], answers[i]), doneAlerts, Aborted(step.message));
      }
      ExtendTwice(doneCalls, doneAlerts, rows, StepCalls(userId, files[i], answers[i]), StepAlerts(files[i], answers[i]),
                  StepRows(answers[i]), RunFrom(userId, files, answers, i + 1));
      doneCalls := doneCalls + StepCalls(userId, files[i], answers[i]);
      doneAlerts := doneAlerts + StepAlerts(files[i], answers[i]);
      rows := rows + StepRows(answers[i]);
      i := i + 1;
    }
    assert doneCalls + [] == doneCalls && doneAlerts + [] == doneAlerts && rows + [] == rows;
    batch := Batch(doneCalls, doneAlerts, Committed(rows));
  }

  class PhotoManagerHook {
    const userId: string
    var photos: seq<Photo>
    var uploading: bool
    var search: string
    var sortType: string
    /** The Supabase calls made so far, oldest first. */
    ghost var calls: seq<Call>
    /** The alerts shown so far, oldest first. */
    ghost var notices: seq<Notice>

    constructor (userId: string)
      ensures this.userId == userId
      ensures photos == [] && !uploading && search == "" && sortType == "date"
      ensures calls == [] && notices == []
    {
      this.userId := userId;
      photos := [];
      uploading := false;
      search := "";
      sortType := "date";
      calls := [];
      notices := [];
    }

    /** The `photos` the hook returns: the whole list; `search` is exposed
        but filters nothing. */
    function Shown(): seq<Photo>
      reads this
    {
      photos
    }

    method SetSearch(s: string)
      modifies this
      ensures search == s
      ensures photos == old(photos) && uploading == old(uploading) && sortType == old(sortType)
      ensures calls == old(calls) && notices == old(notices)
    {
      search := s;
    }

    method SetSortType(t: string)
      modifies this
      ensures sortType == t
      ensures photos == old(photos) && uploading == old(uploading) && search == old(search)
      ensures calls == old(calls) && notices == old(notices)
    {
      sortType := t;
    }

    /** `fetchPhotos`: without a user no query is made; a query error keeps
        the list; success sets it to the data, or to `[]` when the data is
        null. */
    method Load(answer: Db<Option<seq<Photo>>>)
      modifies this
      ensures userId == "" ==> calls == old(calls) && photos == old(photos)
      ensures userId != "" ==> calls == old(calls) + [SelectPhotos(userId, OrderColumn(sortType))]
      ensures userId != "" ==> photos == match answer
        case Failed(_) => old(photos)
        case Done(data) => data.GetOr([])
      ensures notices == old(notices)
      ensures uploading == old(uploading) && search == old(search) && sortType == old(sortType)
    {
      if userId == "" {
        return;
      }
      calls := calls + [SelectPhotos(userId, OrderColumn(sortType))];
      match answer {
        case Failed(_) =>
        case Done(data) =>
          photos := data.GetOr([]);
      }
    }

    /** `uploadPhotos`: runs the batch; a committed batch puts its rows in
        front of the list as one block, an aborted one keeps the list (the
        rows already inserted included) and alerts the error's message.
        `uploading` ends false. */
    method Upload(files: seq<File>, answers: seq<FileAnswers>)
      requires |answers| == |files|
      modifies this
      ensures !uploading
      ensures calls == old(calls) + RunBatch(userId, files, answers).calls
      ensures match RunBatch(userId, files, answers).outcome
        case Committed(rows) =>
          photos == rows + old(photos) && notices == old(notices) + RunBatch(userId, files, answers).alerts
        case Aborted(m) =>
          photos == old(photos) && notices == old(notices) + RunBatch(userId, files, answers).alerts + [Alert(m)]
      ensures search == old(search) && sortType == old(sortType)
    {
      uploading := true;
      var batch := RunLoop(userId, files, answers);
      calls := calls + batch.calls;
      notices := notices + batch.alerts;
      match batch.outcome {
        case Aborted(m) =>
          notices := notices + [Alert(m)];
        case Committed(rows) =>
          photos := rows + photos;
      }
      uploading := false;
    }

    /** `deletePhoto`: the stored object is removed first; a storage error
        skips the row delete; the id leaves the list only when both steps
        succeeded. Each error is alerted. */
    method Delete(id: string, photoUrl: string, storageError: Option<string>, dbError: Option<string>)
      modifies this
      ensures storageError.Some? ==>
        && calls == old(calls) + [RemoveObject(photoUrl)]
        && photos == old(photos) && notices == old(notices) + [Alert(storageError.value)]
      ensures storageError.None? ==> calls == old(calls) + [RemoveObject(photoUrl), DeleteRow(id)]
      ensures storageError.None? && dbError.Some? ==>
        photos == old(photos) && notices == old(notices) + [Alert(dbError.value)]
      ensures storageError.None? && dbError.None? ==>
        photos == WithoutId(old(photos), id) && notices == old(notices)
      ensures uploading == old(uploading) && search == old(search) && sortType == old(sortType)
    {
      calls := calls + [RemoveObject(photoUrl)];
      if storageError.Some? {
        notices := notices + [Alert(storageError.value)];
        return;
      }
      calls := calls + [DeleteRow(id)];
      if dbError.Some? {
        notices := notices + [Alert(dbError.value)];
        return;
      }
      photos := WithoutId(photos, id);
    }
  }
}
