/** The `/api/food` route handlers of app/api/food/route.ts: list, upload,
    delete and rename of food photos. Each handler is a function (or, for the
    upload loop, a method that changes nothing) from the request's fields and
    the backend's answers to the calls it makes and the response it sends. */
module FoodRoute {
  import opened Common
  import opened Photos

  /** The Supabase table, storage and query calls the handlers make. */
  datatype FoodCall =
    | SelectFood(table: string, orderBy: string, ascending: bool)
    | UploadObject(bucket: string, path: string)
    | InsertFoodPhoto(table: string, userId: string, photoName: string, photoUrl: string)
    | RemoveObjects(bucket: string, paths: seq<string>)
    | DeleteFoodRow(table: string, id: string)
    | UpdatePhotoName(table: string, id: string, newName: string)

  /** The JSON bodies the handlers send. */
  datatype FoodBody =
    | PhotoList(rows: seq<Photo>)
    | OnePhoto(row: Photo)
    | ErrorBody(error: string)
    | MessageBody(message: string)

  datatype Response = Response(status: int, body: FoodBody)

  /** The calls a handler made and the response it sent. */
  datatype Trace = Trace(calls: seq<FoodCall>, response: Response)

  /** `sortType === "name" ? "photo_name" : "created_at"` after
      `searchParams.get("sortType") || "date"`: only `name` sorts by name;
      an absent or empty parameter sorts by date. */
  function FoodOrder(sortType: Option<string>): (column: string)
    ensures column == "photo_name" <==> sortType == Some("name")
    ensures column == "photo_name" || column == "created_at"
  {
    var s := if Truthy(sortType) then sortType.value else "date";
    if s == "name" then "photo_name" else "created_at"
  }

  /** `GET`: every row of `food_photos` (no user filter), always ascending. */
  function Get(sortType: Option<string>, answer: Db<seq<Photo>>): (t: Trace)
    ensures t.calls == [SelectFood("food_photos", FoodOrder(sortType), true)]
    ensures answer.Failed? ==> t.response == Response(500, ErrorBody(answer.message))
    ensures answer.Done? ==> t.response == Response(200, PhotoList(answer.data))
  {
    var calls := [SelectFood("food_photos", FoodOrder(sortType), true)];
    match answer
    case Failed(m) => Trace(calls, Response(500, ErrorBody(m)))
    case Done(rows) => Trace(calls, Response(200, PhotoList(rows)))
  }

  /** The backend's answers for one file of an upload: the clock reading,
      the storage upload's error and the insert. */
  datatype UploadAnswer = UploadAnswer(stamp: string, uploadError: Option<string>, insert: Db<Photo>)

  /** The calls one turn makes: the upload, then the insert unless the
      upload failed. */
  function FileCalls(userId: string, f: File, a: UploadAnswer): seq<FoodCall> {
    var path := StoragePath(a.stamp, f.name);
    [UploadObject("photos", path)]
    + if a.uploadError.Some? then [] else [InsertFoodPhoto("food_photos", userId, f.name, path)]
  }

  /** The turn for this file returns a 500. */
  predicate FileFails(a: UploadAnswer) {
    a.uploadError.Some? || a.insert.Failed?
  }

  function FailMessage(a: UploadAnswer): string
    requires FileFails(a)
  {
    if a.uploadError.Some? then a.uploadError.value else a.insert.message
  }

  /** The first file, from `i` on, whose turn fails: every earlier one gets
      through, and there is none exactly when every file from `i` on gets
      through. */
  function FirstFailFrom(answers: seq<UploadAnswer>, i: int): (k: Option<int>)
    requires 0 <= i <= |answers|
    ensures k.Some? ==> i <= k.value < |answers| && FileFails(answers[k.value])
    ensures k.Some? ==> forall j :: i <= j < k.value ==> !FileFails(answers[j])
    ensures k.None? <==> forall j :: i <= j < |answers| ==> !FileFails(answers[j])
    decreases |answers| - i
  {
    if i == |answers| then None
    else if FileFails(answers[i]) then Some(i)
    else FirstFailFrom(answers, i + 1)
  }

  /** The calls of the turns for the first `n` files, in order. */
  function TurnCalls(userId: string, files: seq<File>, answers: seq<UploadAnswer>, n: int): seq<FoodCall>
    requires |files| == |answers| && 0 <= n <= |files|
  {
    if n == 0 then []
    else TurnCalls(userId, files, answers, n - 1) + FileCalls(userId, files[n - 1], answers[n - 1])
  }

  /** Every file whose turn was reached was uploaded first, at its own
      `drive/<stamp>_<name>` key. */
  lemma {:induction false} UploadsEveryFile(userId: string, files: seq<File>, answers: seq<UploadAnswer>, n: int)
    requires |files| == |answers| && 0 <= n <= |files|
    ensures forall j :: 0 <= j < n ==>
      UploadObject("photos", StoragePath(answers[j].stamp, files[j].name)) in TurnCalls(userId, files, answers, n)
  {
    if n > 0 {
      UploadsEveryFile(userId, files, answers, n - 1);
      assert FileCalls(userId, files[n - 1], answers[n - 1])[0]
             == UploadObject("photos", StoragePath(answers[n - 1].stamp, files[n - 1].name));
    }
  }

  /** `POST`: a falsy `userId` is refused before the files are looked at,
      an empty file list next. Then the files are uploaded and inserted one
      by one; the first failing upload or insert answers 500 with its
      message and ends the loop, leaving the earlier files stored but not
      reported; when every file got through, the inserted rows come back in
      file order. */
  method Post(userId: Option<string>, files: seq<File>, answers: seq<UploadAnswer>)
    returns (calls: seq<FoodCall>, response: Response)
    requires |answers| == |files|
    ensures !Truthy(userId) ==> calls == [] && response == Response(400, ErrorBody("User ID is required"))
    ensures Truthy(userId) && files == [] ==> calls == [] && response == Response(400, ErrorBody("No files uploaded"))
    ensures Truthy(userId) && files != [] && FirstFailFrom(answers, 0).None? ==>
      && calls == TurnCalls(userId.value, files, answers, |files|)
      && response.status == 200 && response.body.PhotoList?
      && |response.body.rows| == |files|
      && forall j :: 0 <= j < |files| ==> response.body.rows[j] == answers[j].insert.data
    ensures Truthy(userId) && FirstFailFrom(answers, 0).Some? ==>
      var k := FirstFailFrom(answers, 0).value;
      && calls == TurnCalls(userId.value, files, answers, k + 1)
      && response == Response(500, ErrorBody(FailMessage(answers[k])))
  {
    if !Truthy(userId) {
      return [], Response(400, ErrorBody("User ID is required"));
    }
    if |files| == 0 {
      return [], Response(400, ErrorBody("No files uploaded"));
    }
    var uid := userId.value;
    var uploaded: seq<Photo> := [];
    calls := [];
    var i := 0;
    while i < |files|
      invariant 0 <= i <= |files|
      invariant forall j :: 0 <= j < i ==> !FileFails(answers[j])
      invariant FirstFailFrom(answers, 0) == FirstFailFrom(answers, i)
      invariant |uploaded| == i && forall j :: 0 <= j < i ==> uploaded[j] == answers[j].insert.data
      invariant calls == TurnCalls(uid, files, answers, i)
    {
      var f, a := files[i], answers[i];
      var path := StoragePath(a.stamp, f.name);
      calls := calls + [UploadObject("photos", path)];
      if a.uploadError.Some? {
        assert FileCalls(uid, f, a) == [UploadObject("photos", path)];
        assert FirstFailFrom(answers, i) == Some(i);
        return calls, Response(500, ErrorBody(a.uploadError.value));
      }
      calls := calls + [InsertFoodPhoto("food_photos", uid, f.name, path)];
      assert FileCalls(uid, f, a) == [UploadObject("photos", path), InsertFoodPhoto("food_photos", uid, f.name, path)];
      match a.insert {
        case Failed(m) =>
          assert FirstFailFrom(answers, i) == Some(i);
          return calls, Response(500, ErrorBody(m));
        case Done(row) =>
          uploaded := uploaded + [row];
      }
      i := i + 1;
    }
    response := Response(200, PhotoList(uploaded));
  }

  /** `DELETE`: both parameters must be truthy; the stored object goes
      first, and a storage error answers 500 without touching the table. */
  function Delete(id: Option<string>, photoUrl: Option<string>, storageError: Option<string>, dbError: Option<string>): (t: Trace)
    ensures !Truthy(id) || !Truthy(photoUrl) ==> t == Trace([], Response(400, ErrorBody("Missing parameters")))
    ensures Truthy(id) && Truthy(photoUrl) && storageError.Some? ==>
      t == Trace([RemoveObjects("photos", [photoUrl.value])], Response(500, ErrorBody(storageError.value)))
    ensures Truthy(id) && Truthy(photoUrl) && storageError.None? ==>
      && t.calls == [RemoveObjects("photos", [photoUrl.value]), DeleteFoodRow("food_photos", id.value)]
      && t.response == if dbError.Some? then Response(500, ErrorBody(dbError.value))
                       else Response(200, MessageBody("Photo deleted successfully"))
  {
    if !Truthy(id) || !Truthy(photoUrl) then Trace([], Response(400, ErrorBody("Missing parameters")))
    else
      var remove := [RemoveObjects("photos", [photoUrl.value])];
      if storageError.Some? then Trace(remove, Response(500, ErrorBody(storageError.value)))
      else
        var calls := remove + [DeleteFoodRow("food_photos", id.value)];
        if dbError.Some? then Trace(calls, Response(500, ErrorBody(dbError.value)))
        else Trace(calls, Response(200, MessageBody("Photo deleted successfully")))
  }

  /** `PATCH`: both fields of the JSON body must be truthy; the update goes
      to the `photos` table (not `food_photos`), and the updated row comes
      back. */
  function Patch(id: Option<string>, newName: Option<string>, answer: Db<Photo>): (t: Trace)
    ensures !Truthy(id) || !Truthy(newName) ==> t == Trace([], Response(400, ErrorBody("Missing parameters")))
    ensures Truthy(id) && Truthy(newName) ==>
      && t.calls == [UpdatePhotoName("photos", id.value, newName.value)]
      && t.response == match answer
           case Failed(m) => Response(500, ErrorBody(m))
           case Done(row) => Response(200, OnePhoto(row))
  {
    if !Truthy(id) || !Truthy(newName) then Trace([], Response(400, ErrorBody("Missing parameters")))
    else
      var calls := [UpdatePhotoName("photos", id.value, newName.value)];
      match answer
      case Failed(m) => Trace(calls, Response(500, ErrorBody(m)))
      case Done(row) => Trace(calls, Response(200, OnePhoto(row)))
  }

  /** A refused request makes no backend call: handlers validate before
      they act. */
  lemma RefusedMakesNoCall(id: Option<string>, photoUrl: Option<string>, newName: Option<string>,
                           storageError: Option<string>, dbError: Option<string>, answer: Db<Photo>)
    ensures Delete(id, photoUrl, storageError, dbError).response.status == 400 <==>
            Delete(id, photoUrl, storageError, dbError).calls == []
    ensures Patch(id, newName, answer).response.status == 400 <==> Patch(id, newName, answer).calls == []
  {
  }
}
