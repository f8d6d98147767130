/** The photo record shared by the three photo hooks and the pure parts of
    those hooks: the search view, the duplicate-name partition done before an
    upload, and the list updates done after a delete or a rename. */
module Photos {
  import Text
  import Lists

  /** One row of the `photos` / `food_photos` tables as the hooks hold it. */
  datatype Photo = Photo(id: string, userId: string, photoUrl: string, photoName: string, createdAt: string)

  /** A file picked for upload; only its name takes part in the logic. */
  datatype File = File(name: string)

  /** The storage key both upload paths give a file:
      `drive/${Date.now()}_${file.name}`, with the clock's reading as `stamp`.
      The key ends with the file's name. */
  function StoragePath(stamp: string, name: string): (path: string)
    ensures Text.StartsWith(path, "drive/" + stamp + "_")
    ensures |path| == |"drive/" + stamp + "_"| + |name| && path[|path| - |name|..] == name
  {
    "drive/" + stamp + "_" + name
  }

  /** A request a hook sends to one of the app's photo API routes
      (`/api/<route>`): the list query, the multipart upload, the delete and
      the rename. */
  datatype ApiRequest =
    | ListPhotos(route: string, userId: string, sortType: string)
    | UploadFiles(route: string, userId: string, files: seq<File>)
    | DeletePhoto(route: string, id: string, photoUrl: string)
    | RenamePhoto(route: string, id: string, newName: string)

  function IdOf(p: Photo): string {
    p.id
  }

  /** `photo.photo_name.toLowerCase().includes(search.toLowerCase())`. */
  predicate NameMatches(p: Photo, search: string) {
    Text.Contains(Text.Lower(p.photoName), Text.Lower(search))
  }

  function MatchesSearch(search: string): Photo -> bool {
    (p: Photo) => NameMatches(p, search)
  }

  /** `photos.filter(photo => ...includes(search...))`: the search view. */
  function Filtered(photos: seq<Photo>, search: string): seq<Photo> {
    Lists.Filter(photos, MatchesSearch(search))
  }

  /** The search view is exactly the order-preserving subsequence of the
      photos whose lower-cased name contains the lower-cased search: it is a
      subsequence, each of its entries matches, and each matching photo keeps
      its multiplicity while each other photo is gone. */
  lemma FilteredSpec(photos: seq<Photo>, search: string)
    ensures Lists.SubsequenceOf(Filtered(photos, search), photos)
    ensures forall i :: 0 <= i < |Filtered(photos, search)| ==> NameMatches(Filtered(photos, search)[i], search)
    ensures forall p :: multiset(Filtered(photos, search))[p] == if NameMatches(p, search) then multiset(photos)[p] else 0
  {
    Lists.FilterSubsequence(photos, MatchesSearch(search));
    forall p ensures multiset(Filtered(photos, search))[p] == if NameMatches(p, search) then multiset(photos)[p] else 0 {
      Lists.FilterCount(photos, MatchesSearch(search), p);
    }
  }

  /** Clearing the search shows the whole list. */
  lemma FilteredEmptySearch(photos: seq<Photo>)
    ensures Filtered(photos, "") == photos
  {
    forall i | 0 <= i < |photos| ensures MatchesSearch("")(photos[i]) {
      Text.ContainsEmpty(Text.Lower(photos[i].photoName));
    }
    Lists.FilterKeepsAll(photos, MatchesSearch(""));
  }

  /** The view of a concatenation is the concatenation of the views: photos
      keep their relative order in the view. */
  lemma FilteredAppend(a: seq<Photo>, b: seq<Photo>, search: string)
    ensures Filtered(a + b, search) == Filtered(a, search) + Filtered(b, search)
  {
    Lists.FilterAppend(a, b, MatchesSearch(search));
  }

  /** The search is case-insensitive: "VACA" and "vaca" give the same view. */
  lemma FilteredIgnoresCase(photos: seq<Photo>, search: string)
    ensures Filtered(photos, Text.Lower(search)) == Filtered(photos, search)
  {
    Text.LowerIdempotent(search);
    Lists.FilterAgrees(photos, MatchesSearch(Text.Lower(search)), MatchesSearch(search));
  }

  /** Searching the view again changes nothing. */
  lemma FilteredIdempotent(photos: seq<Photo>, search: string)
    ensures Filtered(Filtered(photos, search), search) == Filtered(photos, search)
  {
    Lists.FilterIdempotent(photos, MatchesSearch(search));
  }

  /** `new Set(photos.map(photo => photo.photo_name))`. */
  function Names(photos: seq<Photo>): set<string> {
    set i | 0 <= i < |photos| :: photos[i].photoName
  }

  function NotUploaded(photos: seq<Photo>): File -> bool {
    (f: File) => f.name !in Names(photos)
  }

  /** `files.filter(file => !existingPhotoNames.has(file.name))`. */
  function NewFiles(photos: seq<Photo>, files: seq<File>): seq<File> {
    Lists.Filter(files, NotUploaded(photos))
  }

  /** The files the pre-upload check drops. */
  function DuplicateFiles(photos: seq<Photo>, files: seq<File>): seq<File> {
    Lists.Filter(files, Lists.Not(NotUploaded(photos)))
  }

  /** The duplicate check compares each file with every photo of the list
      (not the search view): a kept file's name is the name of no photo, a
      dropped file's name is the name of some photo, and kept plus dropped
      files are the batch up to order. */
  lemma NewFilesSpec(photos: seq<Photo>, files: seq<File>)
    ensures forall i, j :: 0 <= i < |NewFiles(photos, files)| && 0 <= j < |photos| ==>
      NewFiles(photos, files)[i].name != photos[j].photoName
    ensures forall i :: 0 <= i < |DuplicateFiles(photos, files)| ==>
      exists j :: 0 <= j < |photos| && photos[j].photoName == DuplicateFiles(photos, files)[i].name
    ensures multiset(NewFiles(photos, files)) + multiset(DuplicateFiles(photos, files)) == multiset(files)
  {
    Lists.FilterPartition(files, NotUploaded(photos));
    var kept := NewFiles(photos, files);
    forall i, j | 0 <= i < |kept| && 0 <= j < |photos| ensures kept[i].name != photos[j].photoName {
      assert NotUploaded(photos)(kept[i]);
      assert photos[j].photoName in Names(photos);
    }
    var dropped := DuplicateFiles(photos, files);
    forall i | 0 <= i < |dropped|
      ensures exists j :: 0 <= j < |photos| && photos[j].photoName == dropped[i].name
    {
      assert Lists.Not(NotUploaded(photos))(dropped[i]);
      assert dropped[i].name in Names(photos);
    }
  }

  /** Files are not checked against each other: when no name of the batch
      is taken, the whole batch is kept, same-name files included. */
  lemma NewFilesKeepsBatch(photos: seq<Photo>, files: seq<File>)
    requires forall i, j :: 0 <= i < |files| && 0 <= j < |photos| ==> files[i].name != photos[j].photoName
    ensures NewFiles(photos, files) == files
  {
    forall i | 0 <= i < |files| ensures NotUploaded(photos)(files[i]) {
      assert files[i].name !in Names(photos);
    }
    Lists.FilterKeepsAll(files, NotUploaded(photos));
  }

  /** Nothing is left to upload exactly when every file's name is already
      the name of a photo (an empty batch included). */
  lemma NewFilesEmptyIff(photos: seq<Photo>, files: seq<File>)
    ensures NewFiles(photos, files) == [] <==> forall i :: 0 <= i < |files| ==> files[i].name in Names(photos)
  {
    if NewFiles(photos, files) == [] {
      forall i | 0 <= i < |files| ensures files[i].name in Names(photos) {
        assert files[i] !in NewFiles(photos, files);
      }
    } else {
      var f := NewFiles(photos, files)[0];
      assert NotUploaded(photos)(f) && f in files;
    }
  }

  /** `photos.filter(photo => photo.id !== id)`. */
  function WithoutId(photos: seq<Photo>, id: string): seq<Photo> {
    Lists.RemoveKey(photos, IdOf, id)
  }

  /** Removing an id drops exactly the photos with that id and keeps the
      others, with their multiplicities, in their order. */
  lemma WithoutIdSpec(photos: seq<Photo>, id: string)
    ensures forall i :: 0 <= i < |WithoutId(photos, id)| ==> WithoutId(photos, id)[i].id != id
    ensures forall p: Photo :: p.id != id ==> multiset(WithoutId(photos, id))[p] == multiset(photos)[p]
    ensures Lists.SubsequenceOf(WithoutId(photos, id), photos)
    ensures (forall i :: 0 <= i < |photos| ==> photos[i].id != id) ==> WithoutId(photos, id) == photos
  {
    Lists.RemoveKeySpec(photos, IdOf, id);
    forall i | 0 <= i < |WithoutId(photos, id)| ensures WithoutId(photos, id)[i].id != id {
      assert WithoutId(photos, id)[i] in WithoutId(photos, id);
    }
  }

  function RenameTo(newName: string): Photo -> Photo {
    (p: Photo) => p.(photoName := newName)
  }

  /** `photos.map(photo => photo.id === id ? { ...photo, photo_name: newName } : photo)`. */
  function Renamed(photos: seq<Photo>, id: string, newName: string): seq<Photo> {
    Lists.UpdateKey(photos, IdOf, id, RenameTo(newName))
  }

  /** A rename keeps the length and, entry by entry, every field but the
      name; the name changes to `newName` exactly on the entries with the
      id. */
  lemma RenamedSpec(photos: seq<Photo>, id: string, newName: string)
    ensures |Renamed(photos, id, newName)| == |photos|
    ensures forall i :: 0 <= i < |photos| ==>
      var q := Renamed(photos, id, newName)[i];
      && q.id == photos[i].id && q.userId == photos[i].userId
      && q.photoUrl == photos[i].photoUrl && q.createdAt == photos[i].createdAt
      && q.photoName == (if photos[i].id == id then newName else photos[i].photoName)
  {
  }
}
