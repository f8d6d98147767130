/** The `usePhoto` hook of utils/hooks/usePhoto.ts: the photo list of one user
    behind an API route, with its search view, a batch upload that drops
    already-known names, and a delete and a rename that patch the list only
    after the server said yes. Each awaited `fetch` is a parameter of the
    method that awaits it. */
module UsePhoto {
  import opened Common
  import opened Photos

  class PhotoHook {
    const userId: string
    const apiRoute: string
    var photos: seq<Photo>
    var uploading: bool
    var search: string
    var sortType: string
    /** The requests sent so far, oldest first. */
    ghost var requests: seq<ApiRequest>
    /** The toasts shown so far, oldest first. */
    ghost var notices: seq<Notice>

    /** The state of a freshly mounted hook. */
    constructor (userId: string, apiRoute: string)
      ensures this.userId == userId && this.apiRoute == apiRoute
      ensures photos == [] && !uploading && search == "" && sortType == "date"
      ensures requests == [] && notices == []
    {
      this.userId := userId;
      this.apiRoute := apiRoute;
      photos := [];
      uploading := false;
      search := "";
      sortType := "date";
      requests := [];
      notices := [];
    }

    /** The `photos` the hook returns: the search view of the list. */
    function Shown(): seq<Photo>
      reads this
    {
      Filtered(photos, search)
    }

    method SetSearch(s: string)
      modifies this
      ensures search == s
      ensures photos == old(photos) && uploading == old(uploading) && sortType == old(sortType)
      ensures requests == old(requests) && notices == old(notices)
    {
      search := s;
    }

    /** `setSortType`; the effect then runs `Load` again. */
    method SetSortType(t: string)
      modifies this
      ensures sortType == t
      ensures photos == old(photos) && uploading == old(uploading) && search == old(search)
      ensures requests == old(requests) && notices == old(notices)
    {
      sortType := t;
    }

    /** `fetchPhotos`, run when `userId` or `sortType` changes. Without a
        user nothing is requested; otherwise a truthy body replaces the list
        wholesale (`response.ok` is not looked at) and a falsy body or a
        thrown error keeps it and shows an error toast. */
    method Load(reply: Json<seq<Photo>>)
      modifies this
      ensures userId == "" ==> photos == old(photos) && requests == old(requests) && notices == old(notices)
      ensures userId != "" ==> requests == old(requests) + [ListPhotos(apiRoute, userId, sortType)]
      ensures userId != "" && reply.Parsed? && reply.body.Some? ==>
        photos == reply.body.value && notices == old(notices)
      ensures userId != "" && !(reply.Parsed? && reply.body.Some?) ==>
        photos == old(photos) && notices == old(notices) + [ErrorToast("Failed to load photos!")]
      ensures uploading == old(uploading) && search == old(search) && sortType == old(sortType)
    {
      if userId == "" {
        return;
      }
      requests := requests + [ListPhotos(apiRoute, userId, sortType)];
      if reply.Parsed? && reply.body.Some? {
        photos := reply.body.value;
      } else {
        notices := notices + [ErrorToast("Failed to load photos!")];
      }
    }

    /** `uploadPhotos`. The files whose names are already in the list (the
        whole list, not the search view) are dropped. If none is left, no
        request is made, the list is kept and an error toast is shown.
        Otherwise one POST carries the kept files; on success the server's
        records go in front of the list, on failure the list is kept. On
        every path `uploading` ends false. */
    method Upload(files: seq<File>, reply: Fetch<seq<Photo>>)
      modifies this
      ensures !uploading
      ensures NewFiles(old(photos), files) == [] ==>
        && photos == old(photos) && requests == old(requests)
        && notices == old(notices) + [ErrorToast("That file(s) is already uploaded.")]
      ensures NewFiles(old(photos), files) != [] ==>
        requests == old(requests) + [UploadFiles(apiRoute, userId, NewFiles(old(photos), files))]
      ensures NewFiles(old(photos), files) != [] && reply.Ok? ==>
        photos == reply.data + old(photos) && notices == old(notices) + [SuccessToast("Photos uploaded successfully!")]
      ensures NewFiles(old(photos), files) != [] && reply.NotOk? ==>
        photos == old(photos) && notices == old(notices) + [ErrorToast("Failed to upload photo")]
      ensures NewFiles(old(photos), files) != [] && reply.Exception? ==>
        photos == old(photos) && notices == old(notices) + [ErrorToast(reply.message)]
      ensures search == old(search) && sortType == old(sortType)
    {
      uploading := true;
      var kept := NewFiles(photos, files);
      if kept == [] {
        notices := notices + [ErrorToast("That file(s) is already uploaded.")];
        uploading := false;
        return;
      }
      requests := requests + [UploadFiles(apiRoute, userId, kept)];
      match reply {
        case Ok(newPhotos) =>
          photos := newPhotos + photos;
          notices := notices + [SuccessToast("Photos uploaded successfully!")];
        case NotOk =>
          notices := notices + [ErrorToast("Failed to upload photo")];
        case Exception(message) =>
          notices := notices + [ErrorToast(message)];
      }
      uploading := false;
    }

    /** `deletePhoto`: the id leaves the list only when the response is ok. */
    method Delete(id: string, photoUrl: string, reply: Fetch<()>)
      modifies this
      ensures requests == old(requests) + [DeletePhoto(apiRoute, id, photoUrl)]
      ensures reply.Ok? ==> photos == WithoutId(old(photos), id) && notices == old(notices) + [SuccessToast("Photo deleted successfully")]
      ensures reply.NotOk? ==> photos == old(photos) && notices == old(notices) + [ErrorToast("Failed to delete photo")]
      ensures reply.Exception? ==> photos == old(photos) && notices == old(notices) + [ErrorToast(reply.message)]
      ensures uploading == old(uploading) && search == old(search) && sortType == old(sortType)
    {
      requests := requests + [DeletePhoto(apiRoute, id, photoUrl)];
      match reply {
        case Ok(_) =>
          photos := WithoutId(photos, id);
          notices := notices + [SuccessToast("Photo deleted successfully")];
        case NotOk =>
          notices := notices + [ErrorToast("Failed to delete photo")];
        case Exception(message) =>
          notices := notices + [ErrorToast(message)];
      }
    }

    /** `updatePhotoName`: the name changes only when the response is ok;
        success shows no toast. */
    method Rename(id: string, newName: string, reply: Fetch<()>)
      modifies this
      ensures requests == old(requests) + [RenamePhoto(apiRoute, id, newName)]
      ensures reply.Ok? ==> photos == Renamed(old(photos), id, newName) && notices == old(notices)
      ensures reply.NotOk? ==> photos == old(photos) && notices == old(notices) + [ErrorToast("Failed to update photo name")]
      ensures reply.Exception? ==> photos == old(photos) && notices == old(notices) + [ErrorToast(reply.message)]
      ensures uploading == old(uploading) && search == old(search) && sortType == old(sortType)
    {
      requests := requests + [RenamePhoto(apiRoute, id, newName)];
      match reply {
        case Ok(_) =>
          photos := Renamed(photos, id, newName);
        case NotOk =>
          notices := notices + [ErrorToast("Failed to update photo name")];
        case Exception(message) =>
          notices := notices + [ErrorToast(message)];
      }
    }
  }

  /** A hook mounted without a user issues no request and shows no photo,
      whatever the reply would have been. */
  method EmptyUserMakesNoRequest(apiRoute: string, reply: Json<seq<Photo>>)
    returns (ghost requests: seq<ApiRequest>, shown: seq<Photo>)
    ensures requests == [] && shown == []
  {
    var hook := new PhotoHook("", apiRoute);
    hook.Load(reply);
    requests, shown := hook.requests, hook.Shown();
  }
}
