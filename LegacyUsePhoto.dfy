/** The older `usePhoto` hook of utils/photo-hook/usePhoto.ts. It shares the
    search view and the duplicate check with the newer hook, reports through
    `alert` instead of toasts, has no rename, and its delete drops the id
    from the list even when the response is not ok. */
module LegacyUsePhoto {
  import opened Common
  import opened Photos

  class LegacyPhotoHook {
    const userId: string
    const apiRoute: string
    var photos: seq<Photo>
    var uploading: bool
    var search: string
    var sortType: string
    /** The requests sent so far, oldest first. */
    ghost var requests: seq<ApiRequest>
    /** The alerts shown so far, oldest first. */
    ghost var notices: seq<Notice>

    constructor (userId: string, apiRoute: string)
      ensures this.userId == userId && this.apiRoute == apiRoute
      ensures photos == [] && !uploading && search == "" && sortType == "date"
      ensures requests == [] && notices == []
    {
      this.userId := userId;
      this.apiRoute := apiRoute;
      photos := [];
      uploading := false;
      search := "";
      sortType := "date";
      requests := [];
      notices := [];
    }

    /** The `photos` the hook returns: the same search view as the newer hook. */
    function Shown(): seq<Photo>
      reads this
    {
      Filtered(photos, search)
    }

    method SetSearch(s: string)
      modifies this
      ensures search == s
      ensures photos == old(photos) && uploading == old(uploading) && sortType == old(sortType)
      ensures requests == old(requests) && notices == old(notices)
    {
      search := s;
    }

    method SetSortType(t: string)
      modifies this
      ensures sortType == t
      ensures photos == old(photos) && uploading == old(uploading) && search == old(search)
      ensures requests == old(requests) && notices == old(notices)
    {
      sortType := t;
    }

    /** `fetchPhotos`: without a user nothing happens; a truthy body replaces
        the list; a falsy body or an error only reaches the console. */
    method Load(reply: Json<seq<Photo>>)
      modifies this
      ensures userId == "" ==> photos == old(photos) && requests == old(requests)
      ensures userId != "" ==> requests == old(requests) + [ListPhotos(apiRoute, userId, sortType)]
      ensures userId != "" ==>
        photos == if reply.Parsed? && reply.body.Some? then reply.body.value else old(photos)
      ensures notices == old(notices)
      ensures uploading == old(uploading) && search == old(search) && sortType == old(sortType)
    {
      if userId == "" {
        return;
      }
      requests := requests + [ListPhotos(apiRoute, userId, sortType)];
      if reply.Parsed? && reply.body.Some? {
        photos := reply.body.value;
      }
    }

    /** `uploadPhotos`: an all-duplicate batch raises one alert and makes no
        request; otherwise one POST with the kept files, whose success puts
        the returned records in front and whose failure alerts and keeps the
        list. `uploading` always ends false. */
    method Upload(files: seq<File>, reply: Fetch<seq<Photo>>)
      modifies this
      ensures !uploading
      ensures NewFiles(old(photos), files) == [] ==>
        && photos == old(photos) && requests == old(requests)
        && notices == old(notices) + [Alert("That file(s) is already uploaded.")]
      ensures NewFiles(old(photos), files) != [] ==>
        requests == old(requests) + [UploadFiles(apiRoute, userId, NewFiles(old(photos), files))]
      ensures NewFiles(old(photos), files) != [] && reply.Ok? ==>
        photos == reply.data + old(photos) && notices == old(notices)
      ensures NewFiles(old(photos), files) != [] && reply.NotOk? ==>
        photos == old(photos) && notices == old(notices) + [Alert("Failed to upload photo")]
      ensures NewFiles(old(photos), files) != [] && reply.Exception? ==>
        photos == old(photos) && notices == old(notices) + [Alert(reply.message)]
      ensures search == old(search) && sortType == old(sortType)
    {
      uploading := true;
      var kept := NewFiles(photos, files);
      if kept == [] {
        notices := notices + [Alert("That file(s) is already uploaded.")];
        uploading := false;
        return;
      }
      requests := requests + [UploadFiles(apiRoute, userId, kept)];
      match reply {
        case Ok(newPhotos) =>
          photos := newPhotos + photos;
        case NotOk =>
          notices := notices + [Alert("Failed to upload photo")];
        case Exception(message) =>
          notices := notices + [Alert(message)];
      }
      uploading := false;
    }

    /** `deletePhoto`: a not-ok response is only logged to the console and
        the id is removed anyway; only a thrown error keeps the list. */
    method Delete(id: string, photoUrl: string, reply: Fetch<()>)
      modifies this
      ensures requests == old(requests) + [DeletePhoto(apiRoute, id, photoUrl)]
      ensures reply.Ok? || reply.NotOk? ==> photos == WithoutId(old(photos), id) && notices == old(notices)
      ensures reply.Exception? ==> photos == old(photos) && notices == old(notices) + [Alert(reply.message)]
      ensures uploading == old(uploading) && search == old(search) && sortType == old(sortType)
    {
      requests := requests + [DeletePhoto(apiRoute, id, photoUrl)];
      match reply {
        case Exception(message) =>
          notices := notices + [Alert(message)];
        case _ =>
          photos := WithoutId(photos, id);
      }
    }
  }
}
