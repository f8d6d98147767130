/** The three photo hooks side by side, each loaded with the same list and
    then sent the same delete with the backend refusing it. The newer API
    hook keeps the photo, the older one drops it anyway, and the
    direct-to-Supabase hook keeps it whichever of its two steps failed. */
module PhotoVariants {
  import opened Common
  import opened Photos
  import UsePhoto
  import LegacyUsePhoto
  import PhotoManager

  method RefusedDelete(userId: string, apiRoute: string, photos: seq<Photo>, id: string, photoUrl: string, message: string)
    returns (newer: seq<Photo>, older: seq<Photo>, direct: seq<Photo>, directStorage: seq<Photo>)
    requires userId != ""
    ensures newer == photos
    ensures older == WithoutId(photos, id)
    ensures direct == photos && directStorage == photos
  {
    var a := new UsePhoto.PhotoHook(userId, apiRoute);
    a.Load(Parsed(Some(photos)));
    a.Delete(id, photoUrl, NotOk);
    newer := a.photos;

    var b := new LegacyUsePhoto.LegacyPhotoHook(userId, apiRoute);
    b.Load(Parsed(Some(photos)));
    b.Delete(id, photoUrl, NotOk);
    older := b.photos;

    var c := new PhotoManager.PhotoManagerHook(userId);
    c.Load(Done(Some(photos)));
    c.Delete(id, photoUrl, None, Some(message));
    direct := c.photos;

    var d := new PhotoManager.PhotoManagerHook(userId);
    d.Load(Done(Some(photos)));
    d.Delete(id, photoUrl, Some(message), None);
    directStorage := d.photos;
  }

  /** With a search typed in, the two API hooks show the matching photos
      while the direct hook still shows them all. */
  method SearchViews(userId: string, apiRoute: string, photos: seq<Photo>, search: string)
    returns (newer: seq<Photo>, older: seq<Photo>, direct: seq<Photo>)
    requires userId != ""
    ensures newer == Filtered(photos, search) && older == Filtered(photos, search)
    ensures direct == photos
  {
    var a := new UsePhoto.PhotoHook(userId, apiRoute);
    a.Load(Parsed(Some(photos)));
    a.SetSearch(search);
    newer := a.Shown();

    var b := new LegacyUsePhoto.LegacyPhotoHook(userId, apiRoute);
    b.Load(Parsed(Some(photos)));
    b.SetSearch(search);
    older := b.Shown();

    var c := new PhotoManager.PhotoManagerHook(userId);
    c.Load(Done(Some(photos)));
    c.SetSearch(search);
    direct := c.Shown();
  }
}
