/** Image references in the order store (mytailor5/services/db.ts):
    uploading inline images to object storage before a save, and turning a
    stored reference into something the browser can fetch. Every backend
    call is a parameter: whether an upload at a given index succeeded, and
    what the signing service answers for a path. */
module StoreImages {
  import opened Wrappers
  import opened Text

  const StorageRoot: string := "orders/"

  /** The three kinds of reference `uploadImages` passes through untouched. */
  predicate IsPersisted(img: string) {
    StartsWith(img, "http://") || StartsWith(img, "https://") || StartsWith(img, StorageRoot)
  }

  /** The path an upload returns: `orders/<userId>/<orderId>/<index>.jpg`. */
  function StoragePath(userId: string, orderId: string, index: nat): (p: string)
    ensures IsPersisted(p)
  {
    var p := StorageRoot + userId + "/" + orderId + "/" + NatToString(index) + ".jpg";
    assert p[..|StorageRoot|] == StorageRoot;
    p
  }

  /** `uploadImageToStorage`: `uploaded` says whether the user was signed in
      and the storage upload went through; on any failure the inline data
      itself is returned as the fallback. */
  function UploadImageToStorage(data: string, orderId: string, index: nat,
                                userId: string, uploaded: bool): string
  {
    if uploaded then StoragePath(userId, orderId, index) else data
  }

  /** `uploadImages`: one result per image, in the same order; persisted
      references are returned as they are, the others are uploaded under
      their own index. `uploaded(i)` is the outcome of the upload at index i. */
  function UploadImages(images: seq<string>, orderId: string, userId: string,
                        uploaded: nat -> bool): (r: seq<string>)
    ensures |r| == |images|
    ensures forall i :: 0 <= i < |images| && IsPersisted(images[i]) ==> r[i] == images[i]
    ensures forall i :: 0 <= i < |images| && !IsPersisted(images[i]) && uploaded(i) ==>
              r[i] == StoragePath(userId, orderId, i)
    ensures forall i :: 0 <= i < |images| && !IsPersisted(images[i]) && !uploaded(i) ==>
              r[i] == images[i]
  {
    seq(|images|, i requires 0 <= i < |images| =>
      if IsPersisted(images[i]) then images[i]
      else UploadImageToStorage(images[i], orderId, i, userId, uploaded(i)))
  }

  /** The indices an `uploadImages` call would send to storage. */
  function Attempted(images: seq<string>): set<nat> {
    set i: nat | i < |images| && !IsPersisted(images[i])
  }

  /** Saving again uploads only what failed the first time: every upload
      that succeeded left a path under `orders/`, which the second pass
      skips. */
  lemma RetryUploadsOnlyFailures(images: seq<string>, orderId: string, userId: string,
                                 uploaded: nat -> bool)
    ensures Attempted(UploadImages(images, orderId, userId, uploaded))
         == set i | i in Attempted(images) && !uploaded(i)
  {
    var r := UploadImages(images, orderId, userId, uploaded);
    forall i | 0 <= i < |images| && (IsPersisted(images[i]) || uploaded(i))
      ensures IsPersisted(r[i])
    {
    }
  }

  /** Once every upload has succeeded, uploading the result again changes
      nothing, whatever the backend does the second time. */
  lemma UploadIdempotentAfterSuccess(images: seq<string>, orderId: string, userId: string,
                                     uploaded: nat -> bool, again: nat -> bool)
    requires forall i :: i in Attempted(images) ==> uploaded(i)
    ensures UploadImages(UploadImages(images, orderId, userId, uploaded), orderId, userId, again)
         == UploadImages(images, orderId, userId, uploaded)
  {
    var r := UploadImages(images, orderId, userId, uploaded);
    forall i | 0 <= i < |r| ensures IsPersisted(r[i]) {
      if !IsPersisted(images[i]) {
        assert i in Attempted(images);
      }
    }
  }

  // ---------------------------------------------------------------- getImageUrl

  datatype RefKind = Inline | Url | Stored | Unknown

  /** How `getImageUrl` reads a reference, tested in the source's order. */
  function Classify(path: string): RefKind {
    if StartsWith(path, "data:image") then Inline
    else if StartsWith(path, "http://") || StartsWith(path, "https://") then Url
    else if StartsWith(path, StorageRoot) then Stored
    else Unknown
  }

  /** `getImageUrl`. `signedIn` is the answer of `getUser`; `sign` is the
      storage service's `createSignedUrl` for a path inside the bucket, with
      `None` for an error. The `replace('orders/', '')` of the source removes
      the first occurrence of the root, which is the prefix just tested. Every
      failure falls back to the reference itself. */
  function GetImageUrl(path: string, signedIn: bool, sign: string -> Option<string>): (r: string)
    ensures Classify(path) != Stored ==> r == path
    ensures Classify(path) == Stored ==>
              r == (if signedIn && sign(path[|StorageRoot|..]).Some?
                    then sign(path[|StorageRoot|..]).value else path)
  {
    match Classify(path)
    case Inline => path
    case Url => path
    case Stored =>
      if !signedIn then path
      else
        (match sign(path[|StorageRoot|..])
         case Some(url) => url
         case None => path)
    case Unknown => path
  }

  /** Only storage paths are ever signed, and what is signed is the path
      inside the bucket. */
  lemma OnlyStoragePathsAreSigned(path: string, signedIn: bool, sign: string -> Option<string>)
    requires GetImageUrl(path, signedIn, sign) != path
    ensures StartsWith(path, StorageRoot)
    ensures !StartsWith(path, "data:image")
    ensures sign(path[|StorageRoot|..]) == Some(GetImageUrl(path, signedIn, sign))
  {
  }
}
