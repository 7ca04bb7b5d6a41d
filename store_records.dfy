/** Order records in the order store (mytailor5/services/db.ts): the mapping
    between the in-memory `Order` and a row of the `orders` table, `saveOrder`,
    the legacy single-image normalisation of `getOrders` and `importData`,
    and the import loop. The backend answers (signed-in user, upload and
    upsert outcomes, the JSON parser) are parameters. */
module StoreRecords {
  import opened Wrappers
  import opened Text
  import opened Orders
  import opened StoreImages
  import opened StoreIds

  /** The column values of one row. `images`, `note` and `tags` may be null
      in a row, which `None` stands for. */
  datatype Row = Row(
    customerName: string,
    createdAt: int,
    completedAt: Option<int>,
    images: Option<seq<string>>,
    note: Option<string>,
    price: JsNumber,
    status: Status,
    source: Option<Source>,
    tags: Option<seq<string>>)

  /** A row as `select('*')` returns it: the server's id, the columns, and the
      single-image field `imageBase64` of records made before orders had
      several images. */
  datatype StoredRow = StoredRow(id: string, row: Row, imageBase64: Option<string>)

  /** What `saveOrder` sends to `upsert`: the id only for an order that
      already has a UUID, the owner and the columns. */
  datatype Upsert = Upsert(id: Option<string>, userId: string, row: Row)

  /** `x || undefined` and `x || null` for a timestamp: 0 is falsy. */
  function DropZero(t: Option<int>): (r: Option<int>)
    ensures r == (if t == Some(0) then None else t)
  {
    match t
    case Some(v) => if v == 0 then None else t
    case None => None
  }

  /** `orderToDb`. */
  function OrderToDb(o: Order): (r: Row)
    ensures r.images == Some(o.images) && r.note == Some(o.note)
    ensures r.tags == Some(o.tags.GetOr([]))
    ensures r.completedAt == DropZero(o.completedAt)
  {
    Row(o.customerName, o.createdAt, DropZero(o.completedAt), Some(o.images),
        Some(o.note), o.price, o.status, o.source, Some(o.tags.GetOr([])))
  }

  /** `dbToOrder`: absent images and tags read as empty lists, an absent note
      as the empty text, a zero completion time as none. */
  function DbToOrder(s: StoredRow): (o: Order)
    ensures o.id == s.id && o.images == s.row.images.GetOr([])
    ensures o.note == s.row.note.GetOr("") && o.tags == Some(s.row.tags.GetOr([]))
    ensures o.completedAt == DropZero(s.row.completedAt)
  {
    Order(s.id, s.row.customerName, s.row.createdAt, DropZero(s.row.completedAt),
          s.row.images.GetOr([]), s.row.note.GetOr(""), s.row.price, s.row.status,
          s.row.source, Some(s.row.tags.GetOr([])))
  }

  /** Writing an order and reading its row back gives the order again, except
      that missing tags come back as the empty list and a zero completion time
      comes back as none. */
  lemma WireRoundTrip(o: Order, legacy: Option<string>)
    ensures DbToOrder(StoredRow(o.id, OrderToDb(o), legacy))
         == o.(completedAt := DropZero(o.completedAt), tags := Some(o.tags.GetOr([])))
    ensures o.completedAt != Some(0) ==>
              DbToOrder(StoredRow(o.id, OrderToDb(o), legacy)).completedAt == o.completedAt
  {
  }

  // ---------------------------------------------------------------- saveOrder

  /** `saveOrder`. `user` is the signed-in user's id, `rs` the random values
      of a fresh UUID, `uploaded(i)` the outcome of the upload of image i and
      `upsertError` the error the table write reports. The images are uploaded
      under `StorageOrderId`; the row carries an id only when the order's own
      id is a UUID, so a new order's row gets its id from the server. */
  function SaveOrder(order: Order, user: Option<string>, rs: seq<Nibble>,
                     uploaded: nat -> bool, upsertError: Option<string>): (r: Result<Upsert>)
    requires |rs| == 31
    ensures user.None? ==> r == Failure("保存订单失败: 用户未登录，请先登录")
    ensures user.Some? && upsertError.Some? ==> r == Failure("保存订单失败: " + upsertError.value)
    ensures r.Success? <==> user.Some? && upsertError.None?
    ensures r.Success? ==>
              && r.value.userId == user.value
              && (r.value.id.Some? <==> MatchesUuid(order.id))
              && (r.value.id.Some? ==> r.value.id.value == order.id)
              && r.value.row == OrderToDb(order.(images :=
                   UploadImages(order.images, StorageOrderId(order.id, rs), user.value, uploaded)))
  {
    if user.None? then Failure("保存订单失败: 用户未登录，请先登录")
    else
      var orderId := StorageOrderId(order.id, rs);
      var images := UploadImages(order.images, orderId, user.value, uploaded);
      var id := if MatchesUuid(order.id) then Some(order.id) else None;
      var write := Upsert(id, user.value, OrderToDb(order.(images := images)));
      match upsertError
      case Some(e) => Failure("保存订单失败: " + e)
      case None => Success(write)
  }

  /** The folder `deleteOrder` empties after deleting the row with `id`. */
  function CleanupFolder(userId: string, id: string): string {
    userId + "/" + id + "/"
  }

  /** A new order (its id not a UUID) has its images uploaded under a fresh
      UUID while its row is written without an id. Once the server assigns
      the row a different UUID, the folder `deleteOrder` empties for that row
      holds none of the uploaded images. */
  lemma NewOrderUploadsMissCleanup(order: Order, user: string, rs: seq<Nibble>,
                                   uploaded: nat -> bool, i: nat, serverId: string)
    requires |rs| == 31
    requires !MatchesUuid(order.id)
    requires i < |order.images| && !IsPersisted(order.images[i]) && uploaded(i)
    requires MatchesUuid(serverId) && serverId != GenerateUuid(rs)
    ensures SaveOrder(order, Some(user), rs, uploaded, None).value.id == None
    ensures
      var path := SaveOrder(order, Some(user), rs, uploaded, None).value.row.images.value[i];
      && path == StoragePath(user, GenerateUuid(rs), i)
      && !StartsWith(path[|StorageRoot|..], CleanupFolder(user, serverId))
  {
    var gen := GenerateUuid(rs);
    var path := StoragePath(user, gen, i);
    var inBucket := path[|StorageRoot|..];
    var folder := CleanupFolder(user, serverId);
    assert inBucket == user + "/" + gen + "/" + NatToString(i) + ".jpg";
    var k := |user| + 1;
    assert inBucket[k..k + 36] == gen;
    assert folder[k..k + 36] == serverId;
    assert inBucket[k..k + 36] != folder[k..k + 36];
  }

  // ---------------------------------------------------------------- getOrders

  /** `images` as `getOrders` computes it for a loaded order:
      `o.images || o.imageBase64 ? [o.imageBase64] : []`, which parses as
      `(o.images || o.imageBase64) ? [o.imageBase64] : []`. An array, even an
      empty one, is truthy, so the list becomes the one legacy field, and
      `None` inside the list is an `undefined` entry. */
  function LoadedImagesAsWritten(images: seq<string>, imageBase64: Option<string>): seq<Option<string>> {
    var arrayIsTruthy := true;
    if arrayIsTruthy || (imageBase64.Some? && imageBase64.value != "") then [imageBase64] else []
  }

  /** `getOrders` on the table's rows, as written: each order is built by
      `dbToOrder`, which does not copy `imageBase64`. */
  function GetOrdersImagesAsWritten(rows: seq<StoredRow>): (r: seq<seq<Option<string>>>)
    ensures |r| == |rows|
    ensures forall k :: 0 <= k < |rows| ==> r[k] == [None]
  {
    seq(|rows|, k requires 0 <= k < |rows| =>
      var o := DbToOrder(rows[k]);
      LoadedImagesAsWritten(o.images, None))
  }

  /** As written, the photos a row stores are never the ones that load: a
      row with photos loads with the single reference `undefined` instead. */
  lemma LoadLosesImages(rows: seq<StoredRow>, k: nat)
    requires k < |rows| && rows[k].row.images.Some? && rows[k].row.images.value != []
    ensures var stored := rows[k].row.images.value;
            GetOrdersImagesAsWritten(rows)[k] != seq(|stored|, i requires 0 <= i < |stored| => Some(stored[i]))
  {
    var stored := rows[k].row.images.value;
    assert seq(|stored|, i requires 0 <= i < |stored| => Some(stored[i]))[0] == Some(stored[0]);
  }

  /** The intended reading, and what `importData` does: the stored list when
      the field is present, else the non-empty legacy image alone, else no
      image. */
  function NormalizeImages(images: Option<seq<string>>, imageBase64: Option<string>): (r: seq<string>)
    ensures images.Some? ==> r == images.value
    ensures images.None? && imageBase64.Some? && imageBase64.value != "" ==> r == [imageBase64.value]
    ensures images.None? && (imageBase64.None? || imageBase64.value == "") ==> r == []
  {
    match images
    case Some(list) => list
    case None => if imageBase64.Some? && imageBase64.value != "" then [imageBase64.value] else []
  }

  /** One loaded order with the legacy field resolved once at the boundary. */
  function LoadOrder(s: StoredRow): Order {
    DbToOrder(s).(images := NormalizeImages(s.row.images, s.imageBase64))
  }

  /** Saved images come back in the same order, the note and the price
      unchanged: the round trip of a save followed by a load. */
  lemma SaveThenLoad(o: Order, id: string)
    ensures LoadOrder(StoredRow(id, OrderToDb(o), None)).images == o.images
    ensures LoadOrder(StoredRow(id, OrderToDb(o), None)).note == o.note
    ensures LoadOrder(StoredRow(id, OrderToDb(o), None)).price == o.price
  {
  }

  /** A legacy record without an image list loads with its single image. */
  lemma LegacyRowLoads(id: string, row: Row, image: string)
    requires row.images.None? && image != ""
    ensures LoadOrder(StoredRow(id, row, Some(image))).images == [image]
  {
  }

  // ---------------------------------------------------------------- importData

  /** One element of the imported JSON array: the order's fields as written
      (`fields.images` is not read), its `images` field, which may be missing,
      and the legacy `imageBase64`. A missing `id` is the empty text here. */
  datatype RawRecord = RawRecord(fields: Order, images: Option<seq<string>>, imageBase64: Option<string>)

  /** `{ ...raw, images: raw.images || (raw.imageBase64 ? [raw.imageBase64] : []) }`. */
  function Migrate(raw: RawRecord): (o: Order)
    ensures o == raw.fields.(images := NormalizeImages(raw.images, raw.imageBase64))
  {
    raw.fields.(images := NormalizeImages(raw.images, raw.imageBase64))
  }

  /** `order.id && order.images.length > 0`. */
  predicate IsImportable(o: Order) {
    o.id != "" && |o.images| > 0
  }

  /** The migrated records that `importData` hands to `saveOrder`, in order. */
  function Importable(raws: seq<RawRecord>): (r: seq<Order>)
    ensures forall k :: 0 <= k < |r| ==> IsImportable(r[k])
    ensures |r| <= |raws|
  {
    if raws == [] then []
    else
      var o := Migrate(raws[|raws| - 1]);
      Importable(raws[..|raws| - 1]) + (if IsImportable(o) then [o] else [])
  }

  lemma {:induction false} ImportablePrefix(raws: seq<RawRecord>, i: nat)
    requires i <= |raws|
    ensures Importable(raws[..i]) <= Importable(raws)
    decreases |raws|
  {
    if i < |raws| {
      assert raws[..|raws| - 1][..i] == raws[..i];
      ImportablePrefix(raws[..|raws| - 1], i);
    } else {
      assert raws[..i] == raws;
    }
  }

  /** One more record read: the importable orders grow by its migration
      when that is importable, and stay a prefix of the whole import. */
  lemma ImportableStep(raws: seq<RawRecord>, i: nat)
    requires i < |raws|
    ensures IsImportable(Migrate(raws[i])) ==> Importable(raws[..i + 1]) == Importable(raws[..i]) + [Migrate(raws[i])]
    ensures !IsImportable(Migrate(raws[i])) ==> Importable(raws[..i + 1]) == Importable(raws[..i])
    ensures Importable(raws[..i + 1]) <= Importable(raws)
  {
    assert raws[..i + 1][..i] == raws[..i];
    ImportablePrefix(raws, i + 1);
  }

  /** `importData`. `parsed` is `JSON.parse` of the text when that is an
      array, `None` when parsing fails or gives something else; `saveOk` is
      the outcome of `saveOrder` for one order. Records lacking an id or an
      image are skipped; the first failed save ends the import with "Import
      failed", the orders saved before it staying saved. */
  method ImportData(parsed: Option<seq<RawRecord>>, saveOk: Order -> bool)
    returns (r: Result<nat>, saved: seq<Order>)
    ensures parsed.None? ==> r == Failure("Import failed") && saved == []
    ensures parsed.Some? ==> saved <= Importable(parsed.value)
    ensures forall k :: 0 <= k < |saved| ==> saveOk(saved[k])
    ensures r.Success? ==> parsed.Some? && saved == Importable(parsed.value) && r.value == |saved|
    ensures r.Failure? ==> r.error == "Import failed"
    ensures r.Failure? && parsed.Some? ==>
              |saved| < |Importable(parsed.value)| && !saveOk(Importable(parsed.value)[|saved|])
  {
    if parsed.None? {
      return Failure("Import failed"), [];
    }
    var raws := parsed.value;
    var count := 0;
    saved := [];
    var i := 0;
    while i < |raws|
      invariant 0 <= i <= |raws|
      invariant saved == Importable(raws[..i])
      invariant count == |saved|
      invariant forall k :: 0 <= k < |saved| ==> saveOk(saved[k])
    {
      var order := Migrate(raws[i]);
      ImportableStep(raws, i);
      if order.id != "" && |order.images| > 0 {
        if !saveOk(order) {
          return Failure("Import failed"), saved;
        }
        saved := saved + [order];
        count := count + 1;
      }
      i := i + 1;
    }
    assert raws[..i] == raws;
    r := Success(count);
  }

  /** Every order `importData` saves has an id and at least one image. */
  lemma ImportedOrdersAreComplete(raws: seq<RawRecord>, saved: seq<Order>, k: nat)
    requires saved <= Importable(raws) && k < |saved|
    ensures saved[k].id != "" && |saved[k].images| > 0
  {
    assert saved[k] == Importable(raws)[k];
  }
}
