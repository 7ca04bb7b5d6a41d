/** The new-order form (mytailor5/components/OrderForm.tsx): its state, the
    handlers that update it, and the checks and record construction of
    `handleSave`. Each handler is a function from the previous state to the
    next. The clock, date parsing, `parseFloat` and image compression are
    parameters. */
module OrderForm {
  import opened Wrappers
  import opened Text
  import opened Orders
  import opened ListEdits
  import StoreIds
  import StoreRecords

  /** The form's state. `orderDate` is the text of the date-and-time input,
      filled with the current local time when the form opens. */
  datatype Form = Form(
    images: seq<string>,
    customerName: string,
    note: string,
    price: string,
    source: Source,
    selectedTags: seq<string>,
    orderDate: string)

  /** The form as it opens: nothing entered, the gallery's `online` source. */
  function Blank(orderDate: string): Form {
    Form([], "", "", "", Online, [], orderDate)
  }

  // ---------------------------------------------------------------- speech

  /** The `setNote` update of `handleSpeechResult`: an empty note becomes
      the recognised text; otherwise the text follows the note after one
      space, none being added when the note already ends with one. */
  function SpeechAppend(prev: string, text: string): string {
    if prev == "" then text
    else prev + (if EndsWith(prev, " ") then "" else " ") + text
  }

  function HandleSpeechResult(f: Form, text: string): Form {
    f.(note := SpeechAppend(f.note, text))
  }

  /** Dictation only adds: the note keeps what it had at its start, the
      recognised text ends it, and between them is at most the one space
      that separates a note not ending in a space from the new words. */
  lemma SpeechAppendParts(prev: string, text: string)
    ensures var r := SpeechAppend(prev, text);
            StartsWith(r, prev) && EndsWith(r, text)
            && r[..|r| - |text|] == (if prev == "" || EndsWith(prev, " ") then prev else prev + " ")
  {
    var r := SpeechAppend(prev, text);
    var head := if prev == "" || EndsWith(prev, " ") then prev else prev + " ";
    assert r == head + text;
    assert r[..|head|] == head;
    assert head[..|prev|] == prev;
    assert r[|r| - |text|..] == text;
  }

  /** After dictation into a non-empty note the new words are separated
      from the old ones by a space. */
  lemma SpeechSeparatesWords(prev: string, text: string)
    requires prev != "" && text != ""
    ensures var r := SpeechAppend(prev, text);
            |r| > |text| && r[|r| - |text| - 1] == ' '
  {
    var r := SpeechAppend(prev, text);
    SpeechAppendParts(prev, text);
    var head := r[..|r| - |text|];
    assert r[|r| - |text| - 1] == head[|head| - 1];
  }

  /** Dictating into an empty note gives exactly the dictated text. */
  lemma SpeechIntoEmptyNote(f: Form, text: string)
    requires f.note == ""
    ensures HandleSpeechResult(f, text).note == text
  {
  }

  // ---------------------------------------------------------------- tags and images

  /** `toggleTag` on the selected tags. */
  function FormToggleTag(f: Form, tag: string): Form {
    f.(selectedTags := ToggleTag(f.selectedTags, tag))
  }

  /** Tapping an unselected quick tag twice leaves the form as it was. */
  lemma FormToggleTagTwice(f: Form, tag: string)
    requires tag !in f.selectedTags
    ensures FormToggleTag(FormToggleTag(f, tag), tag) == f
  {
    ToggleAbsentTwice(f.selectedTags, tag);
  }

  /** `removeImage`. */
  function RemoveImage(f: Form, index: int): Form {
    f.(images := RemoveAt(f.images, index))
  }

  /** The two hidden file inputs: the camera's and the gallery's. */
  datatype Control = Camera | Gallery

  /** The source each input records: the camera `offline`, the gallery
      `online`. */
  function ControlSource(c: Control): Source {
    if c == Camera then Offline else Online
  }

  /** `handleImageChange`. `compressed` is what the compression loop
      produced for the chosen files, in order, or `None` when a compression
      failed: then the alert is shown and the form is left as it was, even
      for the files compressed before the failure. Choosing no file changes
      nothing either, not even the source. */
  function HandleImageChange(f: Form, control: Control, compressed: Option<seq<string>>): (r: Form)
    ensures compressed.None? || compressed.value == [] ==> r == f
    ensures compressed.Some? && compressed.value != [] ==>
      r.images == f.images + compressed.value && r.source == ControlSource(control)
      && r.(images := f.images, source := f.source) == f
  {
    if compressed.None? || compressed.value == [] then f
    else f.(images := f.images + compressed.value, source := ControlSource(control))
  }

  /** New photos keep the old ones in front of them, and removing the photo
      just taken gives the photos back. */
  lemma TakeThenRemove(f: Form, control: Control, photo: string)
    ensures var g := HandleImageChange(f, control, Some([photo]));
            g.images[..|f.images|] == f.images
            && RemoveImage(g, |f.images|).images == f.images
  {
    RemoveAtAppended(f.images, photo);
  }

  /** The source follows the input last used with a photo: the camera marks
      the order offline, the gallery online. */
  lemma SourceFollowsControl(f: Form, photos: seq<string>)
    requires photos != []
    ensures HandleImageChange(f, Camera, Some(photos)).source == Offline
    ensures HandleImageChange(f, Gallery, Some(photos)).source == Online
  {
  }

  // ---------------------------------------------------------------- saving

  const NeedPhoto: string := "请至少上传一张照片"
  const NeedPrice: string := "请输入价格"
  const NeedName: string := "请输入顾客姓名或单号"

  /** The temporary id, `temp-` and the millisecond clock. */
  function TempId(now: nat): string {
    "temp-" + NatToString(now)
  }

  /** `handleSave` up to `saveOrder`: the checks, in their order, and the
      order handed to `saveOrder`. `now` is `Date.now()` (both of its calls
      are taken as the same instant), `parseDate` is `new Date(text).getTime()`
      and `parseFloat` the price parse. */
  function HandleSave(f: Form, now: nat, parseDate: string -> int, parseFloat: string -> JsNumber): (r: Result<Order>)
    ensures f.images == [] ==> r == Failure(NeedPhoto)
    ensures f.images != [] && f.price == "" ==> r == Failure(NeedPrice)
    ensures f.images != [] && f.price != "" && IsBlank(f.customerName) ==> r == Failure(NeedName)
    ensures r.Success? <==> f.images != [] && f.price != "" && !IsBlank(f.customerName)
    ensures r.Success? ==>
      && r.value.id == TempId(now)
      && r.value.customerName == Trim(f.customerName) && r.value.customerName != ""
      && r.value.createdAt == (if f.orderDate != "" then parseDate(f.orderDate) else now)
      && r.value.completedAt.None?
      && r.value.images == f.images && r.value.images != []
      && r.value.note == f.note
      && r.value.price == parseFloat(f.price)
      && r.value.status == Pending
      && r.value.source == Some(f.source)
      && r.value.tags == Some(f.selectedTags)
  {
    TrimEmptyIffBlank(f.customerName);
    if f.images == [] then Failure(NeedPhoto)
    else if f.price == "" then Failure(NeedPrice)
    else if Trim(f.customerName) == "" then Failure(NeedName)
    else
      var createdAt := if f.orderDate != "" then parseDate(f.orderDate) else now;
      Success(Order(TempId(now), Trim(f.customerName), createdAt, None, f.images, f.note,
                    parseFloat(f.price), Pending, Some(f.source), Some(f.selectedTags)))
  }

  /** A temporary id is never taken for a UUID: its ninth character is a
      digit where a UUID has a hyphen. */
  lemma TempIdIsNotUuid(now: nat)
    ensures !StoreIds.MatchesUuid(TempId(now))
  {
    var id := TempId(now);
    var digits := NatToString(now);
    if |id| == 36 {
      assert id[8] == digits[3];
      assert IsDigit(digits[3]);
    }
  }

  /** So a new order reaches the table without an id (the server assigns
      one), and its photos are stored under a fresh UUID. */
  lemma NewOrderGetsServerId(f: Form, now: nat, parseDate: string -> int, parseFloat: string -> JsNumber,
                              user: Option<string>, rs: seq<StoreIds.Nibble>, uploaded: nat -> bool,
                              upsertError: Option<string>)
    requires |rs| == 31
    requires HandleSave(f, now, parseDate, parseFloat).Success?
    ensures var o := HandleSave(f, now, parseDate, parseFloat).value;
            var w := StoreRecords.SaveOrder(o, user, rs, uploaded, upsertError);
            (w.Success? ==> w.value.id.None?)
            && StoreIds.StorageOrderId(o.id, rs) == StoreIds.GenerateUuid(rs)
  {
    TempIdIsNotUuid(now);
  }

  /** The form as it opens is refused for want of a photo, before the
      price and the name are looked at. */
  lemma FreshFormIsRefused(orderDate: string, now: nat, parseDate: string -> int, parseFloat: string -> JsNumber)
    ensures HandleSave(Blank(orderDate), now, parseDate, parseFloat) == Failure(NeedPhoto)
  {
  }
}
