/**
 * The listing handlers of handler/property.go that touch the properties and
 * property_images tables: adding a listing's photos (CreatePropertyImage),
 * its rich-text page (CreatePropertyRichText), and the list responses with
 * one cover photo per listing (getListResponseByProperties, ListProperty,
 * SelectProperties).  Object storage is reached through ObjectStorage.
 */
module Catalog {

  import opened Wrappers
  import opened Text
  import opened Decimal
  import opened Schema
  import opened Access
  import opened ObjectStorage
  import opened Filter

  /** The largest value strconv.ParseUint(s, 10, 32) returns. */
  const MaxUint32: nat := 4294967295

  /** The id a houseID path parameter denotes when the database compares it
      with the id column: a non-empty run of decimal digits. */
  function HouseIdOf(param: string): (r: Option<nat>)
    ensures r.Some? <==> param != "" && IsDigits(param)
  {
    if param != "" && IsDigits(param) then Some(Value(param)) else None
  }

  /** The decimal text of an id denotes that id. */
  lemma HouseIdOfDigits(id: nat)
    ensures HouseIdOf(Digits(id)) == Some(id)
  {
    ValueOfDigits(id);
  }

  /** The property_id the image rows get: the parameter parsed as a uint32,
      which saturates at MaxUint32 (the range error is ignored). */
  function ImageOwner(id: nat): (owner: nat)
    ensures owner <= MaxUint32
    ensures id <= MaxUint32 ==> owner == id
    ensures id > MaxUint32 ==> owner == MaxUint32
  {
    if id <= MaxUint32 then id else MaxUint32
  }

  /** Position of the listing with the given id, if any. */
  function FindProperty(properties: seq<Property>, id: nat): (r: Option<nat>)
    ensures r.Some? ==> r.value < |properties| && properties[r.value].id == id
    ensures r.Some? ==> forall j :: 0 <= j < r.value ==> properties[j].id != id
    ensures r.None? ==> forall j :: 0 <= j < |properties| ==> properties[j].id != id
  {
    if properties == [] then None
    else if properties[0].id == id then Some(0)
    else match FindProperty(properties[1..], id)
      case None => None
      case Some(k) => Some(k + 1)
  }

  /** No stored listing carries the id. */
  predicate NoListingWith(properties: seq<Property>, id: nat)
  {
    forall j :: 0 <= j < |properties| ==> properties[j].id != id
  }

  /** `First(&property)` on `id = houseID`: fails on a lookup fault, on a
      parameter that is no number, and when no listing has that id. */
  function LookupHouse(properties: seq<Property>, houseId: string, fails: bool): (r: Option<nat>)
    ensures r.Some? ==> r.value < |properties| && HouseIdOf(houseId) == Some(properties[r.value].id)
    ensures r.None? <==>
              fails || HouseIdOf(houseId).None?
              || NoListingWith(properties, HouseIdOf(houseId).value)
  {
    if fails then None
    else match HouseIdOf(houseId)
      case None => None
      case Some(id) => FindProperty(properties, id)
  }

  predicate HasImages(images: seq<PropertyImage>, id: nat)
  {
    exists i :: 0 <= i < |images| && images[i].propertyId == id
  }

  /** The cover of a listing: the URL of its first main image. */
  function CoverOf(images: seq<PropertyImage>, id: nat): (r: Option<string>)
    ensures r.Some? <==> exists i :: 0 <= i < |images| && images[i].propertyId == id && images[i].isMain
    ensures r.Some? ==> exists i :: 0 <= i < |images| && images[i] == PropertyImage(id, r.value, true)
  {
    if images == [] then None
    else if images[0].propertyId == id && images[0].isMain then Some(images[0].url)
    else
      var rest := CoverOf(images[1..], id);
      assert rest.Some? ==> exists i :: 0 <= i < |images[1..]| && images[1..][i] == PropertyImage(id, rest.value, true);
      assert forall i :: 1 <= i < |images| ==> images[i] == images[1..][i - 1];
      rest
  }

  /** Rows appended after a listing's last row decide its cover only when it
      had none: a listing without rows takes the cover of the new rows. */
  lemma {:induction false} CoverOfAppend(images: seq<PropertyImage>, added: seq<PropertyImage>, id: nat)
    requires !HasImages(images, id)
    ensures CoverOf(images + added, id) == CoverOf(added, id)
  {
    if images != [] {
      assert !HasImages(images[1..], id) by {
        forall i | 0 <= i < |images[1..]| ensures images[1..][i].propertyId != id {
          assert images[1..][i] == images[i + 1];
        }
      }
      CoverOfAppend(images[1..], added, id);
      assert (images + added)[1..] == images[1..] + added;
      assert (images + added)[0] == images[0] && images[0].propertyId != id;
      assert CoverOf(images + added, id) == CoverOf((images + added)[1..], id);
    } else {
      assert images + added == added;
    }
  }

  /** The cover a listing gets from a batch whose first row is its main image. */
  lemma CoverAfterCreate(images: seq<PropertyImage>, added: seq<PropertyImage>, id: nat, url: string)
    requires !HasImages(images, id)
    requires |added| > 0 && added[0] == PropertyImage(id, url, true)
    ensures CoverOf(images + added, id) == Some(url)
  {
    CoverOfAppend(images, added, id);
  }

  /** At most one main image per listing. */
  predicate OneMainEach(images: seq<PropertyImage>)
  {
    forall i, j :: 0 <= i < j < |images| && images[i].isMain && images[j].isMain ==>
      images[i].propertyId != images[j].propertyId
  }

  /** A batch for a listing that had no rows, whose only main image is its
      first row, keeps at most one main image per listing. */
  lemma BatchKeepsOneMain(images: seq<PropertyImage>, added: seq<PropertyImage>, id: nat)
    requires OneMainEach(images) && !HasImages(images, id)
    requires forall j :: 0 <= j < |added| ==> added[j].propertyId == id && (added[j].isMain <==> j == 0)
    ensures OneMainEach(images + added)
  {
    var all := images + added;
    forall i, j | 0 <= i < j < |all| && all[i].isMain && all[j].isMain
      ensures all[i].propertyId != all[j].propertyId
    {
      if j < |images| {
        assert all[i] == images[i] && all[j] == images[j];
      } else if i < |images| {
        assert all[i] == images[i] && all[j] == added[j - |images|];
      } else {
        assert false;
      }
    }
  }

  /** One entry of a list response. */
  datatype ListEntry = ListEntry(cover: string, address: string, price: real, size: real, houseId: nat, uploadTime: string)

  function EntryOf(p: Property, cover: string): ListEntry
  {
    ListEntry(cover, p.address.details, p.price, p.size, p.id, p.createdAt)
  }

  /** The listings the database returns for a query, in table order. */
  function Matching(properties: seq<Property>, query: seq<Clause>): (r: seq<Property>)
    ensures forall p :: p in r <==> p in properties && Satisfies(query, p)
  {
    if properties == [] then []
    else if Satisfies(query, properties[0]) then [properties[0]] + Matching(properties[1..], query)
    else Matching(properties[1..], query)
  }

  /** The listings a select request asks for, in table order. */
  function Selected(properties: seq<Property>, req: SelectPropertiesRequest): seq<Property>
    requires BucketsInRange(req)
  {
    if properties == [] then []
    else if Selects(req, properties[0]) then [properties[0]] + Selected(properties[1..], req)
    else Selected(properties[1..], req)
  }

  /** A query whose meaning is the request's returns the requested listings. */
  lemma {:induction false} MatchingIsSelected(properties: seq<Property>, query: seq<Clause>, req: SelectPropertiesRequest)
    requires BucketsInRange(req)
    requires forall p :: Satisfies(query, p) <==> Selects(req, p)
    ensures Matching(properties, query) == Selected(properties, req)
  {
    if properties != [] {
      MatchingIsSelected(properties[1..], query, req);
    }
  }

  /** What CreatePropertyRichText writes: the errno of every JSON body it
      sends, in order, and whether it ends in a panic. */
  datatype RichTextReply = RichTextReply(written: seq<int>, panicked: bool)

  class Catalog {

    var properties: seq<Property>
    var images: seq<PropertyImage>
    /** Object-storage settings, and the default image and page used when
        none is uploaded. */
    const cfg: Config
    const defaultImageUrl: string
    const defaultHtmlUrl: string

    /** Listing ids are unique and fit the 32 bits the handlers parse them
        into; each listing has at most one main image. */
    predicate Valid()
      reads this
    {
      && (forall i, j :: 0 <= i < j < |properties| ==> properties[i].id != properties[j].id)
      && (forall i :: 0 <= i < |properties| ==> properties[i].id <= MaxUint32)
      && OneMainEach(images)
    }

    constructor(cfg: Config, defaultImageUrl: string, defaultHtmlUrl: string,
                properties: seq<Property>, images: seq<PropertyImage>)
      ensures this.cfg == cfg && this.defaultImageUrl == defaultImageUrl && this.defaultHtmlUrl == defaultHtmlUrl
      ensures this.properties == properties && this.images == images
    {
      this.cfg := cfg;
      this.defaultImageUrl := defaultImageUrl;
      this.defaultHtmlUrl := defaultHtmlUrl;
      this.properties := properties;
      this.images := images;
    }

    /** What UploadImageToOSS answers for the j-th file. */
    function Upload(files: seq<FileHeader>, stamp: nat -> string, put: PutRequest -> bool, j: nat): Result<string, UploadError>
      requires j < |files| && Nameable(files[j], stamp(j))
    {
      UploadImageToOSS(cfg, files[j], stamp(j), put)
    }

    /** The rows a batch inserts for its first files: one per file, in
        order, each after a successful upload and insert, the first of them
        the main image. */
    predicate RowsForFiles(files: seq<FileHeader>, stamp: nat -> string, insertFails: nat -> bool,
                           put: PutRequest -> bool, owner: nat, added: seq<PropertyImage>)
      requires forall j :: 0 <= j < |files| ==> Nameable(files[j], stamp(j))
    {
      && |added| <= |files|
      && forall j :: 0 <= j < |added| ==>
           Upload(files, stamp, put, j).Ok? && !insertFails(j)
           && added[j] == PropertyImage(owner, Upload(files, stamp, put, j).value, j == 0)
    }

    /** The rows a batch of files leaves behind, and the errno that names
        how the batch ended: success after the last file, or the failed
        upload or insert of the first file without a row. */
    predicate InsertedPrefix(files: seq<FileHeader>, stamp: nat -> string, insertFails: nat -> bool,
                             put: PutRequest -> bool, owner: nat, errno: int, added: seq<PropertyImage>)
      requires forall j :: 0 <= j < |files| ==> Nameable(files[j], stamp(j))
    {
      && RowsForFiles(files, stamp, insertFails, put, owner, added)
      && (errno == 20000 <==> |added| == |files|)
      && (errno == 50036 <==> |added| < |files| && Upload(files, stamp, put, |added|).Err?)
      && (errno == 50037 <==> |added| < |files| && Upload(files, stamp, put, |added|).Ok? && insertFails(|added|))
      && errno in {20000, 50036, 50037}
    }

    /** Whether CreatePropertyImage gets past its checks to the form. */
    predicate ImagesAccepted(context: Context, users: UserTable, lookupFails: bool, houseId: string,
                             propertyQueryFails: bool, imageQueryFails: bool)
      reads this
    {
      && CheckUser(GetPhoneFromJWT(context, users, lookupFails)).None?
      && houseId != ""
      && LookupHouse(properties, houseId, propertyQueryFails).Some?
      && !imageQueryFails
      && !HasImages(images, HouseIdOf(houseId).value)
    }

    /** CreatePropertyImage.  `form` is the parsed multipart form's "images"
        files (None when parsing fails), `stamp(j)` the upload time of the
        j-th file and `insertFails(j)` whether the j-th row insert fails
        (the default image's insert is the 0-th).  Rows are inserted one by
        one without a transaction: after a failure the rows before it stay. */
    method CreatePropertyImage(context: Context, users: UserTable, lookupFails: bool, houseId: string,
                               propertyQueryFails: bool, imageQueryFails: bool, form: Option<seq<FileHeader>>,
                               stamp: nat -> string, insertFails: nat -> bool, put: PutRequest -> bool)
      returns (errno: int, added: seq<PropertyImage>)
      requires form.Some? ==> forall j :: 0 <= j < |form.value| ==> Nameable(form.value[j], stamp(j))
      requires Valid()
      modifies this
      ensures Valid()
      ensures properties == old(properties)
      ensures images == old(images) + added
      ensures CheckUser(GetPhoneFromJWT(context, users, lookupFails)).Some? ==>
                errno == CheckUser(GetPhoneFromJWT(context, users, lookupFails)).value
      ensures CheckUser(GetPhoneFromJWT(context, users, lookupFails)).None? && houseId == "" ==> errno == 40030
      ensures CheckUser(GetPhoneFromJWT(context, users, lookupFails)).None? && houseId != ""
              && LookupHouse(old(properties), houseId, propertyQueryFails).None? ==>
                errno == 40031
      ensures CheckUser(GetPhoneFromJWT(context, users, lookupFails)).None? && houseId != ""
              && LookupHouse(old(properties), houseId, propertyQueryFails).Some? && imageQueryFails ==>
                errno == 50030 && added == []
      ensures CheckUser(GetPhoneFromJWT(context, users, lookupFails)).None? && houseId != ""
              && LookupHouse(old(properties), houseId, propertyQueryFails).Some? && !imageQueryFails
              && HasImages(old(images), HouseIdOf(houseId).value) ==>
                errno == 40032
      ensures old(ImagesAccepted(context, users, lookupFails, houseId, propertyQueryFails, imageQueryFails))
              && form.None? ==>
                errno == 40032 && added == []
      ensures !old(ImagesAccepted(context, users, lookupFails, houseId, propertyQueryFails, imageQueryFails))
              || form.None? ==>
                added == [] && errno != 20000 && errno != 20030
      ensures old(ImagesAccepted(context, users, lookupFails, houseId, propertyQueryFails, imageQueryFails))
              && form == Some([]) ==>
                var owner := ImageOwner(HouseIdOf(houseId).value);
                if insertFails(0) then errno == 50035 && added == []
                else errno == 20030 && added == [PropertyImage(owner, defaultImageUrl, true)]
      ensures old(ImagesAccepted(context, users, lookupFails, houseId, propertyQueryFails, imageQueryFails))
              && form.Some? && |form.value| > 0 ==>
                InsertedPrefix(form.value, stamp, insertFails, put, ImageOwner(HouseIdOf(houseId).value), errno, added)
    {
      added := [];
      var denied := CheckUser(GetPhoneFromJWT(context, users, lookupFails));
      if denied.Some? {
        return denied.value, [];
      }
      if houseId == "" {
        return 40030, [];
      }
      var found := LookupHouse(properties, houseId, propertyQueryFails);
      if found.None? {
        return 40031, [];
      }
      var id := HouseIdOf(houseId).value;
      if imageQueryFails {
        return 50030, [];
      }
      if HasImages(images, id) {
        return 40032, [];
      }
      if form.None? {
        return 40032, [];
      }
      var files := form.value;
      assert properties[found.value].id == id;
      var owner := ImageOwner(id);
      if |files| == 0 {
        if insertFails(0) {
          return 50035, [];
        }
        var image := PropertyImage(owner, defaultImageUrl, true);
        BatchKeepsOneMain(images, [image], id);
        images := images + [image];
        return 20030, [image];
      }
      errno, added := InsertImages(files, stamp, insertFails, put, owner);
      BatchKeepsOneMain(old(images), added, id);
    }

    /** A row for the next file, uploaded and inserted, extends the rows. */
    lemma RowsExtend(files: seq<FileHeader>, stamp: nat -> string, insertFails: nat -> bool,
                     put: PutRequest -> bool, owner: nat, added: seq<PropertyImage>)
      requires forall j :: 0 <= j < |files| ==> Nameable(files[j], stamp(j))
      requires RowsForFiles(files, stamp, insertFails, put, owner, added) && |added| < |files|
      requires Upload(files, stamp, put, |added|).Ok? && !insertFails(|added|)
      ensures RowsForFiles(files, stamp, insertFails, put, owner,
                           added + [PropertyImage(owner, Upload(files, stamp, put, |added|).value, |added| == 0)])
    {
      var next := added + [PropertyImage(owner, Upload(files, stamp, put, |added|).value, |added| == 0)];
      assert forall j :: 0 <= j < |added| ==> next[j] == added[j];
    }

    /** The per-file loop of CreatePropertyImage: upload, then insert the row;
        the first file is the main image; the first failure stops the loop. */
    method InsertImages(files: seq<FileHeader>, stamp: nat -> string, insertFails: nat -> bool,
                        put: PutRequest -> bool, owner: nat) returns (errno: int, added: seq<PropertyImage>)
      requires |files| > 0
      requires forall j :: 0 <= j < |files| ==> Nameable(files[j], stamp(j))
      modifies this
      ensures properties == old(properties)
      ensures images == old(images) + added
      ensures InsertedPrefix(files, stamp, insertFails, put, owner, errno, added)
    {
      added := [];
      var i := 0;
      while i < |files|
        invariant 0 <= i <= |files| && |added| == i
        invariant properties == old(properties)
        invariant images == old(images) + added
        invariant RowsForFiles(files, stamp, insertFails, put, owner, added)
      {
        var url := Upload(files, stamp, put, i);
        if url.Err? {
          return 50036, added;
        }
        if insertFails(i) {
          return 50037, added;
        }
        RowsExtend(files, stamp, insertFails, put, owner, added);
        var image := PropertyImage(owner, url.value, i == 0);
        images := images + [image];
        added := added + [image];
        i := i + 1;
      }
      errno := 20000;
    }

    /** CreatePropertyRichText.  The handler writes a JSON body without
        returning in two places, so the reply is every errno it writes, in
        order, and whether the handler then panics (recovered by the router).
        `updateFails` says whether the URL update fails. */
    method CreatePropertyRichText(context: Context, users: UserTable, lookupFails: bool, houseId: string,
                                  propertyQueryFails: bool, form: Option<seq<FileHeader>>, stamp: string,
                                  put: PutRequest -> bool, updateFails: bool)
      returns (reply: RichTextReply)
      requires form.Some? && |form.value| > 0 ==> Nameable(form.value[0], stamp)
      modifies this
      ensures images == old(images)
      ensures |properties| == |old(properties)|
      ensures forall j :: 0 <= j < |properties| ==> properties[j].id == old(properties)[j].id
      ensures CheckUser(GetPhoneFromJWT(context, users, lookupFails)).Some? ==>
                reply == RichTextReply([CheckUser(GetPhoneFromJWT(context, users, lookupFails)).value], false)
      ensures CheckUser(GetPhoneFromJWT(context, users, lookupFails)).None? && houseId == "" ==>
                reply == RichTextReply([40040], false)
      ensures CheckUser(GetPhoneFromJWT(context, users, lookupFails)).None? && houseId != ""
              && LookupHouse(old(properties), houseId, propertyQueryFails).None? ==>
                reply == RichTextReply([40041], false)
      ensures var k := LookupHouse(old(properties), houseId, propertyQueryFails);
              CheckUser(GetPhoneFromJWT(context, users, lookupFails)).None? && houseId != ""
              && k.Some? && old(properties)[k.value].richTextUrl != "" ==>
                reply == RichTextReply([40042], false) && properties == old(properties)
      ensures var k := LookupHouse(old(properties), houseId, propertyQueryFails);
              CheckUser(GetPhoneFromJWT(context, users, lookupFails)).None? && houseId != ""
              && k.Some? && old(properties)[k.value].richTextUrl == "" ==>
                match form
                case None => reply == RichTextReply([40042], false) && properties == old(properties)
                case Some(files) =>
                  if |files| == 0 then
                    if updateFails then reply == RichTextReply([50041], false) && properties == old(properties)
                    else reply == RichTextReply([20000], true)
                         && properties == old(properties)[k.value := old(properties)[k.value].(richTextUrl := defaultHtmlUrl)]
                  else
                    var warned := if files[0].contentType != HtmlContentType then [40044] else [];
                    var upload := UploadHTMLToOSS(cfg, files[0], stamp, put);
                    if upload.Err? then reply == RichTextReply(warned + [50040], false) && properties == old(properties)
                    else if updateFails then reply == RichTextReply(warned + [50041], false) && properties == old(properties)
                    else reply == RichTextReply(warned + [20000], false)
                         && properties == old(properties)[k.value := old(properties)[k.value].(richTextUrl := upload.value)]
      ensures reply.written != [] && (reply.written[|reply.written| - 1] != 20000 ==> properties == old(properties))
    {
      var denied := CheckUser(GetPhoneFromJWT(context, users, lookupFails));
      if denied.Some? {
        return RichTextReply([denied.value], false);
      }
      if houseId == "" {
        return RichTextReply([40040], false);
      }
      var found := LookupHouse(properties, houseId, propertyQueryFails);
      if found.None? {
        return RichTextReply([40041], false);
      }
      var k := found.value;
      var property := properties[k];
      if property.richTextUrl != "" {
        return RichTextReply([40042], false);
      }
      if form.None? {
        return RichTextReply([40042], false);
      }
      var files := form.value;
      var written: seq<int> := [];
      if |files| == 0 {
        property := property.(richTextUrl := defaultHtmlUrl);
        if updateFails {
          return RichTextReply([50041], false);
        }
        properties := properties[k := property];
        // No return follows this success reply: reading files[0] then panics.
        return RichTextReply([20000], true);
      }
      var richText := files[0];
      if richText.contentType != HtmlContentType {
        // The refusal is written, but the handler goes on.
        written := written + [40044];
      }
      var url := UploadHTMLToOSS(cfg, richText, stamp, put);
      if url.Err? {
        return RichTextReply(written + [50040], false);
      }
      property := property.(richTextUrl := url.value);
      if updateFails {
        return RichTextReply(written + [50041], false);
      }
      properties := properties[k := property];
      reply := RichTextReply(written + [20000], false);
    }

    /** getListResponseByProperties: one entry per listing, in order, with
        its cover; the first listing without a main image (or a failing
        image query) fails the whole list with 50061. */
    method ListResponses(rows: seq<Property>, imageQueryFails: bool) returns (r: Result<seq<ListEntry>, int>)
      ensures r.Ok? <==>
                (rows == [] || !imageQueryFails) && forall i :: 0 <= i < |rows| ==> CoverOf(images, rows[i].id).Some?
      ensures r.Err? ==> r.error == 50061
      ensures r.Ok? ==>
                |r.value| == |rows|
                && forall i :: 0 <= i < |rows| ==> r.value[i] == EntryOf(rows[i], CoverOf(images, rows[i].id).value)
    {
      var response: seq<ListEntry> := [];
      var i := 0;
      while i < |rows|
        invariant 0 <= i <= |rows| && |response| == i
        invariant i > 0 ==> !imageQueryFails
        invariant forall j :: 0 <= j < i ==>
                    CoverOf(images, rows[j].id).Some? && response[j] == EntryOf(rows[j], CoverOf(images, rows[j].id).value)
      {
        var cover := CoverOf(images, rows[i].id);
        if imageQueryFails || cover.None? {
          return Err(50061);
        }
        response := response + [EntryOf(rows[i], cover.value)];
        i := i + 1;
      }
      r := Ok(response);
    }

    /** ListProperty: CheckUser, the listing query (50060), then the list
        response over every listing. */
    method ListProperty(context: Context, users: UserTable, lookupFails: bool, queryFails: bool, imageQueryFails: bool)
      returns (r: Result<seq<ListEntry>, int>)
      ensures CheckUser(GetPhoneFromJWT(context, users, lookupFails)).Some? ==>
                r == Err(CheckUser(GetPhoneFromJWT(context, users, lookupFails)).value)
      ensures CheckUser(GetPhoneFromJWT(context, users, lookupFails)).None? && queryFails ==> r == Err(50060)
      ensures CheckUser(GetPhoneFromJWT(context, users, lookupFails)).None? && !queryFails ==>
                (r.Ok? <==>
                   (properties == [] || !imageQueryFails)
                   && forall i :: 0 <= i < |properties| ==> CoverOf(images, properties[i].id).Some?)
      ensures CheckUser(GetPhoneFromJWT(context, users, lookupFails)).None? && !queryFails && r.Err? ==> r.error == 50061
      ensures r.Ok? ==>
                |r.value| == |properties|
                && forall i :: 0 <= i < |properties| ==>
                     CoverOf(images, properties[i].id).Some?
                     && r.value[i] == EntryOf(properties[i], CoverOf(images, properties[i].id).value)
    {
      var denied := CheckUser(GetPhoneFromJWT(context, users, lookupFails));
      if denied.Some? {
        return Err(denied.value);
      }
      if queryFails {
        return Err(50060);
      }
      r := ListResponses(properties, imageQueryFails);
    }

    /** SelectProperties: binding (40070), a bucket index outside the
        tables (a recovered panic), the filtered query (50060), then the
        list response over the listings the request selects.  Unlike the
        other listing handlers it does not call CheckUser. */
    method SelectProperties(body: Option<SelectPropertiesRequest>, queryFails: bool, imageQueryFails: bool)
      returns (r: Result<seq<ListEntry>, int>)
      ensures body.None? ==> r == Err(40070)
      ensures body.Some? && !BucketsInRange(body.value) ==> r == Err(RecoveredPanic)
      ensures body.Some? && BucketsInRange(body.value) && queryFails ==> r == Err(50060)
      ensures body.Some? && BucketsInRange(body.value) && !queryFails ==>
                var chosen := Selected(properties, body.value);
                (r.Ok? <==>
                   (chosen == [] || !imageQueryFails)
                   && forall i :: 0 <= i < |chosen| ==> CoverOf(images, chosen[i].id).Some?)
      ensures body.Some? && BucketsInRange(body.value) && !queryFails && r.Err? ==> r.error == 50061
      ensures r.Ok? ==>
                body.Some? && BucketsInRange(body.value) &&
                var chosen := Selected(properties, body.value);
                |r.value| == |chosen|
                && forall i :: 0 <= i < |chosen| ==>
                     Selects(body.value, chosen[i]) && chosen[i] in properties
                     && CoverOf(images, chosen[i].id).Some?
                     && r.value[i] == EntryOf(chosen[i], CoverOf(images, chosen[i].id).value)
    {
      if body.None? {
        return Err(40070);
      }
      var req := body.value;
      if !BucketsInRange(req) {
        return Err(RecoveredPanic);
      }
      var query := SelectQuery(req);
      if queryFails {
        return Err(50060);
      }
      var rows := Matching(properties, query);
      MatchingIsSelected(properties, query, req);
      assert forall p :: p in rows ==> Selects(req, p);
      r := ListResponses(rows, imageQueryFails);
    }
  }

  /** After a rich-text URL is stored, the same listing refuses a second
      upload: it is found again and its URL is no longer empty. */
  lemma SecondRichTextRefused(properties: seq<Property>, houseId: string, k: nat, url: string)
    requires LookupHouse(properties, houseId, false) == Some(k) && url != ""
    ensures var after := properties[k := properties[k].(richTextUrl := url)];
            LookupHouse(after, houseId, false) == Some(k) && after[k].richTextUrl != ""
  {
    var after := properties[k := properties[k].(richTextUrl := url)];
    var id := HouseIdOf(houseId).value;
    SameIdsSameFind(properties, after, id);
  }

  /** FindProperty only looks at ids. */
  lemma {:induction false} SameIdsSameFind(a: seq<Property>, b: seq<Property>, id: nat)
    requires |a| == |b| && forall j :: 0 <= j < |a| ==> a[j].id == b[j].id
    ensures FindProperty(a, id) == FindProperty(b, id)
  {
    if a != [] {
      SameIdsSameFind(a[1..], b[1..], id);
    }
  }

  /** A stored page URL is never empty, so it always blocks a second upload. */
  lemma UploadedPageUrlNonEmpty(cfg: Config, file: FileHeader, stamp: string, put: PutRequest -> bool)
    requires Nameable(file, stamp)
    ensures UploadHTMLToOSS(cfg, file, stamp, put).Ok? ==> UploadHTMLToOSS(cfg, file, stamp, put).value != ""
  {
  }
}
