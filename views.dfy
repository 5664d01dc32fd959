/**
 * The request handlers of the catalogue: the staff check, the AJAX suggestion endpoint,
 * the public list with its search filters, and the POST of the upload form.
 */
module Views {

  import opened Wrappers
  import opened Text
  import opened Seqs
  import opened Files
  import opened Models
  import opened Catalog
  import Signals
  import Services

  /** `request.user`: the anonymous user, or a stored account. */
  datatype User = Anonymous | Account(id: UserId, isStaff: bool)

  /** `user.is_authenticated` */
  predicate IsAuthenticated(user: User) {
    user.Account?
  }

  /** `StaffRequiredMixin.test_func`: only a signed-in staff member passes. */
  function TestFunc(user: User): (r: bool)
    ensures r ==> IsAuthenticated(user)
    ensures IsAuthenticated(user) ==> (r <==> user.isStaff)
  {
    IsAuthenticated(user) && user.isStaff
  }

  // ---------------------------------------------------------------------------------
  // analyze_images_ajax

  /** The request methods the endpoint tells apart. */
  datatype HttpMethod = GET | POST | OtherMethod

  /**
   * What the endpoint answers: a `JsonResponse` (status code and string-valued JSON object),
   * or the 405 `HttpResponseNotAllowed` of `@require_http_methods`, listing the allowed methods.
   */
  datatype Response =
    | JsonResponse(status: nat, body: map<string, string>)
    | NotAllowed(allowed: seq<HttpMethod>)

  const UnauthorizedResponse: Response := JsonResponse(403, map["error" := "Unauthorized"])
  const NoSuggestionResponse: Response := JsonResponse(200, map["title" := "", "description" := ""])

  /** A form key with the file `request.FILES[key]` gives for it. */
  type FileEntry = (string, Services.UploadedFile)

  /**
   * `request.FILES` as the view iterates it: one entry per form key, in key order. A key
   * occurs once, as in the `MultiValueDict` the loop walks.
   */
  type UploadedFiles = s: seq<FileEntry> | forall i, j :: 0 <= i < j < |s| ==> s[i].0 != s[j].0 witness []

  predicate IsImageKey(entry: FileEntry) {
    StartsWith(entry.0, "image_")
  }

  /** The files of the entries whose key starts with "image_", in key order. */
  function ImageUploads(files: seq<FileEntry>): seq<Services.UploadedFile> {
    var kept := Filter(files, IsImageKey);
    seq(|kept|, i requires 0 <= i < |kept| => kept[i].1)
  }

  lemma ImageUploadsSnoc(files: seq<FileEntry>, e: FileEntry)
    ensures ImageUploads(files + [e]) == ImageUploads(files) + (if IsImageKey(e) then [e.1] else [])
  {
    assert (files + [e])[..|files|] == files;
  }

  /** A file is forwarded exactly when some entry with an "image_" key holds it. */
  lemma ImageUploadsMembers(files: seq<FileEntry>, f: Services.UploadedFile)
    ensures f in ImageUploads(files) <==> exists key :: StartsWith(key, "image_") && (key, f) in files
  {
    var kept := Filter(files, IsImageKey);
    if f in ImageUploads(files) {
      var i :| 0 <= i < |kept| && kept[i].1 == f;
      assert kept[i] in kept;
      FilterMembership(files, IsImageKey, kept[i]);
    }
    if exists key :: StartsWith(key, "image_") && (key, f) in files {
      var key :| StartsWith(key, "image_") && (key, f) in files;
      FilterMembership(files, IsImageKey, (key, f));
      var i :| 0 <= i < |kept| && kept[i] == (key, f);
      assert ImageUploads(files)[i] == f;
    }
  }

  /** The `for key in request.FILES` loop that collects `uploaded_images`. */
  method CollectImageUploads(files: UploadedFiles) returns (uploadedImages: seq<Services.UploadedFile>)
    ensures uploadedImages == ImageUploads(files)
    ensures |uploadedImages| <= |files|
  {
    uploadedImages := [];
    var i := 0;
    while i < |files|
      invariant 0 <= i <= |files|
      invariant uploadedImages == ImageUploads(files[..i])
      invariant |uploadedImages| <= i
    {
      var (key, file) := files[i];
      assert files[..i + 1] == files[..i] + [files[i]];
      ImageUploadsSnoc(files[..i], files[i]);
      if StartsWith(key, "image_") {
        uploadedImages := uploadedImages + [file];
      }
      i := i + 1;
    }
    assert files[..i] == files;
  }

  /** The file objects the view may hand on to the service. */
  ghost function FileObjects(files: seq<FileEntry>): set<Services.UploadedFile> {
    set e | e in files :: e.1
  }

  /**
   * `analyze_images_ajax`. Any method but POST gets 405 before the view runs. A caller
   * who is not staff gets 403 and the service is not called; with no "image_" files the
   * answer is an empty title and description and the service is not called; otherwise the
   * answer is the service's, for exactly those files in key order. An exception the
   * service lets escape leaves the view as well.
   */
  method AnalyzeImagesAjax(httpMethod: HttpMethod, user: User, files: UploadedFiles, settings: Services.Settings,
                           post: Services.Request -> Services.HttpOutcome)
    returns (r: Services.Call<Response>, sent: Option<Services.Request>)
    modifies FileObjects(files)
    ensures httpMethod != POST ==> r == Services.Returned(NotAllowed([POST])) && sent == None
    ensures httpMethod == POST && !TestFunc(user) ==> r == Services.Returned(UnauthorizedResponse) && sent == None
    ensures httpMethod == POST && TestFunc(user) && ImageUploads(files) == [] ==>
      r == Services.Returned(NoSuggestionResponse) && sent == None
    ensures httpMethod == POST && TestFunc(user) && ImageUploads(files) != [] ==>
      var (call, request) := Services.Suggestion(settings, Some(ImageUploads(files)), post);
      && sent == request
      && r == (match call
               case Returned(suggestions) => Services.Returned(JsonResponse(200, Services.AsDict(suggestions)))
               case Raised(e) => Services.Raised(e))
    ensures forall f :: f in FileObjects(files) ==>
      f.position == if httpMethod == POST && TestFunc(user) && ImageUploads(files) != [] &&
                       Services.Rewound(settings, Some(ImageUploads(files)), f)
                    then 0 else old(f.position)
  {
    if httpMethod != POST {
      return Services.Returned(NotAllowed([POST])), None;
    }
    if !(IsAuthenticated(user) && user.isStaff) {
      return Services.Returned(UnauthorizedResponse), None;
    }
    var uploadedImages := CollectImageUploads(files);
    if uploadedImages == [] {
      return Services.Returned(NoSuggestionResponse), None;
    }
    forall f | f in Services.Objects(Some(uploadedImages)) ensures f in FileObjects(files) {
      ImageUploadsMembers(files, f);
    }
    var suggestions, request := Services.AnalyzeItemImages(settings, Some(uploadedImages), post);
    sent := request;
    match suggestions {
      case Returned(body) => r := Services.Returned(JsonResponse(200, Services.AsDict(body)));
      case Raised(e) => r := Services.Raised(e);
    }
    forall f | f in FileObjects(files) && f !in Services.Objects(Some(uploadedImages))
      ensures !Services.Rewound(settings, Some(uploadedImages), f)
    {
      var list := Services.Listed(Some(uploadedImages));
      Services.RewoundAmongIn(list, Services.FirstEscape(list).GetOr(|list|));
    }
  }

  // ---------------------------------------------------------------------------------
  // ItemListView.get_queryset

  /** The GET parameters the list reads; `None` when a parameter is absent. */
  datatype ListQuery = ListQuery(q: Option<string>, location: Option<string>,
                                 dateFrom: Option<string>, dateTo: Option<string>)

  /** A parameter given with a non-empty value: `if q:` holds. */
  predicate Given(p: Option<string>) {
    p.Some? && p.value != ""
  }

  /** `field__icontains=needle` */
  predicate IContains(field: string, needle: string) {
    Contains(Lower(field), Lower(needle))
  }

  /**
   * `parse_date(request.GET.get(name) or "")`: the date a parameter names, if any. `parseDate`
   * is Django's `parse_date` on a non-empty string; on "" it gives `None`.
   */
  function DateParam(raw: Option<string>, parseDate: string -> Option<Date>): (r: Option<Date>)
    ensures !Given(raw) ==> r == None
  {
    var s := raw.GetOr("");
    if s == "" then None else parseDate(s)
  }

  /**
   * The list's rule for one item, stated as one conjunction: it is FOUND, it mentions `q` in
   * its title or description, it was found at `location`, and on a day between the two
   * bounds, inclusive; a parameter that is absent, empty or not a date is no constraint.
   */
  predicate Shown(query: ListQuery, parseDate: string -> Option<Date>, item: Item) {
    && item.status == FOUND
    && (Given(query.q) ==> IContains(item.title, query.q.value) || IContains(item.description, query.q.value))
    && (Given(query.location) ==> IContains(item.locationFound, query.location.value))
    && (DateParam(query.dateFrom, parseDate).Some? ==> item.dateFound >= DateParam(query.dateFrom, parseDate).value)
    && (DateParam(query.dateTo, parseDate).Some? ==> item.dateFound <= DateParam(query.dateTo, parseDate).value)
  }

  /** `filter(status=FOUND)` */
  function IsFoundItem(): Item -> bool {
    (i: Item) => i.status == FOUND
  }

  /** `Q(title__icontains=q) | Q(description__icontains=q)` */
  function Mentions(q: string): Item -> bool {
    (i: Item) => IContains(i.title, q) || IContains(i.description, q)
  }

  /** `filter(location_found__icontains=location)` */
  function FoundAt(location: string): Item -> bool {
    (i: Item) => IContains(i.locationFound, location)
  }

  /** `filter(date_found__gte=d)` */
  function FoundFrom(d: Date): Item -> bool {
    (i: Item) => i.dateFound >= d
  }

  /** `filter(date_found__lte=d)` */
  function FoundUntil(d: Date): Item -> bool {
    (i: Item) => i.dateFound <= d
  }

  /** `queryset.filter(p)` when the parameter is given, the queryset as it was otherwise. */
  function Narrow(queryset: seq<Item>, given: bool, p: Item -> bool): seq<Item> {
    if given then Filter(queryset, p) else queryset
  }

  /**
   * `get_queryset` over the table `rows`: the FOUND items in the default ordering, narrowed
   * filter after filter by each parameter that is given.
   */
  function GetQueryset(rows: seq<Item>, query: ListQuery, parseDate: string -> Option<Date>): seq<Item> {
    var queryset := Filter(DefaultOrdered(rows), IsFoundItem());
    var queryset := Narrow(queryset, Given(query.q), Mentions(query.q.GetOr("")));
    var queryset := Narrow(queryset, Given(query.location), FoundAt(query.location.GetOr("")));
    var dateFrom := DateParam(query.dateFrom, parseDate);
    var queryset := Narrow(queryset, dateFrom.Some?, FoundFrom(dateFrom.GetOr(0)));
    var dateTo := DateParam(query.dateTo, parseDate);
    Narrow(queryset, dateTo.Some?, FoundUntil(dateTo.GetOr(0)))
  }

  /** Narrowing by `p`, or not at all, keeps the ordering and counts rows as `Filter` does with `p` or with nothing. */
  lemma MaybeFilter(s: seq<Item>, on: bool, p: Item -> bool, x: Item)
    requires InDefaultOrder(s)
    ensures InDefaultOrder(Narrow(s, on, p))
    ensures multiset(Narrow(s, on, p))[x] == if !on || p(x) then multiset(s)[x] else 0
  {
    if on {
      FilterCount(s, p, x);
      var before := (a: Item, b: Item) => ListedBefore(a, b);
      assert Chain(s, before);
      FilterKeepsOrder(s, p, before);
      var f := Filter(s, p);
      assert forall i, j :: 0 <= i < j < |f| ==> before(f[i], f[j]);
    }
  }

  /**
   * The list holds each row that `Shown` admits as often as the table does, and no other
   * row; and it is in the default ordering (date found, then creation time, newest first).
   */
  lemma GetQuerysetCount(rows: seq<Item>, query: ListQuery, parseDate: string -> Option<Date>, x: Item)
    ensures multiset(GetQueryset(rows, query, parseDate))[x] == if Shown(query, parseDate, x) then multiset(rows)[x] else 0
    ensures InDefaultOrder(GetQueryset(rows, query, parseDate))
  {
    var s0 := DefaultOrdered(rows);
    MaybeFilter(s0, true, IsFoundItem(), x);
    var s1 := Narrow(s0, true, IsFoundItem());
    var mentions := Mentions(query.q.GetOr(""));
    MaybeFilter(s1, Given(query.q), mentions, x);
    var s2 := Narrow(s1, Given(query.q), mentions);
    var at := FoundAt(query.location.GetOr(""));
    MaybeFilter(s2, Given(query.location), at, x);
    var s3 := Narrow(s2, Given(query.location), at);
    var dateFrom := DateParam(query.dateFrom, parseDate);
    MaybeFilter(s3, dateFrom.Some?, FoundFrom(dateFrom.GetOr(0)), x);
    var s4 := Narrow(s3, dateFrom.Some?, FoundFrom(dateFrom.GetOr(0)));
    var dateTo := DateParam(query.dateTo, parseDate);
    MaybeFilter(s4, dateTo.Some?, FoundUntil(dateTo.GetOr(0)), x);
    assert GetQueryset(rows, query, parseDate) == Narrow(s4, dateTo.Some?, FoundUntil(dateTo.GetOr(0)));
  }

  /** The list holds exactly the rows of the table that `Shown` admits. */
  lemma GetQuerysetIsShown(rows: seq<Item>, query: ListQuery, parseDate: string -> Option<Date>, x: Item)
    ensures x in GetQueryset(rows, query, parseDate) <==> x in rows && Shown(query, parseDate, x)
  {
    GetQuerysetCount(rows, query, parseDate, x);
    assert x in GetQueryset(rows, query, parseDate) <==> x in multiset(GetQueryset(rows, query, parseDate));
    assert x in rows <==> x in multiset(rows);
  }

  /** With no parameters the list is every FOUND item and nothing CLAIMED. */
  lemma UnfilteredListIsFoundItems(rows: seq<Item>, parseDate: string -> Option<Date>, x: Item)
    ensures x in GetQueryset(rows, ListQuery(None, None, None, None), parseDate) <==> x in rows && x.status == FOUND
  {
    GetQuerysetIsShown(rows, ListQuery(None, None, None, None), parseDate, x);
  }

  lemma LowerOfLowerCase(s: string)
    requires forall i :: 0 <= i < |s| ==> 'a' <= s[i] <= 'z'
    ensures Lower(s) == s
  {
  }

  /** A search for "backpack" finds "Blue Backpack", whatever the case. */
  lemma SearchIgnoresCase(title: string, q: string)
    requires title == "Blue Backpack" && q == "backpack"
    ensures IContains(title, q)
  {
    LowerOfLowerCase(q);
    var hay := Lower(title);
    assert hay[5..13] == q by {
      assert hay[5] == 'b';
      forall i | 6 <= i < 13 ensures hay[i] == title[i] {
        assert 'a' <= title[i] <= 'z';
      }
    }
    assert OccursAt(hay, q, 5);
    ContainsIff(hay, q);
  }

  /** A sequence whose multiset is one element is that element alone. */
  lemma SingletonSeq(r: seq<Item>, b: Item)
    requires multiset(r) == multiset{b}
    ensures r == [b]
  {
    assert |r| == |multiset(r)| == 1;
    assert r[0] in multiset(r);
  }

  /** When `b` is the one row `Shown` admits, and it is in the table once, the list is `[b]`. */
  lemma ListIsSingleRow(rows: seq<Item>, query: ListQuery, parseDate: string -> Option<Date>, b: Item)
    requires multiset(rows)[b] == 1 && Shown(query, parseDate, b)
    requires forall x :: x in rows && Shown(query, parseDate, x) ==> x == b
    ensures GetQueryset(rows, query, parseDate) == [b]
  {
    var r := GetQueryset(rows, query, parseDate);
    forall x ensures multiset(r)[x] == multiset{b}[x] {
      SingleRowCount(rows, query, parseDate, b, x);
    }
    assert multiset(r) == multiset{b};
    SingletonSeq(r, b);
  }

  lemma SingleRowCount(rows: seq<Item>, query: ListQuery, parseDate: string -> Option<Date>, b: Item, x: Item)
    requires multiset(rows)[b] == 1 && Shown(query, parseDate, b)
    requires forall x :: x in rows && Shown(query, parseDate, x) ==> x == b
    ensures multiset(GetQueryset(rows, query, parseDate))[x] == multiset{b}[x]
  {
    GetQuerysetCount(rows, query, parseDate, x);
    if x != b && Shown(query, parseDate, x) {
      assert x !in rows;
    }
  }

  /**
   * The public list on a FOUND "Blue Backpack" and a CLAIMED "Red Scarf": only the backpack
   * is listed, with no search and with the search "backpack".
   */
  lemma ListShowsOnlyFoundItems(backpack: Item, scarf: Item, parseDate: string -> Option<Date>,
                                all: ListQuery, search: ListQuery)
    requires backpack.title == "Blue Backpack" && backpack.status == FOUND
    requires scarf.title == "Red Scarf" && scarf.status == CLAIMED
    requires all == ListQuery(None, None, None, None)
    requires search == ListQuery(Some("backpack"), None, None, None)
    ensures GetQueryset([backpack, scarf], all, parseDate) == [backpack]
    ensures GetQueryset([backpack, scarf], search, parseDate) == [backpack]
  {
    SearchIgnoresCase(backpack.title, search.q.value);
    var rows := [backpack, scarf];
    assert multiset(rows)[backpack] == 1;
    ListIsSingleRow(rows, all, parseDate, backpack);
    ListIsSingleRow(rows, search, parseDate, backpack);
  }

  // ---------------------------------------------------------------------------------
  // ItemUploadView.post

  /** What the view answers: the login page, 403, the form again, or the item list. */
  datatype UploadResponse = LoginRedirect | Forbidden | FormRerendered | RedirectToItemList

  /**
   * The bound `ItemImageFormSet`: whether it is valid, whether it has changed, and the
   * files its forms carry (what `formset.save()` saves, in order).
   */
  datatype ImageFormset = ImageFormset(valid: bool, changed: bool, files: seq<FieldFile>)

  /**
   * The images `formset.save()` adds for item `itemId`, keyed from `start` on: one per file,
   * in order, each with the file the `pre_save` HEIC hook leaves in it.
   */
  function SavedImages(start: nat, itemId: nat, files: seq<FieldFile>, now: DateTime,
                       heifAvailable: bool, codec: Signals.Codec): map<nat, ItemImage>
  {
    if files == [] then map[]
    else
      var k := start + |files| - 1;
      SavedImages(start, itemId, files[..|files| - 1], now, heifAvailable, codec)[
        k := ItemImage(k, itemId, Signals.Normalised(heifAvailable, files[|files| - 1], codec), now)]
  }

  /**
   * The saved images take the keys `start`, `start + 1`, ..., one per file, and the image
   * under `start + j` holds what the hook makes of `files[j]`.
   */
  lemma {:induction false} SavedImagesContents(start: nat, itemId: nat, files: seq<FieldFile>, now: DateTime,
                                               heifAvailable: bool, codec: Signals.Codec)
    ensures forall k :: k in SavedImages(start, itemId, files, now, heifAvailable, codec) <==> start <= k < start + |files|
    ensures forall k :: k in SavedImages(start, itemId, files, now, heifAvailable, codec) ==>
      SavedImages(start, itemId, files, now, heifAvailable, codec)[k]
        == ItemImage(k, itemId, Signals.Normalised(heifAvailable, files[k - start], codec), now)
  {
    if files != [] {
      var init := files[..|files| - 1];
      SavedImagesContents(start, itemId, init, now, heifAvailable, codec);
    }
  }

  lemma SavedImagesSnoc(start: nat, itemId: nat, files: seq<FieldFile>, i: nat, now: DateTime,
                        heifAvailable: bool, codec: Signals.Codec)
    requires i < |files|
    ensures SavedImages(start, itemId, files[..i + 1], now, heifAvailable, codec)
         == SavedImages(start, itemId, files[..i], now, heifAvailable, codec)[
              start + i := ItemImage(start + i, itemId, Signals.Normalised(heifAvailable, files[i], codec), now)]
  {
    assert files[..i + 1][..i] == files[..i];
  }

  lemma UnionUpdate<K, V>(a: map<K, V>, b: map<K, V>, k: K, v: V)
    ensures (a + b)[k := v] == a + b[k := v]
  {
  }

  /** Saving the image for `files[i]` under key `start + i` extends the saved images by one. */
  lemma SavedImagesStep(table: map<nat, ItemImage>, start: nat, itemId: nat, files: seq<FieldFile>, i: nat,
                        now: DateTime, heifAvailable: bool, codec: Signals.Codec, file: FieldFile)
    requires i < |files|
    requires file == Signals.Normalised(heifAvailable, files[i], codec)
    ensures (table + SavedImages(start, itemId, files[..i], now, heifAvailable, codec))[
              start + i := ItemImage(start + i, itemId, file, now)]
         == table + SavedImages(start, itemId, files[..i + 1], now, heifAvailable, codec)
  {
    SavedImagesSnoc(start, itemId, files, i, now, heifAvailable, codec);
    UnionUpdate(table, SavedImages(start, itemId, files[..i], now, heifAvailable, codec),
                start + i, ItemImage(start + i, itemId, file, now));
  }

  /**
   * `save()` on one new `ItemImage` of item `itemId`: the `pre_save` hook runs on the
   * instance, then the row is stored under the next key with the file the hook left.
   */
  method SaveImageInstance(db: Database, itemId: nat, upload: FieldFile, now: DateTime,
                           heifAvailable: bool, codec: Signals.Codec) returns (file: FieldFile)
    requires db.Valid() && itemId in db.items
    modifies db
    ensures db.Valid()
    ensures file == Signals.Normalised(heifAvailable, upload, codec)
    ensures db.users == old(db.users) && db.items == old(db.items) && db.nextItemId == old(db.nextItemId)
    ensures db.nextImageId == old(db.nextImageId) + 1
    ensures db.images == old(db.images)[old(db.nextImageId) := ItemImage(old(db.nextImageId), itemId, file, now)]
  {
    var pending := new Signals.PendingImage(itemId, upload);
    Signals.ConvertHeicImage(pending, heifAvailable, codec);
    file := pending.image;
    var id := db.SaveImage(ItemImage(0, itemId, file, now));
  }

  /** `formset.instance = item; formset.save()`: each image is saved, running the HEIC hook first. */
  method SaveFormset(db: Database, itemId: nat, files: seq<FieldFile>, now: DateTime,
                     heifAvailable: bool, codec: Signals.Codec)
    requires db.Valid() && itemId in db.items
    modifies db
    ensures db.Valid()
    ensures db.users == old(db.users) && db.items == old(db.items) && db.nextItemId == old(db.nextItemId)
    ensures db.nextImageId == old(db.nextImageId) + |files|
    ensures db.images == old(db.images) + SavedImages(old(db.nextImageId), itemId, files, now, heifAvailable, codec)
  {
    var i := 0;
    while i < |files|
      invariant 0 <= i <= |files|
      invariant db.Valid()
      invariant db.users == old(db.users) && db.items == old(db.items) && db.nextItemId == old(db.nextItemId)
      invariant db.nextImageId == old(db.nextImageId) + i
      invariant db.images == old(db.images) + SavedImages(old(db.nextImageId), itemId, files[..i], now, heifAvailable, codec)
    {
      var file := SaveImageInstance(db, itemId, files[i], now, heifAvailable, codec);
      SavedImagesStep(old(db.images), old(db.nextImageId), itemId, files, i, now, heifAvailable, codec, file);
      i := i + 1;
    }
    assert files[..i] == files;
  }

  /**
   * `ItemUploadView.post`, behind its two mixins. An anonymous caller is sent to log in and a
   * non-staff one refused; if either form is invalid nothing is saved; otherwise the item is
   * saved under the next key with the caller as its creator, and its images are saved only
   * when the formset has changed.
   */
  method PostItemUpload(db: Database, user: User, itemForm: Option<ItemFields>, formset: ImageFormset,
                        now: DateTime, heifAvailable: bool, codec: Signals.Codec)
    returns (response: UploadResponse)
    requires db.Valid()
    requires user.Account? ==> user.id in db.users
    modifies db
    ensures db.Valid() && db.users == old(db.users)
    ensures response ==
      if !IsAuthenticated(user) then LoginRedirect
      else if !TestFunc(user) then Forbidden
      else if itemForm.None? || !formset.valid then FormRerendered
      else RedirectToItemList
    ensures response != RedirectToItemList ==> db.items == old(db.items) && db.images == old(db.images)
    ensures db.nextItemId == old(db.nextItemId) + (if response == RedirectToItemList then 1 else 0)
    ensures db.nextImageId ==
      old(db.nextImageId) + (if response == RedirectToItemList && formset.changed then |formset.files| else 0)
    ensures response == RedirectToItemList ==>
      var id := old(db.nextItemId);
      && id !in old(db.items)
      && db.items == old(db.items)[id := NewItem(id, itemForm.value, Some(user.id), now)]
      && db.images == old(db.images) +
           (if formset.changed then SavedImages(old(db.nextImageId), id, formset.files, now, heifAvailable, codec)
            else map[])
  {
    if !IsAuthenticated(user) {
      return LoginRedirect;
    }
    if !TestFunc(user) {
      return Forbidden;
    }
    if !(itemForm.Some? && formset.valid) {
      return FormRerendered;
    }
    var item := NewItem(0, itemForm.value, Some(user.id), now);
    var id := db.SaveItem(item);
    assert item.(id := id) == NewItem(id, itemForm.value, Some(user.id), now);
    if formset.changed {
      SaveFormset(db, id, formset.files, now, heifAvailable, codec);
    }
    response := RedirectToItemList;
  }
}
