# Lost-and-found catalogue: a Dafny model of its decision logic

The catalogue lets reception staff upload photos of found items, ask an external vision
service for a suggested title and description, and save the item. The public can then
search the FOUND items. This project models the four places where the Django app makes
decisions, and proves what each of them promises:

- **HEIC normalisation** (`inventory/signals.py`). A `pre_save` hook on `ItemImage` acts
  only when HEIF support is present, the field holds a file and the name ends in
  `.heic`/`.heif` in any case. Such a file is decoded and flattened to RGB. An image with
  alpha or a palette is pasted on a white canvas; any other non-RGB mode is converted. The
  result is re-encoded as JPEG and stored under `splitext(name)[0] + ".jpg"`. If any step
  raises, the original file stays in the field.
  Pillow is a term algebra (`Imaging.Image`) whose `ModeOf`/`SizeOf` give the mode and size
  Pillow reports. Decoding, JPEG encoding and storage are an oracle (`Signals.Codec`), and
  each of them may fail.
- **Vision suggestions** (`inventory/services.py`). `analyze_item_images` answers `{}` and
  sends nothing when the API key is missing or empty, when there are no files, or when every
  file is falsy. Otherwise it rewinds each truthy file, swallowing `AttributeError` and
  `OSError` from `seek`. It builds one `"images"` part per file, in order, and makes exactly
  one POST (`Authorization: Bearer <key>`, timeout 20). Any failure of the call maps to `{}`.
  A success gives exactly `title` and `description`, each defaulting to `""` and stripped.
  The HTTP call is a function `Request -> HttpOutcome` (`Failed | Succeeded(body)`).
- **Views** (`inventory/views.py`). These cover the staff predicate and the AJAX endpoint
  (403 for non-staff; only `image_*` files are forwarded; with none, the answer is an empty
  title/description pair). They also cover the public list (FOUND items, case-insensitive
  search in title or description, location substring, inclusive date bounds, default
  ordering) and the upload POST. The POST saves nothing if either form is invalid. Otherwise
  it saves the item with the caller as creator, then the images if the formset changed.
  Each image passes through the HEIC hook as it is saved.
- **Records** (`inventory/models.py`). These are `Item`, `ItemImage` and `Status` (two
  choices, default FOUND), the default ordering, the `__str__` forms, and the deletion rules
  (CASCADE from item to images, SET_NULL from user to item). `Catalog.Database` is the
  in-memory table store the upload view writes to.

Module layout: `Wrappers` (Option), `Text` (`lower`, `startswith`, `endswith`, substring,
`strip`, `str(int)`), `Seqs` (order-keeping filter), `PosixPath` (`os.path.splitext`),
`Files`, `Imaging`, `Models`, `Catalog`, `Signals`, `Services`, `Views`.

Behaviour of the code that is easy to miss, and that the model keeps:

- The service's gates and failures return an empty mapping `{}`. Only the AJAX view's own
  "no image files" path answers `{"title": "", "description": ""}`.
- A null endpoint setting reaches `requests.post(None, ...)`, which raises inside the `try`,
  so the answer is `{}`. A missing setting uses the default endpoint.
- An `LA` image is pasted without a mask. The mask is the alpha band only when the image is
  RGBA at that point, which includes a palette image after its conversion to RGBA.
- The hook replaces the field's file in place (`FieldFile.save(..., save=False)`).
- A `seek(0)` that raises something other than `AttributeError`/`OSError` happens outside
  the `try`. That exception leaves `analyze_item_images`. The model returns `Raised(e)` in
  that case and sends nothing.
- A name that is only the suffix, such as `.heic`, has no extension for `splitext`. It is
  converted to `.heic.jpg`.
- The upload view redirects to the item list after saving.
- The AJAX endpoint accepts only POST; any other method is answered 405 before the staff
  check.

## Model

| member | source | states |
|---|---|---|
| `Signals.IsHeicFile` | inventory/signals.py:24-29 | the suffix test; its meaning is stated by `Signals.IsHeicFileMeans` |
| `Signals.IsHeicFileMeans` | inventory/signals.py:24-29 | false for `None` and ""; true exactly when the lower-cased last five characters are ".heic" or ".heif" |
| `Signals.HeicTail` | inventory/signals.py:24-29 | a HEIC name ends in a dot followed by four characters that are neither dots nor separators |
| `Signals.HeicIgnoresCase` | inventory/signals.py:28-29 | two names that lower-case alike are judged alike |
| `Signals.JpegNameIsNotHeic` | inventory/signals.py:24-29 | a name ending in ".jpg" is never taken for HEIC |
| `Signals.ConvertedName` | inventory/signals.py:79-80 | the rewritten name; stated by `Signals.ConvertedNameOfHeic` and `Signals.ConvertedNameIsJpeg` |
| `Signals.ConvertedNameOfHeic` | inventory/signals.py:79-80 | for a HEIC name only the final five-character extension is replaced by ".jpg"; when the last component is only dots before it, ".jpg" is appended |
| `Signals.ConvertedNameExample` | inventory/signals.py:79-80 | "IMG_001.HEIC" becomes "IMG_001.jpg" |
| `Signals.ConvertedNameIsJpeg` | inventory/signals.py:79-80 | every rewritten name ends in ".jpg" and is not a HEIC name |
| `PosixPath.SplitExt` | inventory/signals.py:79 | root + ext is the name; ext is empty or one dot followed by no dot or separator |
| `PosixPath.SplitExtAtExtension` | inventory/signals.py:79 | `splitext` splits exactly at the last dot of the last component, and only when a non-dot character precedes it there |
| `PosixPath.SplitExtExample` | inventory/signals.py:79 | `splitext("IMG_001.HEIC")` is ("IMG_001", ".HEIC") |
| `PosixPath.SplitExtDotFile` | inventory/signals.py:79 | a leading dot does not start an extension: `splitext(".heic")` is (".heic", "") |
| `Signals.ToRgb` | inventory/signals.py:63-71 | the result is RGB of the same size; RGB is untouched; RGBA/LA/P are pasted on a white RGB canvas, P after conversion to RGBA, with the alpha band as mask exactly when the pasted image is RGBA; other modes are converted to RGB |
| `Signals.Normalised` | inventory/signals.py:37-93 | what the hook leaves in the field; stated by `Signals.NormalisedKeeps` and `Signals.NormalisedConverts` |
| `Signals.NormalisedKeeps` | inventory/signals.py:37-93 | no HEIF support, an empty field, a non-HEIC name, or a failed read, decode or JPEG encode leave the file unchanged |
| `Signals.NormalisedConverts` | inventory/signals.py:54-93 | a changed file is the JPEG (quality 95, optimised) of the RGB-flattened decoded image, stored under the rewritten name; when every step succeeds the field takes it, and a failure at any step keeps the original |
| `Signals.NormalisedIdempotent` | inventory/signals.py:38-93 | running the hook on its own output changes nothing (given storage keeps ".jpg" names) |
| `Signals.ApplyColourPolicy` | inventory/signals.py:63-71 | the colour block leaves exactly the image `ToRgb` describes |
| `Signals.ConvertHeicImage` | inventory/signals.py:32-93 | the handler, step by step, leaves in `instance.image` exactly what `Normalised` gives and changes nothing else |
| `Services.PartFor` | inventory/services.py:42-49 | a part has field "images", the file, its name or "image", and its content type or "application/octet-stream" |
| `Services.PartsShape` | inventory/services.py:38-49 | every part is an "images" part for a truthy input file |
| `Services.PartsCount` | inventory/services.py:38-49 | there is one part per truthy file |
| `Services.PartsInOrder` | inventory/services.py:38-49 | the part of each truthy file sits after the parts of the truthy files before it |
| `Services.PartsOf` | inventory/services.py:38-49 | the parts the loop builds; stated by `Services.PartsShape`, `Services.PartsCount` and `Services.PartsInOrder` |
| `Services.FirstEscape` | inventory/services.py:44-48 | the first truthy file whose `seek` raises something other than `AttributeError`/`OSError`, and none before it |
| `Services.AddPart` | inventory/services.py:42-49 | one pass of the loop: a falsy entry adds nothing; a truthy one is rewound when its `seek` works, adds its part, or stops the loop with an exception that is not swallowed |
| `Services.BuildMultipart` | inventory/services.py:38-49 | the loop builds exactly those parts, rewinds the rewindable truthy files it reaches, and stops with the first exception that is not swallowed |
| `Services.AsDict` | inventory/services.py:79-84 | `{}` has no keys; a suggestion is the dictionary with exactly the keys "title" and "description" |
| `Services.Shape` | inventory/services.py:79-84 | the result is always a title and description pair, each without whitespace at either end |
| `Services.ShapeFields` | inventory/services.py:74-84 | a missing body or key gives ""; a present value gives its `strip()` |
| `Services.ShapeOfNull` | inventory/services.py:74 | a JSON `null` body gives two empty strings |
| `Services.ShapeOfTrimmed` | inventory/services.py:79-84 | values without surrounding whitespace come back unchanged |
| `Services.ShapeOfPadded` | inventory/services.py:79-84 | whitespace around a description is removed and the description itself kept |
| `Services.ShapeTrimsExample` | inventory/services.py:79-84 | "Black Umbrella" and " A compact black umbrella " come back as "Black Umbrella" and "A compact black umbrella" |
| `Services.Suggestion` | inventory/services.py:10-84 | no key or no files gives `{}` and no request; an exception escapes exactly when some truthy file's `seek` raises one the handler does not swallow, and it is the first such; a request is sent exactly when the key is set, nothing escaped, some file is truthy and the endpoint is not null; it goes to the endpoint with the bearer header, timeout 20 and exactly the parts; a failed call answers `{}` and a successful one the shaped body; without a request the answer is `{}` |
| `Services.EndpointOf` | inventory/services.py:23-28 | the endpoint setting; stated by `Services.EndpointRule` |
| `Services.EndpointRule` | inventory/services.py:23-77 | a null endpoint sends nothing and answers `{}` (or the escaped exception); a missing setting posts to the default endpoint, a set one to its value |
| `Services.RequestFor` | inventory/services.py:54-67 | the request built from the settings and parts; its fields are stated by `Services.Suggestion` |
| `Services.OnlyFalsyFilesSendNothing` | inventory/services.py:38-52 | when every file is falsy the answer is `{}` and nothing is sent |
| `Services.FailureIsEmpty` | inventory/services.py:65-77 | a failed POST, `raise_for_status` or `json` gives `{}` |
| `Services.AnalyzeItemImages` | inventory/services.py:10-84 | the function returns what `Suggestion` gives and sends at most one request; the files rewound are exactly the truthy, rewindable ones it reaches |
| `Views.TestFunc` | inventory/views.py:19-21 | the staff predicate: the user is signed in and, being signed in, is staff |
| `Views.ImageUploads` | inventory/views.py:87-90 | the forwarded files; stated by `Views.ImageUploadsMembers` and `Views.CollectImageUploads` |
| `Views.ImageUploadsMembers` | inventory/views.py:87-90 | a file is forwarded exactly when an entry with an "image_" key holds it |
| `Views.CollectImageUploads` | inventory/views.py:87-90 | the loop collects the files of the "image_" keys, in key order |
| `Views.AnalyzeImagesAjax` | inventory/views.py:80-96 | a method other than POST gets 405 and no call; non-staff get 403 `{"error": "Unauthorized"}`; no image files gives an empty title/description and no call; otherwise the service's answer for exactly those files, with its one request; on the 405, 403 and no-image paths no file is touched; otherwise only the files the service's own `seek(0)` rewinds move, to position 0 |
| `Views.DateParam` | inventory/views.py:149-155 | an absent or empty date parameter is no bound |
| `Views.MaybeFilter` | inventory/views.py:139-155 | each optional filter keeps the default ordering and keeps a row exactly as often as before when it passes, and drops it otherwise |
| `Views.Shown` | inventory/views.py:137-155 | a row is FOUND and passes every given filter (case-insensitive `q` in title or description, location substring, inclusive date bounds); used by `Views.GetQuerysetIsShown` |
| `Views.GetQueryset` | inventory/views.py:136-157 | the listed rows; stated by `Views.GetQuerysetIsShown` and `Views.GetQuerysetCount` |
| `Views.GetQuerysetCount` | inventory/views.py:136-157 | the list holds each row as often as the table does when `Shown` admits it and never otherwise, in the default ordering |
| `Views.GetQuerysetIsShown` | inventory/views.py:136-157 | a row is listed exactly when it is stored and `Shown` admits it |
| `Views.UnfilteredListIsFoundItems` | inventory/views.py:137 | with no parameters the list is every FOUND item and nothing CLAIMED |
| `Views.SearchIgnoresCase` | inventory/views.py:139-143 | the search "backpack" matches "Blue Backpack" |
| `Views.ListIsSingleRow` | inventory/views.py:136-157 | when exactly one stored row passes the filters, the list is that row alone |
| `Views.ListShowsOnlyFoundItems` | inventory/views.py:136-143 | of a FOUND backpack and a CLAIMED scarf only the backpack is listed, with or without the search "backpack" |
| `Views.SavedImages` | inventory/views.py:69-71 | the images the formset saves; stated by `Views.SavedImagesContents` |
| `Views.SavedImagesContents` | inventory/views.py:69-71 | the images saved for an item have consecutive new keys, one per file, in order, each holding the file the HEIC hook leaves |
| `Views.SaveImageInstance` | inventory/signals.py:32-33 | saving one image runs the HEIC hook first and stores what it leaves under the next key, touching no item |
| `Views.SaveFormset` | inventory/views.py:69-71 | saving the formset adds exactly those images, each after running the HEIC hook, and touches no item |
| `Views.PostItemUpload` | inventory/views.py:39-77 | anonymous users are sent to log in and non-staff refused; an invalid form or formset saves nothing; otherwise the item is saved under a new key with the caller as creator, and its images are saved only when the formset changed; the next item key advances by one exactly when the item is saved, and the next image key by the number of images saved |
| `Models.ParseStatus` | inventory/models.py:6-8 | a stored value names a choice only if it is that choice's value |
| `Models.StatusChoices` | inventory/models.py:6-19 | exactly "FOUND" and "CLAIMED" are valid, each reads back as itself, and each fits `max_length=20` |
| `Models.NewItem` | inventory/models.py:10-26 | a new item carries the form's fields, defaults its status to FOUND, and records its creator and creation time |
| `Models.StringForms` | inventory/models.py:37-51 | `str(item)` is its title; `str(image)` is "Image for " followed by the decimal id of its item, without leading zeros |
| `Models.ItemString` | inventory/models.py:37-38 | `str(item)`; stated by `Models.StringForms` |
| `Models.ImageString` | inventory/models.py:50-51 | `str(image)`; stated by `Models.StringForms` |
| `Models.ListedBefore` | inventory/models.py:31 | the default ordering; stated by `Models.ListedBeforeIsTotalPreorder` and `Models.DefaultOrdered` |
| `Models.ListedBeforeIsTotalPreorder` | inventory/models.py:31 | "date found descending, then created descending" is a total preorder |
| `Models.DefaultOrdered` | inventory/models.py:31 | the rows in the default ordering are sorted by it and are the same rows |
| `Models.ImagesAfterItemDelete` | inventory/models.py:42-46 | deleting an item removes exactly its images and keeps the others as they were |
| `Models.ItemsAfterUserDelete` | inventory/models.py:20-26 | deleting a user keeps every item, sets the creator of that user's items to null and changes nothing else |
| `Catalog.Database.SaveItem` | inventory/views.py:64-66 | a new item is stored under the next key and nothing else changes |
| `Catalog.Database.SaveImage` | inventory/models.py:41-48 | a new image of a stored item is stored under the next key and nothing else changes |
| `Catalog.Database.DeleteItem` | inventory/models.py:42-46 | deleting an item cascades to its images, and the store stays consistent |
| `Catalog.Database.DeleteUser` | inventory/models.py:20-26 | deleting a user sets the creator of their items to null, and the store stays consistent |
| `Text.Lower` | inventory/signals.py:28 | `str.lower()` on ASCII: same length, each character lower-cased |
| `Text.Strip` | inventory/services.py:83-84 | `str.strip()`: the result has no whitespace at either end; stated fully by `Text.StripUnique` and `Text.StripIsInfix` |
| `Text.StripUnique` | inventory/services.py:83-84 | `strip` removes the whitespace around a trimmed middle and keeps the middle |
| `Text.StripIsInfix` | inventory/services.py:83-84 | what `strip` removes is whitespace at the two ends and nothing else |
| `Text.Contains` | inventory/views.py:139-147 | the substring test; stated by `Text.ContainsIff` |
| `Text.ContainsIff` | inventory/views.py:139-147 | the substring test holds exactly when the needle occurs at some position |

## Left out

- Pillow and pillow-heif are not modelled: pixel data, compositing, the JPEG encoder and the
  registration of the HEIF opener. Decoding, encoding and storage are the `Codec` oracle,
  and the availability of HEIF support is a boolean parameter.
- Signals.ConvertHeicImage: the read position of the field's file is not modelled. A failed
  seek or read is a missing stream (`FieldFile.stream == None`).
- Logging is left out everywhere, because it has no effect on results.
- The `requests.post` transport, the prompt text and the real endpoint are left out. The
  call is a function from the request to an outcome, and the outcome does not depend on
  the prompt.
- Services.Shape: the decoded body is a JSON object whose "title" and "description" are strings
  or absent (`Payload`), or `null`. A falsy value (`0`, `false`, `[]`, `{}`) or a falsy body
  becomes `""` or `{}` through `or` and does not raise; a string-typed model covers those
  only as an absent value. A truthy non-string value raises in `.strip()`, and a truthy body
  that is a list, number or string raises in `.get`, both outside the `try`; those paths are
  not modelled.
- Services.AnalyzeItemImages: the positions stated are those its own `seek(0)` calls leave.
  The reads `requests` makes to encode the multipart body of a sent request are not
  modelled.
- Views.AnalyzeImagesAjax: the same holds for the view. A rewound file is stated to end at
  position 0, but when a request is sent the transport reads it further while encoding the
  body; those reads are not modelled.
- Views.SaveImageInstance and Views.SavedImages: the stored file is the one the HEIC hook
  leaves in the field. The `FileField` commit under `upload_to="item_images/"`, and any
  renaming by the storage backend, are not modelled.
- The display labels of the status choices ("Found", "Claimed") are not modelled; only the
  stored values matter to the logic here.
- Views.IContains: the database's case folding is modelled as ASCII lower-casing followed by
  substring search.
- `Text.Lower` folds only ASCII letters. For the ".heic"/".heif" test this matches Python:
  no non-ASCII character lower-cases to a string ending in one of those letters or in a dot
  (`"İ".lower()` contains an `i`, but a combining dot follows it).
- Views.DateParam: Django's `parse_date` is a parameter. Its `ValueError` on a well-formed
  but impossible date is not modelled.
- `request.FILES` is modelled as one entry per key (`Views.UploadedFiles` forbids a repeated
  key), holding the file `request.FILES[key]` returns, which is the last one sent under
  that key. The other files sent under the same key are not modelled.
- Views.PostItemUpload: form and formset validation are inputs (`None` for an invalid item
  form; `valid`, `changed` and the files for the formset). The internals that compute them
  are not shown. Rendering, messages, templates, redirects as URLs, CSRF and pagination
  (`paginate_by = 20`) are left out.
- The login redirect is reduced to the `LoginRedirect` answer.
- `ItemUploadView.get`, `ItemUploadConfirmView` and `ItemDetailView` are left out. They
  only render, or repeat the save rules of `post` without the `has_changed` check.
- The admin registrations are left out.
- `updated_at` (`auto_now`) is set only at creation. No update path of an item is modelled.
- `created_at` and the current time are a parameter, `now`.
- Dates and datetimes are integers (day numbers and timestamps). Only their order matters
  here.
