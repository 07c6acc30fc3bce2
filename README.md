# Gallery Manager — a verified model of its collection logic

`GalleryManager` (js/script.js) is the controller of a single-page image
gallery. Its state is an ordered collection of image records. Each record has
a locator (`url`), an `orientation` label and a natural `width` and `height`.
Besides the collection it keeps an enlarged-view cursor (`currentImageIndex`)
and the gallery title. This project models the logic that decides that state:

- **Classification** (`Images`). A record is labelled landscape exactly when
  its width is at least its height.
- **Upload** (`Ingest`, `Ordering`). Files that cannot be read are dropped.
  As written, a file that reads but does not decode stalls the whole batch
  (see "## Findings"); the model drops that file too. The batch is sorted
  with the composite comparator: landscape before portrait, then descending
  width/height ratio. The batch is then appended. The
  comparator's ratio difference `b.w/b.h − a.w/a.h` is modelled by cross
  multiplication, and its sign is proved to match the ratio difference.
- **Modal navigation** (`Navigation`). `findIndex` runs on open and the cursor
  becomes -1 on close. The arrow keys step the cursor by one and stop at both
  ends.
- **Collection-wide transforms** (`Transforms`). WebP conversion and resizing
  call the host once per record, in order. The first failure ends the loop,
  and the collection is replaced only when every record succeeded.
- **Export naming** (`Naming`, `Export`). This covers the MIME-to-extension
  table, the image file names `image{k+1}{ext}` and the archive folder
  `title-D Mon YYYY-HHMM` with zero-padded time. It also covers the download
  name `folder.zip` and the initial-state payload that points at `img/…`.
- **The controller** (`GalleryManager.Gallery`). A class with the fields
  `images`, `currentImageIndex`, `title` and `modalOpen`, the last being the
  overlay's `active` class. Every handler that changes them is a method.
  `RunTransform` is the indexed loop that pushes results and commits only at
  the end.

Host facilities are parameters of the operations that use them:

- the per-file result of reading and decoding an upload (`Ingest.FileOutcome`);
- the WebP re-encoder (`string -> Option<Decoded>`);
- the resize renderer (`(string, int) -> Option<Rendition>`), which reports
  the natural size of the drawn source;
- the blob fetch of the export (`string -> Option<string>`, the blob's MIME
  type).

The current time is a `Naming.Stamp`, and its month abbreviation is an opaque
string.

Sizes are `real`. Decoded sizes are integers, but `resizeImage` stores
`img.width * (percentage / 100)` unrounded (js/script.js:449-463), so a
resized record can carry a fractional size. Decoded sizes enter as `nat` and
become `real`.

## Model

| member | source | states |
|---|---|---|
| Images.OrientationOf | js/script.js:145 | The labelling rule; its property, landscape exactly when width >= height, is stated by Images.Classify and applied to resized sizes by Transforms.ResizeKeepsOrientation |
| Images.Urls | js/script.js:238-239 | The locators of a collection: one per record, index-aligned with it |
| Images.Classify | js/script.js:141-150 | The record keeps the locator and the natural size; it is landscape exactly when width >= height, so its label agrees with its size |
| Ordering.Compare | js/script.js:166-173 | Records of different orientations never tie, and the landscape one goes first; a record ties with itself |
| Ordering.CompareIsScaledRatioDifference | js/script.js:166-171 | Within one orientation and for positive heights, the cross-multiplied comparator equals the comparator's `bRatio - aRatio` scaled by the positive factor `a.h * b.h` |
| Ordering.CompareAgreesWithRatio | js/script.js:166-171 | For positive heights in one orientation, the comparator is negative exactly when a's ratio exceeds b's, and zero exactly when the ratios are equal |
| Ordering.CompareAntisymmetric | js/script.js:166-173 | compare(a, b) is -compare(b, a), for both the ratio branch and the orientation branch |
| Ordering.PrecedesTotal | js/script.js:166-173 | Of any two records, at least one may precede the other |
| Ordering.PrecedesTransitive | js/script.js:166-173 | With positive heights the comparator's order is transitive, across and within orientations |
| Ordering.Insert | js/script.js:166-173 | One insertion step of the batch sort adds exactly the inserted record: the multiset grows by it |
| Ordering.SortBatch | js/script.js:166-173 | The sorted batch is a permutation of the unsorted one |
| Ordering.InsertSorted | js/script.js:166-173 | Inserting a record with positive height into a sorted batch keeps it sorted |
| Ordering.SortBatchSorted | js/script.js:166-173 | A batch with positive heights comes out sorted by the comparator, pairwise |
| Ordering.SortedMeaning | js/script.js:166-173 | In a sorted batch no portrait record precedes a landscape one, and within an orientation width/height does not increase |
| Ingest.Successes | js/script.js:152-165 | The filtered batch has no more records than files, holds the record of every file that loaded, and every label agrees with its size |
| Ingest.SuccessesAppend | js/script.js:165 | Filtering keeps file order: it distributes over concatenation of the file list |
| Ingest.SuccessesFromLoaded | js/script.js:153-165 | Every record of the batch is the classification of some file that loaded; unreadable or undecodable files add nothing |
| Ingest.BatchConsistent | js/script.js:145-173 | Every record of the sorted batch has a label that agrees with its size |
| Ingest.Batch | js/script.js:165-173 | The sorted batch; its properties are stated by Ingest.BatchIsSortedPermutation and Ingest.BatchConsistent: a sorted permutation of the loaded files with consistent labels |
| Ingest.Ingest | js/script.js:175 | The new collection starts with the old one unchanged, and its tail is a permutation of the successfully loaded files |
| Ingest.BatchIsSortedPermutation | js/script.js:165-173 | The appended batch is a permutation of the loaded files, sorted by the comparator, with positive heights and consistent labels, whenever every loaded file has a positive height |
| Ingest.UploadOrder | js/script.js:145-175 | After an upload: old prefix unchanged, tail a permutation of the loaded files, landscape before portrait, ratio non-increasing within an orientation, landscape iff width >= height |
| Ingest.UploadAsWritten | js/script.js:141-175 | The handler as written stalls exactly when some file is undecodable; otherwise it agrees with the corrected handler: the old collection is the prefix and the tail is a permutation of the loaded files (the sorted batch) |
| Ingest.UndecodableFileStallsUpload | js/script.js:141-165 | With one good and one undecodable file the handler as written appends nothing, while the corrected handler appends the good record |
| Navigation.FirstIndexOf | js/script.js:87 | `findIndex`: -1 exactly when no record has the locator, otherwise the least index whose record has it |
| Navigation.NextIndex | js/script.js:108-113 | Moves the cursor by +1 or not at all; it stays put exactly when it is at or past the last index; a cursor in [-1, n) stays there |
| Navigation.PreviousIndex | js/script.js:115-120 | Moves the cursor by -1 or not at all; it stays put exactly when it is at or below 0; a non-negative cursor stays non-negative |
| Navigation.NavigationStaysInBounds | js/script.js:108-120 | From an index in [0, n-1], next and previous stay in [0, n-1]; next at the last index and previous at 0 change nothing |
| Navigation.NextAfterMissedOpen | js/script.js:83-113 | Opening on a locator that no record has leaves the cursor at -1; the next arrow-right then moves it to the first record |
| Navigation.OpenResolvesToFirstDuplicate | js/script.js:87 | With duplicate locators, opening either copy lands on the first one |
| Transforms.Step | js/script.js:383-465 | A host step that succeeds yields a record whose label agrees with its size |
| Transforms.FirstFailure | js/script.js:383-396 | The index where the loop stops: every earlier record's step succeeds and the step at that index fails, or it is the size of the collection |
| Transforms.TransformAll | js/script.js:383-398 | All or nothing: a result exists exactly when every step succeeds, and then it has one record per original, in order, each that step's result |
| Transforms.Attempted | js/script.js:383-396 | The locators handed to the host, in call order; its properties are stated by Transforms.EmptyIsNoOp, Transforms.FailureAtLeavesCollection and Transforms.SuccessReplacesInOrder: none on an empty collection, records 0..k when record k fails, every record on success |
| Transforms.Committed | js/script.js:397-398 | The collection after a transform has the old length; any failing record leaves it the old collection, and full success makes record k the step's result for old record k |
| Transforms.EmptyIsNoOp | js/script.js:376-378 | On an empty collection a transform changes nothing and calls the host on nothing |
| Transforms.FailureAtLeavesCollection | js/script.js:391-395 | A failure at record k leaves the collection exactly as it was, after the host was called on records 0..k only |
| Transforms.SuccessReplacesInOrder | js/script.js:383-398 | On full success the collection becomes one consistent new record per original, in the original order, and every record was handed to the host |
| Transforms.CommittedKeepsConsistent | js/script.js:375-503 | Whether it commits or not, a transform leaves a consistent collection consistent |
| Transforms.Scaled | js/script.js:449-450 | Its properties are stated by Transforms.ScaleKeepsOrder and Transforms.ResizeKeepsOrientation: `n * (p / 100)`, order-preserving for p > 0 and the identity at 100 |
| Transforms.ScaleKeepsOrder | js/script.js:449-450 | Scaling both sides by a positive percentage keeps width >= height exactly when it held before |
| Transforms.ResizeKeepsOrientation | js/script.js:449-463 | A resized record measures w*p/100 by h*p/100, with the drawn source's orientation; at 100 percent it keeps the source's size |
| Transforms.ResizeKeepsRecordOrientation | js/script.js:442-463 | When the drawn source has the record's own size, resizing by a positive percentage keeps the record's label |
| Transforms.FractionalResizeThenIdentityFlips | js/script.js:444-463 | A 201x202 portrait resized to 25 percent is stored as 50.25x50.5, still portrait, while its canvas is 50x50; resizing that 50x50 blob at 100 percent labels it landscape |
| Naming.Decimal | js/script.js:242 | `String(n)`: a non-empty run of decimal digits with no leading zero unless n is 0 |
| Naming.DecimalRoundTrip | js/script.js:242 | Reading the decimal text back gives the number |
| Naming.DecimalInjective | js/script.js:242 | Different numbers have different decimal texts |
| Naming.PadStart | js/script.js:222 | `padStart`: the result is at least the target length, ends with the input, and what comes before it is the pad character |
| Naming.Pad2RoundTrip | js/script.js:222 | For 0..99 the padded text is exactly two digits that read back as the number |
| Naming.Trim | js/script.js:219 | Its properties are stated by Naming.TrimIsInnerSlice and Naming.TrimIdempotent: the inner slice between leading and trailing white space, and idempotent |
| Naming.TrimStart | js/script.js:219 | Removes only leading white space, all of it |
| Naming.TrimEnd | js/script.js:219 | Removes only trailing white space, all of it |
| Naming.TrimIsInnerSlice | js/script.js:219 | `trim()` yields the contiguous slice between the leading and the trailing white space, and it neither starts nor ends with white space |
| Naming.TrimIdempotent | js/script.js:219 | Trimming twice is trimming once |
| Naming.Extension | js/script.js:299-307 | The extension is one of .jpg, .png, .gif, .webp; any MIME type outside the table gives .jpg |
| Naming.Pad2 | js/script.js:222 | Its properties are stated by Naming.Pad2RoundTrip: for 0..99 exactly two digits that read back as the number |
| Naming.ExtensionTableInverse | js/script.js:299-307 | The table maps its four MIME types to four distinct extensions, and every extension it yields maps back to a type with that extension |
| Naming.ImageFileName | js/script.js:242 | The name is "image", then the decimal of index+1, then the extension |
| Naming.ImageFileNamesDistinct | js/script.js:242 | Images at different indices get different file names, whatever their types |
| Naming.DownloadName | js/script.js:290 | The download name is the folder name followed by ".zip" |
| Naming.DateText | js/script.js:221 | `${day} ${mon} ${year}`; nothing beyond Export.SlugExample constrains it |
| Naming.TimeText | js/script.js:222 | `${HH}${MM}`; its properties are stated by Naming.TimeTextRoundTrip and Naming.SlugLayout: four digits that read back as the hour and the minute, ending the folder name |
| Naming.TimeTextRoundTrip | js/script.js:222 | For hours 0..23 and minutes 0..59 the time part is four digits that read back as the hour and the minute |
| Naming.Slug | js/script.js:221-223 | Its properties are stated by Naming.SlugLayout, Export.SaveStateNames and Export.SlugExample: `title-`, then the date, then the four-digit time |
| Naming.SlugLayout | js/script.js:223 | The folder name starts with the title and a dash and ends with the four-digit time part |
| Export.FetchAll | js/script.js:238-246 | One MIME type per image, index-aligned, exactly when every blob was fetched |
| Export.FileNames | js/script.js:238-246 | Name k is `image{k+1}` with the extension of blob k's type |
| Export.Payload | js/script.js:270-277 | Payload entry k points at `img/` plus file name k and keeps record k's orientation and size |
| Export.FileNamesDistinct | js/script.js:238-246 | The archive never stores two images under one name |
| Export.SaveState | js/script.js:215-297 | Within the model, whose only fetches are the image blobs, an export produces an archive exactly when every image's blob was fetched |
| Export.SaveStateNames | js/script.js:219-223 | A successful export's folder and download name are built from the trimmed title and the time |
| Export.SaveStateFiles | js/script.js:238-246 | Image k of a successful export is stored as `image{k+1}` with the extension of its own fetched type |
| Export.SaveStateNamesDistinct | js/script.js:238-246 | No two images of one export share a file name |
| Export.SaveStatePayload | js/script.js:270-279 | The payload lists every image in order, pointing at its archive file, with orientation and size carried over |
| Export.SlugExample | js/script.js:219-223 | "Trip" on 3 Jan 2024 at 09:05 gives the folder "Trip-3 Jan 2024-0905" |
| Export.DownloadNameExample | js/script.js:290 | The same export downloads as "Trip-3 Jan 2024-0905.zip" |
| GalleryManager.Gallery.constructor | js/script.js:2-13 | The collection starts as the embedded initial state if there is one, otherwise empty; the cursor is -1 and the overlay is closed |
| GalleryManager.Gallery.OpenModal | js/script.js:83-89 | Opens the overlay; the cursor is the first index with that locator, or -1; the collection is untouched |
| GalleryManager.Gallery.CloseModal | js/script.js:91-96 | Closes the overlay and sets the cursor to -1; the collection is untouched |
| GalleryManager.Gallery.NavigateToNextImage | js/script.js:108-113 | The cursor becomes the clamped next index; an in-range cursor stays in range |
| GalleryManager.Gallery.NavigateToPreviousImage | js/script.js:115-120 | The cursor becomes the clamped previous index; an in-range cursor stays in range |
| GalleryManager.Gallery.HandleModalNavigation | js/script.js:98-106 | ArrowRight and ArrowLeft step the cursor while the overlay is open; any other key or a closed overlay changes nothing |
| GalleryManager.Gallery.HandleImageUpload | js/script.js:152-178 | The collection becomes the old one followed by the sorted batch; labels stay consistent and the cursor stays in range |
| GalleryManager.Gallery.RunTransform | js/script.js:481-498 | The loop's final collection is the committed transform of the old one, and the locators handed to the host are exactly those up to the first failure |
| GalleryManager.Gallery.ConvertToWebp | js/script.js:375-400 | The collection becomes the all-or-nothing WebP conversion of the old one; its length never changes |
| GalleryManager.Gallery.ResizeAllImages | js/script.js:472-503 | The collection becomes the all-or-nothing resize of the old one; its length never changes |
| GalleryManager.Gallery.SaveState | js/script.js:215-297 | Produces the export of the current collection and title, whose download name is built from the trimmed title |
| GalleryManager.Gallery.ResetGallery | js/script.js:505-510 | Whatever the prior state, the collection is empty and the title is "Gallery Manager" |

## Left out

- DOM rendering (`updateGallery`, `createGalleryItem`), the IntersectionObserver reveal, event binding, the resize dropdown and the resize pulse class. These are user-interface wiring with no effect on the modelled state.
- Showing the image in the overlay, the body scroll lock and attaching or detaching the keydown listener. These are DOM effects of openModal and closeModal; only the overlay's open flag is kept.
- The theme (`loadTheme`, `toggleTheme`, localStorage) and the title rename through `prompt`. The title is just a field, set by the constructor and by reset.
- The progress bar and its percentages (`updateProgress`, setTimeout). This is floating-point display state only.
- FileReader, `Image` decoding, canvas drawing, `toBlob`, `URL.createObjectURL` and `fetch`. These are host facilities, modelled as functions that may fail and passed in as parameters.
- JSZip archive construction, the fetches of styles.css and script.js, and the text of the generated HTML page. Only the folder name, file names, payload records and download name are modelled.
- Concurrency: the `Promise.all` fan-out in upload and export, and the await ordering of the loops. Upload is a batch of per-file outcomes. Export is index-aligned. The transform loops are sequential.
- Floating-point arithmetic. Sizes and ratios are exact reals, so rounding in `w * (p / 100)` and in the ratio division is not modelled.
- The locale-dependent month abbreviation from `toLocaleString`. It is an opaque input string.
- An `initialState` whose records do not match the record shape. The embedded payload is taken as a sequence of records.
- Ordering.SortBatch: the model sorts by stable insertion. Matching the sort's exact tie order, including stability-dependent element order, is not proved, only sortedness and permutation.
- Ingest.BatchIsSortedPermutation: requires positive heights of the loaded images. The ratio form of the order divides by the height. A 0×0 image makes the browser's comparator inconsistent (0/0 is NaN and ties with everything), so the order of such a batch is implementation-defined. An image of zero height but positive width gives an infinite ratio, which the comparator still orders consistently, and which the cross-multiplied `Compare` matches; that case is not covered by these lemmas.
- Ingest.UploadOrder: requires positive heights for the same reason.
- GalleryManager.Gallery.HandleImageUpload: implements the corrected behaviour of the finding below. An undecodable file is dropped and the loaded ones are appended. Ingest.UploadAsWritten is the as-written stall, where nothing is appended.
- Export.SaveState: a rejected fetch of `css/styles.css` or `js/script.js` (js/script.js:230-236), or a rejected `zip.generateAsync` (js/script.js:287), also aborts the source's export. The model has neither fetch nor archive step, so its export succeeds whenever the image blobs are fetched.
- Naming.Extension: the source looks the type up in a plain object (js/script.js:300-306), so a key inherited from `Object.prototype` such as "constructor" or "toString" would yield a non-string instead of `.jpg`. `blob.type` is always a parsed `type/subtype` or the empty string, so such keys cannot occur, and the model gives `.jpg` for every string outside the table.
- Transforms.ResizeKeepsRecordOrientation: requires the drawn image's natural size to equal the record's stored size. After a resize that leaves a fractional size that condition fails: the record stores `img.width * (percentage / 100)` unrounded (js/script.js:449, :461), but `canvas.width = newWidth` (js/script.js:452) keeps only the integer part, and that canvas is the blob the next resize draws. Transforms.FractionalResizeThenIdentityFlips shows a record whose label then flips under a 100 percent resize. So a 100 percent resize keeps a record's label only for records whose stored size is their image's real size.
- GalleryManager.Gallery.NavigateToPreviousImage: `resetGallery` leaves the cursor and the overlay as they were (js/script.js:505-510), and so does `ResetGallery`, so after a reset with the overlay open `CursorInRange()` can fail. The next ArrowLeft then decrements the index and the source throws on `this.images[i].url` (js/script.js:117-118); the model keeps only the decrement.
- Transforms.Step: a WebP result that never loads stalls convertToWebp, and a null blob from `toBlob` stalls resizeImage, because neither promise settles. Both are modelled as a failed step. The collection is then unchanged, as in the source, but the model says the loop ended.
- GalleryManager.Gallery.ResizeAllImages: a percentage that `parseInt` turns into NaN is not modelled; the percentage is an integer.
- GalleryManager.Gallery.SaveState: the model returns the archive contents instead of starting a browser download; a failed export is `None`, where the source logs the error.

## Findings

| source | as written | input that shows it | evidently intended | confidence | as-written member | corrected member |
|---|---|---|---|---|---|---|
| js/script.js:141-165 | `getImageOrientation` has no `onerror`, so a file that reads but does not decode leaves its promise pending, and `Promise.all` never settles: nothing of the batch is appended | one loadable file together with one file that FileReader reads but `Image` cannot decode | the per-file `try`/`catch` drops a failing file and appends the rest | high, not executed | Ingest.UndecodableFileStallsUpload | Ingest.Ingest |
