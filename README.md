# Mirakle admin console: event-handler logic in Dafny

This project models the logic inside the event handlers of the Mirakle admin console, a
React application for managing a shop's products and banners. It covers:

- the product editor (`AdminProductUplode.jsx`): its variant list, the images already
  stored, the comma-separated keywords, the gate on the submit button, and the draft's
  reset/keep policy after a submission;
- the banner upload panel (`AdminBannerUpload.jsx`): the chunked read that feeds the file
  digest, the weight parsed from a variant size, the guards on an upload, the lists the
  panel shows, and its reset and edit-load rules;
- the product picker (`ProductPickerModal.jsx`): a capped selection toggled one product at
  a time;
- the all-banners page (`AllBannersDisplay.jsx`): one fetched list split into four;
- the four single-purpose banner forms: product type, category, offer and home.

Every request to the backend is a parameter of the handler that makes it. An `Outcome` is
`Succeeded`, or `Failed` with the backend's optional message. A fetch result is an
`Option`, where `None` is a failed request. Each handler returns the request it would send,
and its contract states the form state it leaves behind.

Modules:

- `Common`: `Option`/`Result` and the list operations `filter`, `some` and `find`.
- `Text`: the JavaScript string operations used: `toLowerCase` (ASCII letters),
  `includes`, `startsWith`, `trim`, `split` on one character, and `join`.
- `Catalog`: the backend records (product, variant, image, banner, file) and the product
  lookup and title search shared by several screens.
- `ProductUpload`, `BannerUpload`, `ProductPicker`, `BannersDisplay`,
  `ProductTypeBannerForm`, `CategoryBannerForm`, `OfferBannerForm`, `HomeBannerForm`: one
  per screen. Most screens are classes whose methods update their fields. The all-banners
  page only replaces its four lists on each fetch, so it is modelled by the function
  `AfterFetch` from the old lists to the new ones.

Two facts about the code that a reader might expect otherwise:

- `isUploadEnabled` asks only for at least one variant. It does not ask for a variant with
  a size and a price.
- Nothing in the code keeps category or offer banners unique.

## Model

| member | source | states |
|---|---|---|
| Catalog.BlankVariant | src/Pages/AdminProductUplode.jsx:18 | the variant the editor starts from and appends has empty size, colour and SKU, and zero price, discount and stock |
| Catalog.MessageOr | src/Pages/AdminProductUplode.jsx:180 | the error shown is the backend's message when it sent a non-empty one, otherwise the screen's fixed text, and it is never empty when that text is not |
| Catalog.FirstFile | Banners/HomeBanner.jsx:9 | `files[0]` is absent exactly when no file was chosen, and is the first file otherwise |
| Catalog.FindById | src/Pages/AdminBannerUpload.jsx:91-93 | the lookup finds the first product of the list with the given id, and finds nothing exactly when no product has that id |
| Catalog.SearchByTitle | src/Pages/AdminBannerUpload.jsx:101-103 | a product is listed exactly when it is in the list and its lower-cased title contains the lower-cased search term |
| Catalog.SearchWithEmptyTermKeepsAll | src/Pages/AdminBannerUpload.jsx:101-103 | an empty search term lists every product, in order |
| Catalog.SearchByTitleConcat | src/Pages/AdminBannerUpload.jsx:101-103 | the search keeps list order: searching a concatenation is the concatenation of the searches |
| Common.Filter | src/Pages/AdminProductUplode.jsx:110 | `filter` keeps exactly the elements that pass the test, and is never longer than its input |
| Common.FilterConcat | src/Pages/AdminProductUplode.jsx:110 | `filter` keeps the input order: filtering a concatenation concatenates the filtered parts |
| Common.FilterKeepsAll | src/Pages/AdminProductUplode.jsx:133 | a filter that every element passes returns its input unchanged |
| Common.FilterAgrees | src/Pages/AdminBannerUpload.jsx:211 | two tests that agree on every element of the list give the same filtered list |
| Common.Any | src/Pages/ProductPickerModal.jsx:32 | `some` holds exactly when some element passes the test |
| Common.FindFirst | src/Pages/ProductPickerModal.jsx:23 | `find` finds nothing exactly when no element passes, and otherwise finds the first element that passes |
| Text.ToLower | src/Pages/AdminBannerUpload.jsx:102 | lower-casing keeps the length and maps each character through the ASCII case mapping |
| Text.Contains | src/Pages/AdminBannerUpload.jsx:102 | `includes` never holds for a longer string, and holds for every prefix of the string |
| Text.ContainsInfix | src/Pages/AdminBannerUpload.jsx:102 | `includes` holds for a part found at any position, not only at the start |
| Text.ContainsSplits | src/Pages/AdminBannerUpload.jsx:102 | when `includes` holds, the string is some text, then the part, then some more text; with ContainsInfix this characterises `includes` both ways |
| Text.StartsWith | src/Pages/AdminBannerUpload.jsx:73 | `startsWith` holds exactly when the prefix fits and agrees with the string character by character |
| Text.ContainsEmpty | src/Pages/AdminBannerUpload.jsx:102 | every string includes the empty string |
| Text.Trim | src/Pages/AdminProductUplode.jsx:132 | a trimmed string has no white space at either end |
| Text.TrimIsSlice | src/Pages/AdminProductUplode.jsx:132 | a trimmed string is a contiguous part of the original, and everything cut off before and after it is white space |
| Text.TrimKeepsAbsent | src/Pages/AdminProductUplode.jsx:132 | trimming never adds a character, so a comma-free piece stays comma-free |
| Text.TrimmedIsFixed | src/Pages/AdminProductUplode.jsx:132 | a string with no white space at its ends is its own trim |
| Text.TrimIdempotent | src/Pages/AdminProductUplode.jsx:132 | trimming twice is trimming once |
| Text.TrimSkipsLeadingSpace | src/Pages/AdminProductUplode.jsx:132 | leading white space does not change the trim |
| Text.TrimSkipsTrailingSpace | src/Pages/AdminProductUplode.jsx:132 | trailing white space does not change the trim |
| Text.Split | src/Pages/AdminProductUplode.jsx:131 | `split(",")` gives at least one piece, and no piece contains the separator |
| Text.Join | src/Pages/AdminProductUplode.jsx:53 | `join` of no pieces is "", of one piece is that piece, and always begins with the first piece; SplitThenJoin is its inverse |
| Text.SplitThenJoin | src/Pages/AdminProductUplode.jsx:131 | joining the pieces of a split with the separator gives back the string |
| Text.SplitPrefix | src/Pages/AdminProductUplode.jsx:131 | a separator-free part followed by the separator splits off as exactly one piece |
| Text.SplitNoSeparator | src/Pages/AdminProductUplode.jsx:131 | a separator-free string splits into itself |
| ProductUpload.Apply | src/Pages/AdminProductUplode.jsx:87 | setting one field of a variant changes that field to the new value and every other field reads as before |
| ProductUpload.UpdateVariant | src/Pages/AdminProductUplode.jsx:84-91 | editing variant `i` keeps the list length, and only field `f` of variant `i` changes |
| ProductUpload.ProductForm.HandleVariantChange | src/Pages/AdminProductUplode.jsx:84-91 | the draft's variants become the edited list; every other draft field, loading, error and success are unchanged |
| ProductUpload.ProductForm.AddVariant | src/Pages/AdminProductUplode.jsx:93-95 | exactly one blank variant is appended at the end, and the existing variants stay in order |
| ProductUpload.RemoveAt | src/Pages/AdminProductUplode.jsx:97-103 | `filter((_, i) => i !== index)` is the list without the element at `index`, and is the whole list when `index` is out of range |
| ProductUpload.ProductForm.RemoveVariant | src/Pages/AdminProductUplode.jsx:97-103 | with more than one variant (the only case with a remove button, line 310), exactly variant `index` goes; the list shrinks by one and never becomes empty |
| ProductUpload.KeptImages | src/Pages/AdminProductUplode.jsx:59-71 | the images kept when loading all have a url and a public_id, and there are at most one more than the other images |
| ProductUpload.KeptImagesMembers | src/Pages/AdminProductUplode.jsx:59-71 | an image is kept when loading exactly when it is the thumbnail or one of the others and has both a url and a public_id |
| ProductUpload.CollectExistingImages | src/Pages/AdminProductUplode.jsx:59-71 | the push loop yields the complete thumbnail followed by the complete other images, in order |
| ProductUpload.ProductForm.FetchProduct | src/Pages/AdminProductUplode.jsx:36-81 | a loaded product fills every draft field, missing category/sub-category/brand become empty, no variants becomes one blank variant, the kept images become the existing images and the keywords are shown joined by ", "; a failed load keeps the draft and shows "Failed to fetch product data."; loading ends either way |
| ProductUpload.WithoutPublicId | src/Pages/AdminProductUplode.jsx:109-111 | an image survives removal exactly when its public_id differs from the removed one |
| ProductUpload.ProductForm.RemoveExistingImage | src/Pages/AdminProductUplode.jsx:109-111 | the existing images lose every image with that public_id; nothing else changes |
| ProductUpload.PublicIds | src/Pages/AdminProductUplode.jsx:147 | the submitted ids are the kept images' public_ids, one per image, in order |
| ProductUpload.RemovedImageIsNotSubmitted | src/Pages/AdminProductUplode.jsx:147-148 | after a removal, the submitted ids are the previous ids with the removed one filtered out, in order, so the removed id is never submitted |
| ProductUpload.TrimAll | src/Pages/AdminProductUplode.jsx:132 | `map(k => k.trim())` keeps the number of pieces |
| ProductUpload.TrimAllAt | src/Pages/AdminProductUplode.jsx:132 | piece `i` of the mapped list is the trim of piece `i` |
| ProductUpload.ParseKeywords | src/Pages/AdminProductUplode.jsx:130-133 | every parsed keyword is non-empty, comma-free and has no white space at its ends |
| ProductUpload.PiecesParseToKeywords | src/Pages/AdminProductUplode.jsx:130-133 | trimming comma-free pieces and dropping the empty ones leaves only keywords |
| ProductUpload.ParseSkipsLeadingSpace | src/Pages/AdminProductUplode.jsx:130-133 | a space right after a comma does not change the trimmed pieces |
| ProductUpload.ShowKeywords | src/Pages/AdminProductUplode.jsx:53 | the keywords text of a loaded product is empty for no keywords, the keyword itself for one, and begins with the first keyword otherwise |
| ProductUpload.KeywordsRoundTrip | src/Pages/AdminProductUplode.jsx:53 | parsing the ", "-join of a product's keywords gives back exactly those keywords, when each is non-empty, comma-free and trimmed |
| ProductUpload.EmptyDraft | src/Pages/AdminProductUplode.jsx:12-25 | the form starts, and is reset after an add, with every text empty, one blank variant, no images and every flag off |
| ProductUpload.Payload | src/Pages/AdminProductUplode.jsx:119-148 | the form data sends only parsed keywords, one public_id per kept image in order, the new image files and the variants |
| ProductUpload.UploadEnabled | src/Pages/AdminProductUplode.jsx:30-32 | the gate that the submit button waits for (HandleSubmit requires it): a product with a title, description, type, some variant and some new image; with no new image it is never open, and OpenGateSendsCompletePayload and StoredImagesDoNotOpenGate state what it guarantees about what is sent |
| ProductUpload.OpenGateSendsCompletePayload | src/Pages/AdminProductUplode.jsx:30-32 | the form data of a draft that passes the gate has a title, a description, a product type, some variant and some new image |
| ProductUpload.StoredImagesDoNotOpenGate | src/Pages/AdminProductUplode.jsx:30-32 | changing the images already stored never opens or closes the gate |
| ProductUpload.ProductForm.constructor | src/Pages/AdminProductUplode.jsx:12-28 | the form starts with the empty draft (one blank variant), not loading, and with no error or success message |
| ProductUpload.ProductForm.HandleImageChange | src/Pages/AdminProductUplode.jsx:105-107 | the chosen files replace the new images; nothing else changes |
| ProductUpload.ProductForm.SubmitButtonEnabled | src/Pages/AdminProductUplode.jsx:410-412 | the submit button is disabled while saving, and enabled only with a title and a new image |
| ProductUpload.ProductForm.HandleSubmit | src/Pages/AdminProductUplode.jsx:113-184 | it runs only from the enabled submit button (lines 410-412: not loading and the gate open), so the sent product always has a title, a description, a type, some variant and some new image; the request is an edit of the route's id when editing and an add otherwise, carrying the draft with parsed keywords and the kept ids; a successful add resets every draft field and disables the button again, a successful edit keeps the draft, and both show their message; a failure keeps the draft and shows the backend's message or "Failed to save product."; loading always ends |
| ProductUpload.ResetDraftDisablesUpload | src/Pages/AdminProductUplode.jsx:162-175 | after the reset that follows a successful add, upload is disabled until the form is refilled |
| BannerUpload.Chunks | src/Pages/AdminBannerUpload.jsx:18-44 | the reader always makes at least one read |
| BannerUpload.Slice | src/Pages/AdminBannerUpload.jsx:38 | `file.slice(start, end)` has the length of the part of `[start, end)` inside the file, and when `start` is inside the file it is the bytes from `start` on, cut to that length |
| BannerUpload.ReadChunks | src/Pages/AdminBannerUpload.jsx:18-44 | the cursor loop reads exactly the slices of `Chunks`: read at the cursor, step by 2 MiB, and read again while the cursor is inside the file |
| BannerUpload.ChunksCoverContent | src/Pages/AdminBannerUpload.jsx:18-44 | the slices read cover every byte exactly once, in order |
| BannerUpload.ChunksCount | src/Pages/AdminBannerUpload.jsx:18-44 | the number of reads is max(1, ceil(size / 2097152)) |
| BannerUpload.ChunkAt | src/Pages/AdminBannerUpload.jsx:37-40 | read `i` is the slice `[i * 2097152, min((i + 1) * 2097152, size))` |
| BannerUpload.ValuePrefixLength | src/Pages/AdminBannerUpload.jsx:143 | the greedy `[\d.]+` run ends at the first character that is not a digit or a dot |
| BannerUpload.ParseSize | src/Pages/AdminBannerUpload.jsx:143-147 | a weight is produced exactly when the size matches `^([\d.]+)([a-zA-Z]+)$`; then value followed by unit is the size, the value is non-empty digits and dots, and the unit is non-empty letters |
| BannerUpload.WeightSplitIsUnique | src/Pages/AdminBannerUpload.jsx:143 | a matching size can be split into value and unit in only one place |
| BannerUpload.ParseSizeRoundTrip | src/Pages/AdminBannerUpload.jsx:143-147 | a value of digits and dots followed by a unit of letters parses back into exactly that value and unit |
| BannerUpload.VariantAt | src/Pages/AdminBannerUpload.jsx:95-98 | `product?.variants?.[index]` exists exactly when there is a product and the index is within its variants |
| BannerUpload.PlanUpload | src/Pages/AdminBannerUpload.jsx:105-158 | type "all" is refused; product banners are refused without a product id, or when `getSelectedProduct()` or `getSelectedVariant()` finds nothing, and otherwise send the product's id, title, price, discount, first other image and the weight parsed from the size, with an old price exactly when the discount is positive; every other type is refused without an image and sends the image otherwise |
| BannerUpload.VisibleBanners | src/Pages/AdminBannerUpload.jsx:348-349 | "all" shows every banner in order; any other type shows exactly the banners of that type |
| BannerUpload.UploadedProducts | src/Pages/AdminBannerUpload.jsx:208-212 | a product is listed exactly when it is in the product list and some product-type or side banner points to it |
| BannerUpload.UploadedProductsConcat | src/Pages/AdminBannerUpload.jsx:211 | the uploaded products keep the product list's order |
| BannerUpload.OtherBannersDoNotCount | src/Pages/AdminBannerUpload.jsx:209 | a banner of another type never makes a product "uploaded" |
| BannerUpload.BannerPanel.constructor | src/Pages/AdminBannerUpload.jsx:9-16 | the panel starts with type "slider", no image, no selection, variant 0, nothing being edited, and empty lists |
| BannerUpload.BannerPanel.FetchBanners | src/Pages/AdminBannerUpload.jsx:46-53 | a fetched list replaces the banners; a failed fetch keeps them; nothing else changes |
| BannerUpload.BannerPanel.FetchProducts | src/Pages/AdminBannerUpload.jsx:55-62 | a fetched list replaces the products; a failed fetch keeps them; nothing else changes |
| BannerUpload.BannerPanel.HandleImageChange | src/Pages/AdminBannerUpload.jsx:69-79 | the first chosen file becomes the image when its type starts with "image/"; no file, or another type, keeps the image |
| BannerUpload.BannerPanel.ResetForm | src/Pages/AdminBannerUpload.jsx:81-89 | the image, product id, search term and banner being edited are cleared and the variant index becomes 0; the type and the lists stay |
| BannerUpload.BannerPanel.SelectProduct | src/Pages/AdminBannerUpload.jsx:251-254 | choosing a product also resets the variant index to 0 |
| BannerUpload.BannerPanel.SelectVariant | src/Pages/AdminBannerUpload.jsx:272 | choosing a variant sets the index and nothing else |
| BannerUpload.BannerPanel.SelectType | src/Pages/AdminBannerUpload.jsx:220-225 | the type can be chosen only when no banner is being edited, and choosing it changes nothing else |
| BannerUpload.BannerPanel.HandleEdit | src/Pages/AdminBannerUpload.jsx:181-190 | editing loads the banner's type, product id (or "") and variant index (or 0), and drops the chosen image |
| BannerUpload.BannerPanel.SelectedProduct | src/Pages/AdminBannerUpload.jsx:91-93 | the selected product is the first of the list with the selected id, and there is none exactly when no product has it |
| BannerUpload.BannerPanel.SelectedVariant | src/Pages/AdminBannerUpload.jsx:95-98 | there is a selected variant exactly when there is a selected product and the index is within its variants, and it is the variant at that index |
| BannerUpload.BannerPanel.FilteredProducts | src/Pages/AdminBannerUpload.jsx:101-103 | the product list shows exactly the products whose title contains the search term, ignoring case |
| BannerUpload.BannerPanel.HandleUpload | src/Pages/AdminBannerUpload.jsx:105-179 | a refused upload sends nothing and changes nothing; otherwise the request is a PUT to the edited banner exactly when one is being edited, carries the current type and the fields planned from the selected product and variant (the same lookups the panel shows), and for image banners reads the image in chunks; success refetches the banners and resets the form; failure changes nothing |
| ProductPicker.IsSelected | src/Pages/ProductPickerModal.jsx:32 | `isSelected(id)` holds exactly when some selected entry has that id |
| ProductPicker.Toggled | src/Pages/ProductPickerModal.jsx:22-30 | the new selection holds only products already selected and the toggled product, and is at most one longer |
| ProductPicker.ToggleSelects | src/Pages/ProductPickerModal.jsx:22-30 | after a toggle the product is selected exactly when it was not before and there was room; whether any other id is selected does not change |
| ProductPicker.ToggleRemoves | src/Pages/ProductPickerModal.jsx:23-25 | toggling a selected product removes every entry with its id, keeps the rest, and shortens the selection |
| ProductPicker.ToggleAppends | src/Pages/ProductPickerModal.jsx:26-28 | toggling an unselected product when there is room appends it at the end |
| ProductPicker.ToggleFullIsUnchanged | src/Pages/ProductPickerModal.jsx:27 | toggling an unselected product when the selection is full leaves it unchanged |
| ProductPicker.ToggleKeepsCap | src/Pages/ProductPickerModal.jsx:27 | a selection within the cap stays within it |
| ProductPicker.ToggleKeepsIdsUnique | src/Pages/ProductPickerModal.jsx:22-30 | a toggle never brings in a second entry with the same id |
| ProductPicker.FilterKeepsUniqueIds | src/Pages/ProductPickerModal.jsx:25 | removing entries keeps the ids unique |
| ProductPicker.ToggleTwiceRestores | src/Pages/ProductPickerModal.jsx:22-30 | toggling the same unselected product twice, with room for it, gives back the original selection |
| ProductPicker.Picker.constructor | src/Pages/ProductPickerModal.jsx:5-7 | the picker edits the caller's selection with the caller's cap (6 by default), an empty product list and an empty search |
| ProductPicker.Picker.FetchProducts | src/Pages/ProductPickerModal.jsx:13-20 | a fetched list replaces the products; a failed fetch keeps them |
| ProductPicker.Picker.Toggle | src/Pages/ProductPickerModal.jsx:22-30 | the selection becomes the toggled selection; the cap alert is raised exactly when an unselected product meets a full selection; within-cap and unique ids are preserved |
| ProductPicker.Picker.Grid | src/Pages/ProductPickerModal.jsx:48-49 | the grid shows exactly the products whose title contains the search term, ignoring case |
| BannersDisplay.OfKind | src/Pages/AllBannersDisplay.jsx:19 | a banner is kept exactly when it is in the list and has that type |
| BannersDisplay.NoBanners | src/Pages/AllBannersDisplay.jsx:5-8 | the page starts with four empty lists |
| BannersDisplay.Partition | src/Pages/AllBannersDisplay.jsx:19-22 | the four lists hold exactly the "homebanner", "offer", "category" and "product-type" banners |
| BannersDisplay.AfterFetch | src/Pages/AllBannersDisplay.jsx:14-26 | a fetched list replaces all four lists with its partition; a failed fetch leaves them unchanged |
| BannersDisplay.PartitionIsDisjoint | src/Pages/AllBannersDisplay.jsx:19-22 | a banner is in exactly one list when it has one of the four types and in none otherwise |
| BannersDisplay.PartitionFitsInput | src/Pages/AllBannersDisplay.jsx:19-22 | together the four lists are no longer than the fetched list |
| BannersDisplay.PartitionConcat | src/Pages/AllBannersDisplay.jsx:19-22 | each list keeps the fetched order |
| BannersDisplay.Section | src/Pages/AllBannersDisplay.jsx:28-39 | a section shows "No <lower-cased title> found." exactly when its list is empty, and the banners otherwise |
| ProductTypeBannerForm.EmptyFields | src/Banners/ProductTypeBanner.jsx:6-11 | every text field starts empty |
| ProductTypeBannerForm.Validate | src/Banners/ProductTypeBanner.jsx:26-29 | a request is sent exactly when the image, product title, price, product type and size are all given, and it carries the fields and the image |
| ProductTypeBannerForm.OptionalFieldsDoNotMatter | src/Banners/ProductTypeBanner.jsx:26 | old price and discount never decide whether the form may be sent |
| ProductTypeBannerForm.ProductTypeBanner.constructor | src/Banners/ProductTypeBanner.jsx:6-14 | the form starts empty, with no image and not uploading |
| ProductTypeBannerForm.ProductTypeBanner.SubmitEnabled | src/Banners/ProductTypeBanner.jsx:125 | the submit button is disabled exactly while a request is outstanding |
| ProductTypeBannerForm.ProductTypeBanner.HandleImageChange | src/Banners/ProductTypeBanner.jsx:16-22 | a chosen file becomes the image and its preview; an empty choice keeps both |
| ProductTypeBannerForm.ProductTypeBanner.BeginSubmit | src/Banners/ProductTypeBanner.jsx:24-46 | with the button enabled, an incomplete form sends nothing and changes nothing; a complete one sends its fields and sets uploading |
| ProductTypeBannerForm.ProductTypeBanner.FinishSubmit | src/Banners/ProductTypeBanner.jsx:48-63 | success clears every field, the image and the preview; failure keeps them; uploading ends either way |
| ProductTypeBannerForm.ClearedFormIsIncomplete | src/Banners/ProductTypeBanner.jsx:50-57 | the cleared form cannot be sent again as it is |
| CategoryBannerForm.Validate | Banners/CategoryBanner.jsx:11-17 | a request is sent exactly when title, image and category type are all given; its type is always "category" and its category type is the selected one |
| CategoryBannerForm.CategoryOptions | Banners/CategoryBanner.jsx:45-48 | the choices are an empty placeholder followed by the available product types, in order |
| CategoryBannerForm.PlaceholderIsNoCategory | Banners/CategoryBanner.jsx:45 | choosing the placeholder leaves the form unsendable |
| CategoryBannerForm.SentTypeIsCategorySection | Banners/CategoryBanner.jsx:14 | a stored category banner is listed in the category section of the all-banners page and in no other |
| CategoryBannerForm.CategoryBanner.constructor | Banners/CategoryBanner.jsx:6-8 | title, image and category type start empty |
| CategoryBannerForm.CategoryBanner.HandleImageChange | Banners/CategoryBanner.jsx:50 | the first chosen file, or none, becomes the image |
| CategoryBannerForm.CategoryBanner.HandleSubmit | Banners/CategoryBanner.jsx:10-29 | the request is the validated one; on success the banners are refetched and title, image and category type are cleared; on failure or refusal nothing is cleared or refetched |
| OfferBannerForm.Validate | Banners/OfferBanner.jsx:10-14 | a request is sent exactly when image and title are both given, and its type is always "offer" |
| OfferBannerForm.SentTypeIsOfferSection | Banners/OfferBanner.jsx:12 | a stored offer banner is listed in the offer section and in no other |
| OfferBannerForm.OfferBanner.constructor | Banners/OfferBanner.jsx:6-7 | image and title start empty |
| OfferBannerForm.OfferBanner.HandleImageChange | Banners/OfferBanner.jsx:36 | the first chosen file, or none, becomes the image |
| OfferBannerForm.OfferBanner.HandleSubmit | Banners/OfferBanner.jsx:9-25 | on success the banners are refetched and title and image are cleared; on failure or refusal both are kept and nothing is refetched |
| HomeBannerForm.Validate | Banners/HomeBanner.jsx:13-16 | a request is sent exactly when there is an image, and its type is always "homebanner" |
| HomeBannerForm.SentTypeIsHomeSection | Banners/HomeBanner.jsx:15 | a stored home banner is listed in the home section of the all-banners page and in no other |
| HomeBannerForm.HomeBanner.constructor | Banners/HomeBanner.jsx:6 | the image starts empty |
| HomeBannerForm.HomeBanner.HandleImageChange | Banners/HomeBanner.jsx:8-10 | the first chosen file becomes the image, and an empty choice clears it |
| HomeBannerForm.HomeBanner.HandleSubmit | Banners/HomeBanner.jsx:12-26 | on success the banners are refetched and the image is cleared; on failure or refusal the image is kept and nothing is refetched |

## Left out

- HTTP requests, endpoints, headers and multipart packaging. Each request is an `Outcome`
  or `Option` parameter, and the model returns what would be sent.
- The MD5 digest (SparkMD5) and FileReader. Only the slices read are modelled, so the
  digest itself and a read error are not.
- Floating point:
  - prices and discounts are exact reals;
  - the `oldPrice` value (`price / (1 - discount / 100)`, `toFixed`) is left out, and
    only whether it is attached is modelled;
  - `parseFloat`/`parseInt` on inputs, NaN, and `discountPercent || 0` for NaN are not
    modelled.
- BannerUpload.PlanUpload: `productImage` is the first other image as a record. The
  source appends that object to form data, which turns it into text; that conversion is
  not modelled.
- Text.ToLower: only ASCII letters are case-mapped. JavaScript maps all of Unicode.
- ProductUpload.ProductForm.HandleVariantChange: the source writes the field into the
  variant object shared with the previous list. The model builds a new variant value, so
  that aliasing is not captured.
- ProductTypeBannerForm.ProductTypeBanner.BeginSubmit: the source's `handleSubmit` is
  split here into the part before the request and the part after it (`FinishSubmit`).
- `handleDelete` on the banner panel, and the alerts, `navigate`, `scrollTo`,
  object-URL previews, clearing of the DOM file input and `console` logging. These are
  not logic, or they leave the form state alone.
- Plain input setters (title, description, search term, check boxes) other than those
  with a rule of their own.
- Rendering: the JSX markup, including the banner card details and price formatting.
- Login, the authentication guard, routing, the app shell, the Cloudinary upload helper,
  the user-messages page and the admin home page. These are outside the event-handler
  core.
- ProductUpload.ProductForm.FetchProduct: the fetched product is taken to be a complete
  record. When it lacks `variants`, `keywords` or `images`, the source throws partway
  through, and the catch then shows "Failed to fetch product data.". What is already set
  depends on the missing field:
  - without `variants`, it throws at line 49, after title, description, product type,
    category, sub-category and brand;
  - without `keywords`, it throws at line 53, after those six fields and the variants;
  - without `images`, it throws at line 61, after those, the keywords text and the four
    flags (featured, new arrival, best seller, out of stock).
  These partial updates are not modelled.
- BannerUpload.BannerPanel.HandleUpload: the selected variant is taken to have a price and
  a size. When either is missing, the source throws before its `try` (lines 133 and 143),
  so nothing is sent and no state changes. The model's variants always carry both, so that
  uncaught throw does not arise in it.
- Ordering between a refetch that is not awaited and the reset after it. The two touch
  disjoint state, so each is modelled as finished when the handler returns.
