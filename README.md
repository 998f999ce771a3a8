# OdyCard owner app: a verified model of its client-side logic

OdyCard's owner app is a Next.js client. Restaurant owners use it to sign up, log in, and manage their menu and images. This project models the logic inside that client in Dafny and proves what each piece promises:

- **Onboarding details form** (`slugify`, the checks in `handleNext`, lookup of the restaurant id, the progress figure).
- **Login, start and OTP screens** (e-mail suffix and password length, the ten-digit mobile filter, four one-digit boxes with focus movement, the verify gate, the 30-second resend countdown).
- **Loader overlay.** It stays visible for at least one second.
- **Dish card.** It builds the YouTube embed URL, decides whether to show the video, and reads the favourite and eat-later counts.
- **Progress bar clamp.**
- **Three image pages** (logo editor, cover editor, onboarding logo step). Each keeps a draft image and reads and writes `localStorage`.

Modules follow the source files:

| module | file | source |
|---|---|---|
| `Wrappers` | wrappers.dfy | `Option`, `Result` |
| `JsStrings` | js_strings.dfy | the JavaScript string built-ins the pages call (`trim`, `endsWith`, `startsWith`, `toLowerCase`, `length`, `toString`, `padStart`) |
| `Browser` | browser.dfy | `localStorage` as a class over `map<string, string>`, truthiness of `string \| null`, the upload guard |
| `Slug` | slug.dfy | `slugify` of app/owner/details/page.tsx |
| `OwnerDetails` | owner_details.dfy | app/owner/details/page.tsx |
| `OwnerLogin` | owner_login.dfy | app/owner/login/page.tsx |
| `OwnerStart` | owner_start.dfy | app/owner/start/page.tsx |
| `OwnerOtp` | owner_otp.dfy | app/owner/otp/page.tsx |
| `LoaderContext` | loader_context.dfy | context/LoaderContext.tsx |
| `ProgressBar` | progress_bar.dfy | components/ProgressBar.jsx |
| `DishBlock` | dish_block.dfy | components/dish/EditMenuDishBlock.tsx |
| `EditLogo` | edit_logo.dfy | app/owner/edit-logo/page.tsx |
| `EditCover` | edit_cover.dfy | app/owner/edit-cover/page.tsx |
| `DetailsLogo` | details_logo.dfy | app/owner/details2/page.tsx |

Pages whose handlers change state become classes, except the login page, whose handlers are functions from one `LoginPage` record to the next. The fields of each class are the page's `useState` values, and each handler is a method with `modifies` and a full postcondition. Pure computations are functions:
- `slugify`;
- the login checks;
- the embed URL;
- the clamp;
- the count lookup.

Outside inputs are parameters:
- the clock (`Date.now()`);
- the outcome of `fetch`;
- the canvas crop, as a function `(string, CropArea) -> Option<string>`;
- `JSON.parse`, as a function `string -> Option<map<string, int>>`;
- the selected files.

## Model

| member | source | states |
|---|---|---|
| JsStrings.TrimStart | app/owner/details/page.tsx:13 | the result is a suffix of the input that does not start with white space, and everything removed before it is white space |
| JsStrings.TrimEnd | app/owner/details/page.tsx:13 | the result is a prefix of the input that does not end with white space, and everything removed after it is white space |
| JsStrings.Trim | app/owner/details/page.tsx:13 | `trim` never lengthens a string, and neither end of its result is white space |
| JsStrings.TrimBlank | app/owner/details/page.tsx:48 | `trim` gives "" exactly for a string made only of white space, which is what "blank" means for the progress and the checks |
| JsStrings.TrimIdentity | app/owner/details/page.tsx:13 | a string whose ends are not white space is left unchanged by `trim` |
| JsStrings.LowerChar | app/owner/details/page.tsx:12 | an upper-case ASCII letter moves 32 code points up to its lower-case form; every other character is kept; the result is never upper-case ASCII |
| JsStrings.ToLower | app/owner/details/page.tsx:12 | same length, lower-cased position by position |
| JsStrings.Utf16Length | app/owner/login/page.tsx:21 | `length` counts UTF-16 code units: between one and two per character, and exactly the character count when no code point is above U+FFFF |
| JsStrings.Utf16LengthChar | app/owner/login/page.tsx:21 | one character counts two code units above U+FFFF and one otherwise; with Utf16LengthAppend this fixes the length of every string |
| JsStrings.Utf16LengthAppend | app/owner/login/page.tsx:21 | the length of a concatenation is the sum of the lengths |
| JsStrings.StartsWith | app/owner/edit-logo/page.tsx:73 | a string that starts with a prefix is that prefix followed by the rest |
| JsStrings.EndsWith | app/owner/login/page.tsx:16 | a string that ends with a suffix is the rest followed by that suffix |
| JsStrings.AffixConcat | app/owner/login/page.tsx:16 | conversely, `head + tail` ends with `tail` and starts with `head`, so both predicates mean exactly "is a prefix/suffix" |
| JsStrings.ToLowerAppend | app/owner/details/page.tsx:12 | lower-casing distributes over concatenation |
| JsStrings.NatToString | app/owner/details/page.tsx:15 | the decimal form is non-empty and all digits, with no leading zero for a positive number; one digit below 10, two below 100 |
| JsStrings.DecimalRoundTrip | app/owner/otp/page.tsx:129 | reading the decimal form back yields the number |
| JsStrings.LeadingZero | app/owner/otp/page.tsx:129 | a '0' put in front does not change the value denoted |
| JsStrings.PadStart | app/owner/otp/page.tsx:129 | the result has length max(width, \|s\|), ends with `s`, and is fill characters before it |
| Slug.CollapseRuns | app/owner/details/page.tsx:14 | output over [a-z0-9-] with no two '-' in a row; empty exactly when the input is; a leading '-' only when the input starts outside [a-z0-9] |
| Slug.DropRunAll | app/owner/details/page.tsx:14 | a run of the pattern `[^a-z0-9]+` swallows the whole string exactly when no character of it is in [a-z0-9] |
| Slug.DropRunAppend | app/owner/details/page.tsx:14 | a run that starts a concatenation stops inside the first part if that part has a character of [a-z0-9], and runs on into the second otherwise |
| Slug.CollapseRunsRun | app/owner/details/page.tsx:14 | a non-empty run of characters outside [a-z0-9] becomes exactly one '-' |
| Slug.CollapseWord | app/owner/details/page.tsx:14 | a string of [a-z0-9] alone is left as it is |
| Slug.CollapseRunsAppend | app/owner/details/page.tsx:14 | the replacement works piece by piece wherever the cut does not fall inside a run (at an end, after a character of [a-z0-9], or before one) |
| Slug.CollapseJoinsWords | app/owner/details/page.tsx:14 | a word, a gap of characters outside [a-z0-9] and a word become the two words joined by one '-' |
| Slug.StripHyphens | app/owner/details/page.tsx:15 | only a '-' at the start and a '-' at the end may be removed, one each, and what lies between is kept; a string with no '-' at either end is unchanged |
| Slug.Cleaned | app/owner/details/page.tsx:11-15 | the string before the fallback is empty or a valid slug |
| Slug.StripHyphensOfCollapsed | app/owner/details/page.tsx:15 | stripping one '-' at each end of a collapsed string leaves nothing or a string that neither starts nor ends with '-' |
| Slug.FallbackIsSlug | app/owner/details/page.tsx:15 | "id-" followed by the clock's digits is a valid slug |
| Slug.Slugify | app/owner/details/page.tsx:10-16 | the output is non-empty, over [a-z0-9-], has no "--", and does not start or end with '-' |
| Slug.SlugifyKeepsAlphanumerics | app/owner/details/page.tsx:11-15 | the cleaned string is empty exactly when the lower-cased input has no [a-z0-9] character; otherwise the slug is that string and keeps exactly those characters, in order; when it is empty, the result is the "id-" fallback |
| Slug.LowerSlugChar | app/owner/details/page.tsx:12-14 | after lower-casing, exactly the ASCII letters and digits fall in [a-z0-9] |
| Slug.CollapseFixesSlugAlphabet | app/owner/details/page.tsx:14 | the run replacement leaves alone a string over [a-z0-9-] that has no "--" and no trailing '-' |
| Slug.SlugifyFixesSlugs | app/owner/details/page.tsx:10-16 | a slug is returned unchanged, whatever the clock reads |
| Slug.SlugifyJoinsWords | app/owner/details/page.tsx:10-16 | two lower-case words separated by any gap without letters or digits slugify to the words joined by a single '-' |
| Slug.SlugifyIdempotent | app/owner/details/page.tsx:10-16 | slugifying twice is slugifying once, the fallback form included |
| Browser.Storage.GetItem | app/owner/edit-logo/page.tsx:51 | `getItem` gives the stored value for a present key and null for a missing one |
| Browser.Storage.SetItem | app/owner/details/page.tsx:107-109 | `setItem` sets that key to the value and leaves every other key as it was |
| Browser.Storage.RemoveItem | app/owner/edit-cover/page.tsx:92-93 | `removeItem` removes that key and leaves every other key as it was |
| Browser.PickImage | app/owner/edit-logo/page.tsx:71-75 | an upload yields a URL exactly when a first file exists and its type starts with "image/", and the URL is that file's |
| OwnerDetails.Values | app/owner/details/page.tsx:45 | a form has eight values |
| OwnerDetails.FilledCountAll | app/owner/details/page.tsx:47-49 | the filled count is at most eight, and is eight exactly when no value is blank after trimming |
| OwnerDetails.ProgressRange | app/owner/details/page.tsx:45-51 | the progress lies in [0, 50] and equals 50 exactly when all eight fields are non-blank |
| OwnerDetails.FilledCount | app/owner/details/page.tsx:47-49 | the number of non-blank values is at most the number of values |
| OwnerDetails.CountFilledOne | app/owner/details/page.tsx:47-49 | one flag counts one exactly when its value is filled in |
| OwnerDetails.CountFilledAppend | app/owner/details/page.tsx:47-49 | the count of filled flags of a concatenation is the sum of the two counts |
| OwnerDetails.FilledCountOne | app/owner/details/page.tsx:47-49 | one value counts one exactly when it is not blank after trimming |
| OwnerDetails.FilledCountAppend | app/owner/details/page.tsx:47-49 | the filled count of a concatenation is the sum of the two counts; with FilledCountOne it fixes the count, and so the progress, of every partly filled form |
| OwnerDetails.ProgressOf | app/owner/details/page.tsx:51 | the progress lies in [0, 50], is 50 exactly when at least eight fields are filled, and below that is the filled share of 50 |
| OwnerDetails.ProgressMonotone | app/owner/details/page.tsx:51 | more filled fields never give less progress |
| OwnerDetails.ValidationErrors | app/owner/details/page.tsx:63-79 | each error is its fixed message or empty; validation never sets the id error; a gmail error names a non-empty gmail without the suffix; no general error means no field is blank after trimming |
| OwnerDetails.ValidationPasses | app/owner/details/page.tsx:63-84 | no error is produced exactly when every field is non-blank, the gmail is empty or ends with "@gmail.com", and the two passwords match |
| OwnerDetails.FindBlank | app/owner/details/page.tsx:63-69 | the scan that stops at the first blank value reports one exactly when some value is blank after trimming |
| OwnerDetails.Validate | app/owner/details/page.tsx:59-84 | the scan and the two checks produce the field-by-field errors, and `hasError` is set exactly when some error is |
| OwnerDetails.ClassifyLookup | app/owner/details/page.tsx:93-115 | the id is free exactly on status 404 and taken exactly on status 200; anything else, or an exception, is unverified |
| OwnerDetails.DetailsPage.constructor | app/owner/details/page.tsx:22-38 | an empty form, no errors, no navigation |
| OwnerDetails.DetailsPage.HandleChange | app/owner/details/page.tsx:54-57 | the edited field takes the value, the others are kept, and every error is cleared |
| OwnerDetails.DetailsPage.HandleNext | app/owner/details/page.tsx:59-115 | on a validation error: those errors, no request, no storage write, no navigation. Otherwise it requests the slugified id. 200 gives "Restaurant ID already exists", and any other non-404 or an exception gives "Could not verify…", both with storage and route unchanged. 404 writes exactly userName, restaurantName and the raw restaurantId, and navigates to /owner/details2 |
| OwnerDetails.DetailsPage.HandleLookup | app/owner/details/page.tsx:94-115 | 200 sets only the id error to "Restaurant ID already exists"; any other non-404 status or an exception sets only it to "Could not verify…"; neither touches storage or the route. 404 keeps the errors, writes exactly the three keys and navigates to /owner/details2 |
| OwnerLogin.HandleLogin | app/owner/login/page.tsx:15-28 | "Gmail not found" exactly when the suffix check fails; "Incorrect password, try again" exactly when the suffix is right and the password has fewer than 6 UTF-16 units; navigation to /owner/otp with the error cleared exactly when both pass; the fields are kept |
| OwnerLogin.EditGmail | app/owner/login/page.tsx:80-83 | typing in the gmail field sets it and clears the error |
| OwnerLogin.EditPassword | app/owner/login/page.tsx:102-105 | typing in the password field sets it and clears the error |
| OwnerLogin.UpperCaseDomainRefused | app/owner/login/page.tsx:16-19 | the suffix check is case-sensitive: any gmail with an upper-case letter among its last ten characters gets "Gmail not found" |
| OwnerLogin.PasswordBoundary | app/owner/login/page.tsx:21-27 | six characters pass and five do not |
| OwnerStart.DigitsOnly | app/owner/start/page.tsx:12 | the filtered value is all digits and no longer than the input, and equals the input exactly when the input is all digits |
| OwnerStart.DigitsOnlyChar | app/owner/start/page.tsx:12 | a single digit is kept and any other single character is dropped; with DigitsOnlyAppend this fixes the filter on every string |
| OwnerStart.DigitsOnlyAppend | app/owner/start/page.tsx:12 | the filter distributes over concatenation, so the digits are kept in order |
| OwnerStart.DigitsOnlyIdempotent | app/owner/start/page.tsx:12 | filtering twice is filtering once |
| OwnerStart.StartScreen.constructor | app/owner/start/page.tsx:9 | the number starts empty, which satisfies the invariant (all digits, at most ten) |
| OwnerStart.StartScreen.HandleChange | app/owner/start/page.tsx:11-14 | a filtered value of at most ten digits replaces the number; a longer one leaves it as it was; the invariant is kept |
| OwnerStart.StartScreen.IsValid | app/owner/start/page.tsx:16 | "Get OTP" is enabled exactly for ten characters, which are then all digits |
| OwnerOtp.Joined | app/owner/otp/page.tsx:50 | the joined code is empty exactly when every box is empty |
| OwnerOtp.CountdownLabel | app/owner/otp/page.tsx:129 | the label starts with "0:" and, for any value below 100, has four characters |
| OwnerOtp.JoinedFull | app/owner/otp/page.tsx:50 | with each box empty or one digit, the joined code has one character per box exactly when every box is filled |
| OwnerOtp.CountdownLabelDigits | app/owner/otp/page.tsx:129 | for every countdown value the label is "0:" followed by two digits that read back as that value |
| OwnerOtp.OtpPage.constructor | app/owner/otp/page.tsx:10-12 | four empty boxes, 30 seconds, no resend; the invariant holds |
| OwnerOtp.OtpPage.HandleChange | app/owner/otp/page.tsx:28-38 | a value other than "" or one digit is ignored; an accepted one replaces box `index` only; focus moves to `index + 1` exactly when the value is non-empty and `index < 3`; the invariant is kept |
| OwnerOtp.OtpPage.HandleKeyDown | app/owner/otp/page.tsx:40-47 | focus moves to `index - 1` exactly on Backspace in an empty box past the first |
| OwnerOtp.OtpPage.VerifyEnabled | app/owner/otp/page.tsx:143 | Verify is enabled exactly when all four boxes are filled |
| OwnerOtp.OtpPage.HandleVerify | app/owner/otp/page.tsx:49-53 | navigation to /owner/details happens exactly when all four boxes are filled; nothing else changes |
| OwnerOtp.OtpPage.Tick | app/owner/otp/page.tsx:17-26 | a running countdown drops by one second; resend is offered exactly when it reaches zero; the invariant is kept |
| OwnerOtp.OtpPage.HandleResend | app/owner/otp/page.tsx:55-60 | four empty boxes, 30 seconds, no resend, Verify disabled, focus on the first box |
| LoaderContext.HideDecision | context/LoaderContext.tsx:44-59 | hide at once exactly when no start is recorded or at least 1000 ms have passed; otherwise wait a positive delay that ends exactly 1000 ms after the start |
| LoaderContext.Loader.constructor | context/LoaderContext.tsx:20-22 | hidden, no start, no timer; the invariant holds |
| LoaderContext.Loader.ShowLoader | context/LoaderContext.tsx:30-37 | the pending hide is cancelled, the time is recorded, the overlay shows |
| LoaderContext.Loader.HideLoader | context/LoaderContext.tsx:39-60 | the pending hide is cancelled. With no start or at least 1000 ms elapsed it hides at once. Otherwise it stays up with one timer of 1000 − elapsed ms. A loader it hides has been up for at least 1000 ms |
| LoaderContext.Loader.TimerFires | context/LoaderContext.tsx:54-57 | the handle and the start are cleared and the overlay hides, at least 1000 ms after it was shown |
| LoaderContext.Loader.Unmount | context/LoaderContext.tsx:24-28 | the pending hide timer is cleared |
| LoaderContext.ShowCancelsScheduledHide | context/LoaderContext.tsx:30-59 | after show, early hide and a second show, no hide is pending; after a second early hide the overlay is still up, and the timer hides it exactly 1000 ms after the second show |
| LoaderContext.UseLoader | context/LoaderContext.tsx:70-75 | outside a provider the result is the error "useLoader must be used inside LoaderProvider"; inside, the context value |
| ProgressBar.Clamp | components/ProgressBar.jsx:8 | the width lies in [0, 100]; values in range pass through, negatives give 0, values above 100 give 100 |
| ProgressBar.Width | components/ProgressBar.jsx:3-8 | an omitted progress renders as 0; a given one is clamped |
| ProgressBar.ClampIdempotent | components/ProgressBar.jsx:8 | clamping twice is clamping once |
| ProgressBar.ClampMonotone | components/ProgressBar.jsx:8 | the clamp preserves order |
| DishBlock.EncodeChar | components/dish/EditMenuDishBlock.tsx:29 | one character serializes to a non-empty run of unreserved characters, '+' and '%' |
| DishBlock.Encode | components/dish/EditMenuDishBlock.tsx:29 | the serialized text is made only of unreserved characters, '+' and '%', and is at least as long as the input |
| DishBlock.EncodeUnreserved | components/dish/EditMenuDishBlock.tsx:29 | text made of unreserved characters is written as it is |
| DishBlock.SetParam | components/dish/EditMenuDishBlock.tsx:24-27 | setting a name not yet present appends the pair at the end |
| DishBlock.Serialize | components/dish/EditMenuDishBlock.tsx:29 | the query string is empty exactly when there are no parameters, and holds only encoded characters, '=' and '&' |
| DishBlock.EmbedParamsInOrder | components/dish/EditMenuDishBlock.tsx:23-28 | the parameters are autoplay=1, then loop=1 and playlist=<id>, in the order they are set |
| DishBlock.YoutubeEmbedUrl | components/dish/EditMenuDishBlock.tsx:22-31 | the URL is the embed base and the id, followed by '?' and the parameters serialized in insertion order exactly when autoplay or loop is on |
| DishBlock.SerializeUnreservedPair | components/dish/EditMenuDishBlock.tsx:29 | a pair of unreserved texts serializes as "name=value", joined to the rest by '&' |
| DishBlock.EmbedUrlPlain | components/dish/EditMenuDishBlock.tsx:29-30 | with both flags off the URL is "https://www.youtube.com/embed/" followed by the id |
| DishBlock.QueryMarkIffParams | components/dish/EditMenuDishBlock.tsx:29-30 | for an id without '?', the URL contains '?' exactly when autoplay or loop is on |
| DishBlock.HasVideo | components/dish/EditMenuDishBlock.tsx:34 | a video is present exactly when the URL exists and has a character that is not white space |
| DishBlock.CardVideoSrc | components/dish/EditMenuDishBlock.tsx:34-52 | the card shows a video exactly when the video URL is present and not blank, and its source is then the plain embed URL |
| DishBlock.CountKeysDistinct | components/dish/EditMenuDishBlock.tsx:101-120 | two count keys are equal only for the same kind and the same restaurant |
| DishBlock.DishCount | components/dish/EditMenuDishBlock.tsx:98-128 | 0 without a restaurant id; otherwise the stored count under that kind's key, or 0 when the key is missing or empty, the text does not parse, or the dish is absent |
| EditLogo.EditLogoPage.constructor | app/owner/edit-logo/page.tsx:39-47 | no source, no draft, no backup, editor closed, no error, no navigation |
| EditLogo.EditLogoPage.LoadCurrent | app/owner/edit-logo/page.tsx:50-56 | a stored logo becomes both the draft and the backup; without one nothing changes |
| EditLogo.EditLogoPage.OnCropComplete | app/owner/edit-logo/page.tsx:58-60 | the reported area is kept |
| EditLogo.EditLogoPage.EditCurrent | app/owner/edit-logo/page.tsx:63-67 | with a draft, the editor opens on it; without one nothing changes |
| EditLogo.EditLogoPage.NewUpload | app/owner/edit-logo/page.tsx:70-78 | an image file opens the editor on its URL; anything else changes nothing |
| EditLogo.EditLogoPage.SaveCrop | app/owner/edit-logo/page.tsx:81-90 | without a source, an area or a non-empty crop it changes nothing. Otherwise the crop becomes the draft, the editor closes and the error clears. Storage is never written |
| EditLogo.EditLogoPage.CloseCrop | app/owner/edit-logo/page.tsx:239 | the editor closes, nothing else changes |
| EditLogo.EditLogoPage.Remove | app/owner/edit-logo/page.tsx:93-96 | the draft and the error are cleared; storage is untouched |
| EditLogo.EditLogoPage.Save | app/owner/edit-logo/page.tsx:99-109 | without a draft: "Please add a logo", storage untouched, no navigation. With one: restaurantLogo set to the draft and no other key changed, then /owner/dashboard |
| EditLogo.EditLogoPage.Cancel | app/owner/edit-logo/page.tsx:112-117 | writes the backup back to restaurantLogo if there is one, otherwise leaves storage alone; then /owner/dashboard |
| EditLogo.EditLogoPage.Dispatch | app/owner/edit-logo/page.tsx:164-245 | no control other than Save and Cancel writes storage, touches the backup or navigates |
| EditLogo.CancelRestoresLogo | app/owner/edit-logo/page.tsx:50-117 | open over any storage, do anything short of saving, then cancel: storage is exactly as it was. A stored logo is written back unchanged; without one nothing is written |
| EditCover.EditCoverPage.constructor | app/owner/edit-cover/page.tsx:39-45 | no source, no cover, editor closed, no navigation |
| EditCover.EditCoverPage.Load | app/owner/edit-cover/page.tsx:48-53 | a stored cover is shown; without one nothing changes |
| EditCover.EditCoverPage.OnCropComplete | app/owner/edit-cover/page.tsx:55-57 | the reported area is kept |
| EditCover.EditCoverPage.CoverUpload | app/owner/edit-cover/page.tsx:60-72 | an image file is stored as restaurantCoverOriginal and opens the editor; anything else changes nothing |
| EditCover.EditCoverPage.EditCurrent | app/owner/edit-cover/page.tsx:75-88 | the editor opens on the stored original if there is one, else on the cover shown, else nothing happens |
| EditCover.EditCoverPage.Remove | app/owner/edit-cover/page.tsx:91-97 | both keys are removed and the cover and source cleared; no other key changes |
| EditCover.EditCoverPage.SaveCrop | app/owner/edit-cover/page.tsx:100-112 | without an area, a source or a non-empty crop it changes nothing. Otherwise the crop is shown and stored as restaurantCover, the source as restaurantCoverOriginal, and the editor closes |
| EditCover.EditCoverPage.CloseCrop | app/owner/edit-cover/page.tsx:233 | the editor closes, nothing else changes |
| EditCover.EditCoverPage.Submit | app/owner/edit-cover/page.tsx:115-118 | always navigates to /owner/dashboard; storage is untouched |
| EditCover.EditCoverPage.Cancel | app/owner/edit-cover/page.tsx:121-123 | navigates to /owner/dashboard without undoing anything stored |
| EditCover.ReEditUsesSource | app/owner/edit-cover/page.tsx:60-112 | after upload, crop and Edit, the editor reopens on the uploaded source, not on the cropped cover, and storage holds both |
| EditCover.RemoveThenEditIsInert | app/owner/edit-cover/page.tsx:75-97 | after Remove, Edit does not open the editor and neither key is stored |
| DetailsLogo.DetailsLogoPage.constructor | app/owner/details2/page.tsx:42-48 | no source, no logo, editor closed, no error, no navigation |
| DetailsLogo.DetailsLogoPage.Progress | app/owner/details2/page.tsx:50 | 100 exactly when a logo exists, 50 exactly when none does |
| DetailsLogo.DetailsLogoPage.OnCropComplete | app/owner/details2/page.tsx:52-54 | the reported area is kept |
| DetailsLogo.DetailsLogoPage.LogoUpload | app/owner/details2/page.tsx:56-62 | an image file opens the editor on its URL; anything else changes nothing |
| DetailsLogo.DetailsLogoPage.SaveCrop | app/owner/details2/page.tsx:64-77 | without a source, an area or a non-empty crop it changes nothing. Otherwise the crop becomes the logo, is stored as restaurantLogo with no other key changed, the editor closes and the error clears |
| DetailsLogo.DetailsLogoPage.OpenCrop | app/owner/details2/page.tsx:158 | the editor opens, nothing else changes |
| DetailsLogo.DetailsLogoPage.CloseCrop | app/owner/details2/page.tsx:211 | the editor closes, nothing else changes |
| DetailsLogo.DetailsLogoPage.Remove | app/owner/details2/page.tsx:164-167 | the logo is cleared and restaurantLogo removed; no other key changes |
| DetailsLogo.DetailsLogoPage.Submit | app/owner/details2/page.tsx:79-86 | without a logo: "Please upload your logo" and no navigation; with one: /owner/success |
| DetailsLogo.UploadCropSubmit | app/owner/details2/page.tsx:50-86 | upload, crop and submit reach /owner/success with the crop stored and the progress at 100 |
| DetailsLogo.RemoveBlocksSubmit | app/owner/details2/page.tsx:50-167 | after Remove, submitting is refused with "Please upload your logo", nothing is stored under restaurantLogo and the progress is 50 |

## Left out

- Rendering, styling, animation and DOM focus are not modelled. Focus movement is returned as the index of the box to focus. `Math.round` display rounding of the details progress is left out.
- JsStrings.ToLower: only ASCII letters are lower-cased. Full Unicode case mapping is not modelled, including characters whose lower-case form is longer or lands in [a-z].
- JsStrings.LowerChar: only 'A'..'Z' are lower-cased, for the same reason as ToLower.
- Slug.LowerSlugChar: with ASCII-only lower-casing, only ASCII letters and digits reach [a-z0-9]. In JavaScript some other characters do, for example U+212A KELVIN SIGN, which lower-cases to 'k'.
- ProgressBar: numbers are reals. NaN, which renders as 'NaN%', is not modelled.
- `trim` uses the ECMAScript white-space and line-terminator set, listed code point by code point.
- The network is not modelled. The outcome of `fetch` is an input of `HandleNext`: a status, or an exception.
- The `API_BASE` prefix (lib/api.ts) is not part of this model, so the request is the path alone.
- `encodeURIComponent` is not applied to the slug: every slug character is left as it is by it, so the path is the same.
- The calls to `showLoader`/`hideLoader` inside `handleNext` are not modelled. The loader is its own class.
- `Date.now()` is an input everywhere it is read: the slug fallback, and each loader operation and timer event.
- The canvas crop (`createImage`, `getCroppedImg`, `react-easy-crop`) is the `crop` argument of each save handler. `URL.createObjectURL` is the `objectUrl` of an uploaded file. The crop's failure (`null`) is `None`.
- Browser.PickImage: an upload with an empty file list throws a TypeError at `files[0].type` in the source. The model returns nothing instead; in both cases no state changes.
- Some controls of the three image pages are rendered only under a condition, and the model does not guard their handlers with it; they are modelled as written.
  - The Edit and Remove buttons appear only while an image is shown.
  - The crop editor appears only while `showCrop && imageSrc` holds (app/owner/edit-logo/page.tsx:222, app/owner/edit-cover/page.tsx:216, app/owner/details2/page.tsx:194). This gates its Done and Cancel buttons and `onCropComplete`.
- Browser.Storage.SetItem: writing never fails in the model. In a browser, `setItem` can throw, for example QuotaExceededError on a large data URL. That failure is not modelled:
  - In `handleNext` (app/owner/details/page.tsx:107-109), such a throw would land in the catch at lines 112-115. The result would be "Could not verify…" with no navigation, after a partial write.
  - In the cover editor's `saveCrop` (app/owner/edit-cover/page.tsx:108), the cover shown would already be set and the editor would stay open.
- DishBlock.DishCount: the parsed record maps dish ids to integers. A stored value that is not a number (a string, `null`, a fraction) is not modelled; neither is the `?? 0` default for `null`.
- DishBlock.Encode: code points are encoded as UTF-8 without special treatment of lone surrogates.
- Applying `YoutubeEmbedUrl` to a concrete id with both flags on is not proved as a literal string. The general shape is the contract of YoutubeEmbedUrl, with SerializeUnreservedPair for the query.
- OwnerOtp.OtpPage.Tick: one second of the countdown is one event. It merges the timer callback with the effect run that follows it, which sets `canResend` at zero. The cleanup that clears a superseded timer is not modelled separately.
- The other pages of the app are not part of this model: the dashboard, payment, QR, success, add-dish and edit-menu pages, the viewer's hotel page, the splash page and the layout. `OdyLoader` is not part of it either.
