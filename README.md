# Garage invoice generator — a Dafny model of the page logic

The application turns a Garage marketplace listing URL into a PDF invoice in
the browser. The logic this project models sits in the page component `Home`
(`app/page.tsx`):

- **URL validation** (`validateUrl`). The listing-URL regular expression is
  stated atom by atom (`ListingUrl.MatchAt`). A leftmost-first search
  (`ListingUrl.SearchFrom`) is proved to agree with it on every input. The
  lemmas then give the shape of the accepted inputs: anything may come
  before `https://www.withgarage.com/listing/`; a last character outside
  `[a-f0-9-]` (a trailing space or newline) is rejected, but trailing class
  characters can still match and shift the identifier; at least 73
  characters are needed; the 8-4-4-4-12 grouping is not checked; and the
  identifier is always the last 36 characters.
- **Submission** (`handleSubmit`). `InvoicePage.Home` is a class with the
  page's state fields `url`, `error`, `loading` and `listingData`.
  `HandleSubmit` replays the handler's writes, early returns and JavaScript
  truthiness tests. It is proved against the specification function
  `SubmitOutcome`. Every path ends with `loading` cleared, and either a
  listing with no error or no listing with an error message.
- **Typing and the button** (`onChange`, `disabled`). Typing clears a shown
  error only when the field becomes empty or starts with the listing
  prefix. The button is enabled only when no submission is running and the
  field is not empty.
- **Invoice content** (`handleDownloadPdf`). `InvoicePdf.ComposeDocument`
  moves `yPos` down the page as the source does and pushes the table rows
  in source order. It records the proxy request, the placed image with its
  format label and MIME type, where the table starts, the header, the rows,
  the description and the file name `listing-<id>.pdf`. The table is
  characterised by `TableFor`, and a lemma shows that `TableFor` determines
  the table exactly.

The HTTP exchange is an input: `ListingTypes.Exchange` says whether `fetch`
threw an `Error`, threw another value, or returned a response. A response
has `ok`, a `status` and an optional parsed body; `None` stands for a body
that `response.json()` could not parse. The image pipeline of
`handleDownloadPdf` is an input too (`InvoicePdf.ImageOutcome`).
`formatCurrency`, `toLocaleString` and `encodeURIComponent` are uninterpreted
functions passed in a `Formatters` record. JavaScript numbers are `real`.

Two consequences of the pattern at app/page.tsx:18 are worth noting. It
has no `^`, so any leading text, whitespace included, is accepted
(`ListingUrl.LeadingTextAccepted`). Its class `[a-f0-9\-]{36}` accepts any
36 such characters, so the 8-4-4-4-12 grouping of the identifier is not
checked (`ListingUrl.GroupingNotChecked`).

Files: `types.dfy` (records of app/types/index.ts and the exchange),
`js_text.dfy` (the JavaScript string behaviour the page uses: number to
text, `split`, `toUpperCase`), `listing_url.dfy`, `invoice_pdf.dfy`,
`invoice_page.dfy`.

## Model

| member | source | states |
|---|---|---|
| `JsText.DecimalString` | app/page.tsx:63 | `${status}` is a non-empty string of decimal digits with no leading zero |
| `JsText.DecimalStringRoundTrip` | app/page.tsx:63 | reading the digits of `${status}` back gives the status code |
| `JsText.DecimalStringInjective` | app/page.tsx:63 | different status codes give different decimal texts |
| `JsText.Split` | app/page.tsx:136 | `split('/')` gives at least one piece, and no piece contains the separator |
| `JsText.AsciiUpper` | app/page.tsx:136 | `toUpperCase` keeps the length, leaves no lower-case ASCII letter, maps each lower-case ASCII letter to its capital and leaves every other character as it was |
| `JsText.SplitJoin` | app/page.tsx:136 | joining the pieces of `split('/')` with `/` gives the input back |
| `JsText.SplitAfterField` | app/page.tsx:136 | splitting `a/b` where `a` has no `/` gives `a`, then the pieces of `b` |
| `JsText.FirstField` | app/page.tsx:136 | the first piece of `field + rest` is `field` when `rest` is empty or starts with `/` |
| `ListingUrl.MatchAt` | app/page.tsx:18 | the pattern matched from index `i` with `.+` taking `k` characters: the prefix, `k` characters that are not line terminators, `-`, then 36 class characters up to the end of the input; such a match ends in `-` and 36 characters, so the input has at least 73 |
| `ListingUrl.Matches` | app/page.tsx:18-19 | `input.match(regex)` is not null: a match from some start index; a matching input has at least 73 characters |
| `ListingUrl.SearchFrom` | app/page.tsx:18-19 | the leftmost-first search finds a start index where the pattern matches, or proves that no later start index matches |
| `ListingUrl.MatchListingUrl` | app/page.tsx:16-27 | a captured identifier has 36 characters, all in `[a-f0-9-]`, and the input then has at least 73 |
| `ListingUrl.MatchListingUrlCorrect` | app/page.tsx:17-27 | the engine accepts exactly the inputs the regular expression matches; the identifier returned is then the last 36 characters of the input, all in `[a-f0-9-]` |
| `ListingUrl.MatchListingUrlSound` | app/page.tsx:17-19 | every input the engine accepts is matched by the regular expression |
| `ListingUrl.MatchListingUrlComplete` | app/page.tsx:17-27 | every input the regular expression matches is accepted, has at least 73 characters, and yields its last 36 characters, all in `[a-f0-9-]` |
| `ListingUrl.MatchAtShifted` | app/page.tsx:18 | a match at index `i` is still a match, shifted by the length of `t`, once text `t` is put in front |
| `ListingUrl.SameIdentifier` | app/page.tsx:18-19 | two matching inputs that end in the same 36 characters yield the same identifier |
| `ListingUrl.LeadingTextAccepted` | app/page.tsx:18 | any text before a valid URL, whitespace included, is accepted, and the identifier is unchanged |
| `ListingUrl.TrailingCharRejected` | app/page.tsx:18 | a URL whose last character is outside `[a-f0-9-]` (trailing space, newline) is rejected |
| `ListingUrl.TrailingIdCharsShiftIdentifier` | app/page.tsx:18-19 | a valid URL whose identifier has `-` at index 8, followed by nine more class characters, still matches, and the identifier returned is the original one from index 9 followed by the extra characters |
| `ListingUrl.ShortInputRejected` | app/page.tsx:18 | inputs shorter than 73 characters are rejected |
| `ListingUrl.GroupingNotChecked` | app/page.tsx:18 | an identifier of 36 hyphens is accepted: the 8-4-4-4-12 grouping is not checked |
| `InvoicePdf.BuildTableRows` | app/page.tsx:163-180 | rows are Brand, Year, Price, then Category when its name is non-empty, then pump size, tank size and mileage when present (0 included), in that order, 3 to 7 rows, each showing its field |
| `InvoicePdf.Included` | app/page.tsx:169-178 | the category is included when its name is non-empty, pump size, tank size and mileage whenever present (zero included); only those four optional items, of rank 3 to 6, are ever included |
| `InvoicePdf.IncludedHasRow` | app/page.tsx:169-180 | every optional field the listing includes has a row |
| `InvoicePdf.OptionalRowIncluded` | app/page.tsx:169-180 | every row after Price is for an optional field the listing includes |
| `InvoicePdf.NoRowBetween` | app/page.tsx:163-180 | no item falls between two adjacent rows of the fixed order, or after the last row |
| `InvoicePdf.SameRowAt` | app/page.tsx:163-180 | two tables for the same listing that agree on one row agree on the next |
| `InvoicePdf.SamePrefix` | app/page.tsx:163-180 | two tables for the same listing agree on every common position |
| `InvoicePdf.NotLonger` | app/page.tsx:163-180 | two tables for the same listing have the same length |
| `InvoicePdf.TableForUnique` | app/page.tsx:163-180 | the table specification determines the rows exactly |
| `InvoicePdf.HasRowAfterPush` | app/page.tsx:166-179 | `push` adds exactly the pushed row's item to the items present |
| `InvoicePdf.PushRow` | app/page.tsx:169-180 | pushing an included optional row keeps the table specification, one item further |
| `InvoicePdf.SkipRow` | app/page.tsx:169-180 | skipping an optional field the listing lacks keeps the table specification, one item further |
| `InvoicePdf.ImageFormatLabel` | app/page.tsx:135-136 | the format label passed to `addImage` is never empty |
| `InvoicePdf.ImageFormatLabelOfSubtype` | app/page.tsx:135-136 | for a type `kind/sub[/...]` the label is `sub` upper-cased, or `JPEG` when `sub` is empty |
| `InvoicePdf.ImageFormatLabelWithoutSlash` | app/page.tsx:135-136 | a type without `/`, the empty type included, is labelled `JPEG` |
| `InvoicePdf.DataUrlMime` | app/page.tsx:137 | the MIME type requested from `toDataURL` is the blob's type, or `image/jpeg` when that is empty |
| `InvoicePdf.PdfFileName` | app/page.tsx:214 | the file name is `listing-`, then the listing id, then `.pdf` |
| `InvoicePdf.PdfFileNameInjective` | app/page.tsx:214 | different listing ids give different file names |
| `InvoicePdf.TableStart` | app/page.tsx:98-147 | the table starts at 32 without an image, and at 32 plus the image height plus the 10 gap with one, so, for a non-negative image height, at 42 or below |
| `InvoicePdf.ComposeDocument` | app/page.tsx:97-214 | title at y 22; a proxy request for the first image URL only; an image only when the listing has one and the pipeline decoded it; the table starts at 32, or below the image plus a 10 gap; header `Item`/`Details`; rows as `BuildTableRows`; description and file name; an image failure still gives the rest of the document |
| `InvoicePage.ListingRequest` | app/page.tsx:42-51 | the listing is requested by a JSON POST to the backend's `getListing`; the body is `{"id":"`, the identifier, then `"}`, which is `JSON.stringify({ id })` for an identifier of class characters |
| `InvoicePage.NonOkMessage` | app/page.tsx:61-63 | the message shown for a non-ok response is never empty |
| `InvoicePage.ExchangeOutcome` | app/page.tsx:41-90 | every way the fetch can end leaves either a listing with no error, or no listing with an error |
| `InvoicePage.SubmitOutcome` | app/page.tsx:30-92 | a submission always settles; a rejected URL gives the invalid-URL message and no listing |
| `InvoicePage.NonOkResponse` | app/page.tsx:60-68 | a non-ok response leaves no listing; it shows the body's non-empty `message`, otherwise `Request failed with status ` followed by digits with no leading zero (unless the status is 0) that read back as the status |
| `InvoicePage.NonOkFallbackInjective` | app/page.tsx:61-63 | without a usable body, different status codes give different fallback messages |
| `InvoicePage.OkResponse` | app/page.tsx:70-81 | on an ok response a non-empty `error` field wins over a listing; otherwise a present listing is shown with the error cleared; a body with neither a truthy `error` nor a listing (an unparseable body, `{}`, `{ result: { listing: null } }`) reports the listing missing; a listing is shown exactly when no error field is set and the listing is present |
| `InvoicePage.TransportFailure` | app/page.tsx:82-90 | a thrown `Error` shows `An error occurred: ` plus its message; any other thrown value shows the fixed unexpected-error message; no listing either way |
| `InvoicePage.NotFoundResponse` | app/page.tsx:60-64 | a 404 with body `{ message: "not found" }` shows `not found` |
| `InvoicePage.UnparseableServerError` | app/page.tsx:53-64 | a 500 with an unparseable body shows `Request failed with status 500` |
| `InvoicePage.ErrorAfterEdit` | app/page.tsx:237-245 | typing never sets an error; a shown error is cleared exactly when the field becomes empty or starts with the listing prefix |
| `InvoicePage.LeadingSpaceKeepsError` | app/page.tsx:235-246 | a valid URL typed with a leading space is accepted on submission, yet typing it does not clear a shown error |
| `InvoicePage.Home.constructor` | app/page.tsx:11-14 | the page starts with an empty field, no error, not loading, no listing and the button disabled |
| `InvoicePage.Home.SubmitEnabled` | app/page.tsx:279 | the button is enabled exactly when not loading and the field is not empty |
| `InvoicePage.Home.ValidateUrl` | app/page.tsx:16-28 | returns the captured identifier; on no match returns nothing and sets the invalid-URL message; otherwise leaves the error as it was |
| `InvoicePage.Home.HandleSubmit` | app/page.tsx:30-92 | ends with `loading` cleared and `error`/`listingData` equal to `SubmitOutcome`, whatever the state before; sends the listing request exactly when the URL is valid; the button is then enabled exactly when the field is non-empty |
| `InvoicePage.Home.OnChange` | app/page.tsx:235-246 | the field takes the typed value, and the error follows `ErrorAfterEdit` |
| `InvoicePage.Home.HandleDownloadPdf` | app/page.tsx:94-96 | no document without a listing; otherwise the document `ComposeDocument` specifies for the listing shown |

## Left out

- JSX rendering (app/page.tsx:217-295), `ListingDetailsCard` and the spinner: presentation only.
- The image-proxy route (app/api/image-proxy/route.ts) and next.config.ts: a server-side relay and declarative configuration, outside the page logic.
- `fetch`, `response.json()`, `Image`, the canvas, `URL.createObjectURL` and every jsPDF and autoTable drawing call: browser and library I/O. Their outcomes are inputs.
- The floating-point image scaling (app/page.tsx:140-147): the scaled height is an input of `ImageOutcome.Decoded`, and the image width is not recorded.
- Where the description text goes: it depends on autoTable's `lastAutoTable.finalY` and on `splitTextToSize`, both library results. The document records the description text only.
- `formatCurrency`, `toLocaleString` and `encodeURIComponent`: uninterpreted, so no claim about the formatted price text can be made here.
- Response bodies whose fields hold JSON values of other types (a numeric `message`, say): the model gives each field its declared type or leaves it absent.
- A listing whose `imageUrls` is missing at run time: the model always has a sequence there.
- An exception thrown inside the image `onload` callback (for example by `addImage`): the promise would never settle. This library behaviour is not modelled.
- JavaScript numbers as `real`: NaN and the infinities are not modelled.
- Concurrency: overlapping submissions, React's batching of state updates, and re-entry while `loading` is set. One submission is modelled at a time.
- Console logging.
- `JsText.AsciiUpper`: `toUpperCase` is modelled for ASCII letters only; letters outside ASCII keep their case.
- `canvas.toDataURL` falls back to PNG for a type the canvas cannot encode (`image/gif`, `image/svg+xml`): the model records the type requested, so the format label passed to `addImage` may then name a format the data does not have.
- Strings as sequences of Unicode scalar values: the pattern runs on UTF-16 code units in JavaScript, so lone surrogates cannot be represented and the 73-character bound counts scalar values, not code units.
- Response status and `ok`: in `ListingTypes.Exchange` they are independent inputs, whereas the Fetch API sets `ok` exactly for statuses 200 to 299; the model allows more responses than can occur, and no lemma relies on the link.
