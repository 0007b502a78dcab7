# Heritage Blade booking and customer admin: a Dafny model

This project models the sequential logic of the Heritage Blade barbershop
site: the booking and customer APIs, the booking dialogs, and the admin pages.

The API side has two bindings, the serverless functions under `api/` and the
Express routers under `server/routes/`. Both are modelled over an in-memory
store:

- bookings and customers are sequences of records;
- ids come from a counter; `createdAt` and `updatedAt` come from a logical
  clock that advances on every write;
- each handler is a method that returns a status, an optional `Allow` header
  and a body variant;
- the awaited steps that can throw (the connection, reading the body, the
  store call) are boolean fault parameters.

The client side is modelled as classes whose fields are the component state:

- the React booking dialog (`BookingModal.jsx`) and the landing page that
  opens it (`Home.jsx`);
- the React admin page (`Admin.jsx`);
- the static-site booking dialog (`script.js`);
- the static admin table and search box (`admin.js`).

Each request a page sends is returned to the caller. Its outcome is passed
back in.

The HTML escapers are pure string functions. A decoder for the five
character references they emit (`&amp; &lt; &gt; &quot; &#39;`) serves as
their partner: decoding an escaped string gives back the original.

JavaScript value rules are modelled explicitly in module `Js`:

- `undefined` is `None`;
- string truthiness and `a || b`;
- `trim` over the ECMAScript white-space and line-terminator set;
- `startsWith`, with `null` read as the string "null";
- `find` and `findIndex`;
- the case-insensitive match of `new RegExp(q, 'i')`.

Modules and files:

| file | module | models |
|---|---|---|
| js.dfy | `Js` | JavaScript strings and values |
| html.dfy | `Html` | `escapeHtml`, `escapeAttr`, entity decoding |
| ordering.dfy | `Ordering` | `.sort({ key: -1 }).limit(n)` |
| records.dfy | `Records` | record and response shapes, create checks, field mapping, search filter, list queries |
| stores.dfy | `Stores` | the two collections as classes |
| bookings_api.dfy | `BookingsApi` | api/bookings.js |
| bookings_routes.dfy | `BookingsRoutes` | server/routes/bookings.js |
| customers_api.dfy | `CustomersApi` | api/customers/index.js |
| customers_routes.dfy | `CustomersRoutes` | server/routes/customers.js |
| fetch.dfy | `Fetch` | what a page sees of `fetch`; the list URL |
| booking_modal.dfy | `BookingModal` | src/components/BookingModal.jsx |
| home.dfy | `Home` | src/pages/Home.jsx |
| admin_page.dfy | `AdminPage` | src/pages/Admin.jsx |
| vanilla_booking.dfy | `VanillaBooking` | script.js |
| vanilla_admin.dfy | `VanillaAdmin` | admin.js |

Modelling choices:

- **PUT replaces the four fields.** A customer update writes `name`, `phone`,
  `email` and `comment` from the body, and a field absent from the body
  becomes absent on the record (`Records.Replace`). Whether Mongoose
  clears or keeps such a field depends on its version; the model uses the
  clearing reading of the literal update object.
- **The search is a literal match.** The customer search is modelled as a
  substring match that ignores ASCII case. The query is assumed to hold no
  regular-expression metacharacters.
- **Cancel does not reset the form.** In the React dialog, Cancel, the
  backdrop and the close button only call `onClose`, so the entered values
  survive the next opening. Only the success box's Done button
  (`closeAndReset`) resets the form. This follows the code
  (src/components/BookingModal.jsx:86, 90, 189).

## Model

| member | source | states |
|---|---|---|
| Js.OrElse | api/bookings.js:23 | `v \|\| d` is `v` when `v` is a non-empty string and `d` otherwise |
| Js.TrimSplits | api/customers/index.js:10 | a string is its trim framed by white space on both sides, and the trim has no white space at either end |
| Js.TrimIdempotent | server/routes/customers.js:9 | trimming twice is trimming once |
| Js.TrimEmptyIffAllSpace | api/customers/index.js:10-11 | the trim is empty exactly when the string is all white space |
| Js.TrimOfNoEdgeSpace | src/pages/Admin.jsx:12 | a string with no white space at its ends is its own trim |
| Js.Contains | api/customers/index.js:14 | substring search is true exactly when the pattern occurs at some position |
| Js.ContainsIgnoringCase | api/customers/index.js:14-16 | the case-insensitive match holds exactly when the query matches at some position with ASCII letters folded |
| Js.IgnoringCaseIsCaseBlind | server/routes/customers.js:12-14 | changing the case of the query's letters never changes whether it matches |
| Js.SubstringMatchesIgnoringCase | server/routes/customers.js:12 | a query occurring verbatim in a field matches it |
| Js.FindIndex | src/pages/Home.jsx:21 | `find` returns the first element satisfying the predicate, or nothing when none does |
| Html.HtmlEntity | script.js:226 | the five special characters map to entities starting with `&`; every other character is copied |
| Html.EscapeText | admin.js:90 | the escaped text holds no raw `<`, `>`, `"` or `'` and is at least as long as the input |
| Html.EscapeHtml | script.js:224-228 | a missing or empty input gives ""; otherwise the text is escaped |
| Html.EscapeTextAppend | script.js:225 | escaping distributes over concatenation |
| Html.EscapeTextStep | admin.js:90 | escaping one more character appends exactly that character's entity |
| Html.EscapeTextOfPlain | script.js:225-227 | text without the five characters comes out unchanged |
| Html.DecodeEscapeText | admin.js:38-40 | decoding the escaped text gives back the original |
| Html.DecodePlainHead | admin.js:71 | a character other than `&` decodes to itself |
| Html.DecodeEntityHead | admin.js:71 | each entity the escaper writes decodes to its character |
| Html.AttrEntity | admin.js:93 | `"` becomes `&quot;`, `'` becomes `&#39;`, every other character is copied |
| Html.EscapeAttrText | admin.js:93 | the attribute escape's output holds no `"` and no `'` |
| Html.EscapeAttr | admin.js:92-94 | a missing or empty input gives ""; otherwise the character-wise quote escape of the value |
| Html.EscapeAttrTextAppend | admin.js:93 | the quote escape distributes over concatenation, so it replaces each character independently |
| Html.DecodeEscapeAttr | admin.js:93 | text without `&` reads back from the attribute exactly as it was, quotes included |
| Html.EscapeAttrOfUnquoted | admin.js:93 | `escapeAttr` passes `&`, `<` and `>` through: quote-free text comes out unchanged |
| Html.EscapeAttrDoesNotRoundTrip | admin.js:42 | a comment reading `&amp;` is written into the `value` attribute unchanged, and the browser reads it back as `&` |
| Html.AttrEntityFixed | admin.js:93 | corrected replacement: `&`, `"` and `'` become `&amp;`, `&quot;` and `&#39;`, every other character is copied |
| Html.EscapeAttrFixed | admin.js:92-94 | corrected escaper: a missing or empty input gives ""; otherwise the corrected character-wise escape of the value |
| Html.EscapeAttrFixedText | admin.js:93 | the corrected escaper's output holds no quotes |
| Html.DecodeEscapeAttrFixed | admin.js:42 | decoding the corrected escaper's output gives back the original |
| Ordering.InsertDesc | api/bookings.js:30 | inserting into a newest-first sequence keeps it sorted and adds exactly that element |
| Ordering.SortDesc | server/routes/bookings.js:35 | the sort is newest first and a permutation of its input |
| Ordering.BoundedBy | api/bookings.js:30 | when `x` and every element of `u` are at most a bound, so is every element of a sequence holding `u` plus `x` |
| Ordering.ConsSorted | api/bookings.js:30 | a head no older than the first element of a sorted tail keeps the sequence sorted |
| Ordering.TakeIsPrefix | api/bookings.js:30 | `.limit(n)` keeps the first `min(n, length)` elements |
| Ordering.PrefixSorted | api/bookings.js:30 | a prefix of a sorted sequence is sorted |
| Ordering.PrefixSubMultiset | api/bookings.js:30 | a prefix holds no element the sequence does not |
| Ordering.PrefixHoldsNewest | api/customers/index.js:21 | what a prefix of a sorted sequence leaves out is no newer than anything it keeps |
| Ordering.NewestFirst | api/customers/index.js:21 | sort-then-limit is ordered, at most `n` long, drawn from the input, and drops only elements no newer than all it keeps |
| Ordering.NewestIsFirst | server/routes/customers.js:17 | an element strictly newer than all others comes first |
| Ordering.TakeKeepsFirst | server/routes/bookings.js:35 | a positive limit keeps the first element |
| Records.BookingComment | api/bookings.js:23 | the comment is `notes` if truthy, else `comment` if truthy, else "" |
| Records.NewBooking | api/bookings.js:15-24 | a created booking has a non-empty name, date and time |
| Records.BookingWhitelist | api/bookings.js:15-24 | payloads that agree on the eight keys read are accepted alike and make the same record |
| Records.ClientKeysDropped | server/routes/bookings.js:14-23 | an extra key such as the client's `createdAt` changes neither the check nor the record |
| Records.RecentBookingsAreNewest | api/bookings.js:30 | the booking list holds at most 100 bookings of the store, newest first; any left out is older than all kept |
| Records.CreatedBookingListedFirst | server/routes/bookings.js:14-36 | a booking created after all others heads the next list |
| Records.BlankQueryIsEmpty | api/customers/index.js:10-19 | the query is empty exactly when `q` is missing or all white space |
| Records.FilterCustomers | api/customers/index.js:11-19 | a customer is kept exactly when it matches, and only stored customers are kept |
| Records.CustomerListSpec | server/routes/customers.js:9-18 | the list holds at most 200 matching customers, latest update first, drops only matches updated no later than all kept, and matches everyone for an empty query |
| Records.CustomerMatchIff | api/customers/index.js:11-18 | with a non-empty query a customer matches exactly when its name, phone or email contains the query ignoring case |
| Records.NewCustomer | api/customers/index.js:29-34 | a created customer has a non-empty name |
| Records.CreatedCustomerListedFirst | server/routes/customers.js:17 | a customer created after all others heads every list whose query its name contains |
| Records.Replace | server/routes/customers.js:43 | an update keeps the id and `createdAt` and stamps `updatedAt` |
| Records.ReplaceIdempotent | server/routes/customers.js:43 | applying the same update twice gives the fields of applying it once |
| Records.IndexOf | server/routes/customers.js:43 | the first index holding the id, or nothing exactly when no record has it |
| Records.Find | server/routes/customers.js:55 | `findById` gives the first stored record with that id, or nothing exactly when none has it |
| Records.FindDistinct | server/routes/customers.js:55 | where ids are distinct, looking up a record's id finds exactly that record |
| Stores.BookingStore.Insert | api/bookings.js:15-24 | appends exactly the new booking with a fresh id and the next tick, keeping the store invariant |
| Stores.CustomerStore.Insert | api/customers/index.js:29-34 | appends exactly the new customer with a fresh id and the next tick |
| Stores.CustomerStore.Update | server/routes/customers.js:43 | replaces the fields of one record, leaves every other record and the order as they were |
| BookingsApi.Handler | api/bookings.js:5-40 | connect failure 500; POST: 400 with nothing stored unless name, date and time are truthy, else exactly one record added and 201 with its id; GET: the newest 100, store unchanged; other methods 405 with `Allow: GET, POST`; any thrown error 500 |
| BookingsRoutes.Post | server/routes/bookings.js:7-30 | no body is an empty payload; 400 and nothing stored without name, date and time; one record added and 201 with its id; 500 when the store throws |
| BookingsRoutes.Get | server/routes/bookings.js:33-41 | 200 with the newest 100 bookings, or 500 |
| BookingsRoutes.NoBodyIsRejected | server/routes/bookings.js:9-12 | a request without a body fails the create check |
| CustomersApi.Handler | api/customers/index.js:5-45 | GET: 200 with the filtered, sorted, limited list for the trimmed `q`; POST: 400 for a falsy name, else one record added and 201; other methods 405 with `Allow: GET, POST`; errors 500 |
| CustomersRoutes.List | server/routes/customers.js:7-23 | 200 with the list for the trimmed `q`, or 500 |
| CustomersRoutes.Create | server/routes/customers.js:26-36 | 400 and no record for a falsy name; otherwise one record of the four fields and 201 with its id; 500 when the store throws |
| CustomersRoutes.Update | server/routes/customers.js:39-50 | malformed id or store error 500; unknown id 404 with the store unchanged; otherwise that record takes the body's four fields, no name check, every other record unchanged, answer `{ ok: true }` |
| CustomersRoutes.Read | server/routes/customers.js:53-62 | malformed id or store error 500; unknown id 404; otherwise 200 with the stored record of that id |
| CustomersRoutes.CreateThenRead | server/routes/customers.js:26-62 | reading a created customer by the id the create answered gives the body's four fields, that id and the create's timestamps; a refused create leaves the id unknown (404) |
| CustomersRoutes.UpdateThenRead | server/routes/customers.js:39-62 | reading an updated customer gives the stored record with exactly its four fields replaced and a new `updatedAt`; an unknown id is 404 for both and the store is unchanged |
| Fetch.Checked | admin.js:5-21 | a response that is not ok throws the call's message; a thrown error keeps its message |
| Fetch.ListUrl | admin.js:4 | no query parameter for the empty query; otherwise `?q=` and the query |
| Fetch.ListUrlCarriesQuery | admin.js:119-121 | the server's search query read from the list URL is exactly the trimmed text |
| BookingModal.InitialForm | src/components/BookingModal.jsx:14-25 | every text field empty; the service is the preset, or the first service without one |
| BookingModal.ValidateIff | src/components/BookingModal.jsx:47-52 | the form is valid exactly when the name is not all white space and date and time are non-empty |
| BookingModal.ValidateIgnoresOptionalFields | src/components/BookingModal.jsx:47-52 | phone, email, service and notes are not checked |
| BookingModal.InitialFormIsInvalid | src/components/BookingModal.jsx:14-25 | a freshly reset form does not validate |
| BookingModal.BookingPayload | src/components/BookingModal.jsx:60 | the body carries `createdAt` exactly when it is given |
| BookingModal.ValidFormIsAccepted | src/components/BookingModal.jsx:60-64 | a validated form passes the server's check, and the stored booking holds the form's fields with `notes` as comment and `createdAt` dropped |
| BookingModal.BlankNamePassesOnlyServerCheck | src/components/BookingModal.jsx:48 | a name of spaces fails `validate` but passes the handler's truthiness check |
| BookingModal.Modal.constructor | src/components/BookingModal.jsx:11-27 | the state starts from `initialForm`, not saving, no success |
| BookingModal.Modal.ReceiveProps | src/components/BookingModal.jsx:29-34 | when `open` or the preset changes while open, `success` is cleared and the service becomes the preset or stays; every other field is kept |
| BookingModal.Modal.Change | src/components/BookingModal.jsx:107 | an input's change replaces the form and nothing else |
| BookingModal.Modal.Submit | src/components/BookingModal.jsx:54-65 | an invalid form sends nothing and changes nothing; a valid one sets `saving` and sends the form with `createdAt` |
| BookingModal.Modal.Settle | src/components/BookingModal.jsx:66-75 | `saving` ends; success shows the sent payload on API success and a copy of the form without `createdAt` on failure |
| BookingModal.Modal.CloseAndReset | src/components/BookingModal.jsx:78-82 | `success` cleared, `initialForm` restored, `onClose` called |
| BookingModal.Modal.KeyDown | src/components/BookingModal.jsx:36-43 | Escape requests closing exactly while open |
| BookingModal.SubmitAndSettle | src/components/BookingModal.jsx:54-76 | after a validated submit settles, `saving` is false and a confirmation of the submitted form is shown, whatever the API answered |
| Home.PresetFor | src/pages/Home.jsx:21 | the preset is the first service starting with the prefix, or none exactly when no service does |
| Home.PresetIsAService | src/pages/Home.jsx:21 | a preset is one of the services |
| Home.BookNowHasNoPreset | src/pages/Home.jsx:50 | the `null` prefix of the Book Now buttons gives no preset |
| Home.StartsWithHead | src/pages/Home.jsx:21 | a prefix of two or more characters fixes the first two characters |
| Home.CardPrefixesPickOneService | src/pages/Home.jsx:12-15 | each card prefix belongs to exactly one service, the one in the same position, which becomes the preset |
| Home.HomePage.constructor | src/pages/Home.jsx:7-8 | closed, no preset, the dialog mounted with the initial form |
| Home.HomePage.OpenBooking | src/pages/Home.jsx:20-24 | `open` becomes true and the preset is the lookup result; opening a closed dialog clears its success and takes the preset |
| Home.HomePage.Close | src/pages/Home.jsx:208 | closing keeps the dialog's form and success for the next opening |
| AdminPage.GuardedFormPassesNameCheck | src/pages/Admin.jsx:38-43 | a form past the blank-name guard passes the server's name check |
| AdminPage.CustomersUrl | src/pages/Admin.jsx:12 | the bare path for a blank query, otherwise `?q=` and the trimmed query |
| AdminPage.StoredFields | src/pages/Admin.jsx:57-61 | the record's four fields, an undefined one omitted |
| AdminPage.UpdatePayload | src/pages/Admin.jsx:57-63 | keys in the patch take the patch's values; every other key has the existing record's value |
| AdminPage.CommentPatchChangesOnlyComment | src/pages/Admin.jsx:201 | saving `{ comment }` on blur changes only the record's comment |
| AdminPage.WithComment | src/pages/Admin.jsx:75-77 | the rows with the id get the new comment; length, order and every other row kept |
| AdminPage.CommentEditKeepsRows | src/pages/Admin.jsx:76 | apart from the comment, every row is as before |
| AdminPage.LoadedCustomers | src/pages/Admin.jsx:18-21 | the array returned, an empty list for a non-array body, the previous list on failure |
| AdminPage.LoadError | src/pages/Admin.jsx:16-23 | no error on success; `Failed to load customers` when not ok; the thrown message or `Error` otherwise |
| AdminPage.Page.constructor | src/pages/Admin.jsx:5-10 | empty query, loading, no error, no customers, empty form |
| AdminPage.Page.Search | src/pages/Admin.jsx:104 | the search change sets only the query |
| AdminPage.Page.Load | src/pages/Admin.jsx:14-27 | list and error set from the outcome, `loading` false afterwards |
| AdminPage.Page.Create | src/pages/Admin.jsx:36-51 | a blank name sends nothing; an accepted create resets the form to four empty strings and reloads; a failure changes nothing |
| AdminPage.Page.Update | src/pages/Admin.jsx:53-68 | nothing sent for an unlisted id; otherwise the merged payload |
| AdminPage.Page.OnCommentChange | src/pages/Admin.jsx:75-77 | the list becomes the comment-edited list; nothing else changes |
| VanillaBooking.ValidateForm | script.js:117-131 | flags exactly the present empty name, date and time controls; valid exactly when none is flagged |
| VanillaBooking.BookingOf | script.js:146-149 | every form entry plus `createdAt` |
| VanillaBooking.ValidatedBookingIsAccepted | script.js:117-158 | with the three controls present, the client check implies the server's create check |
| VanillaBooking.MissingControlPassesOnlyClient | script.js:123 | a missing name control passes the client check and fails the server's |
| VanillaBooking.MatchOption | script.js:385 | the first option whose trimmed text starts with the title, or none |
| VanillaBooking.Dialog.constructor | script.js:14-77 | a closed, unwired dialog with the default form |
| VanillaBooking.Dialog.Open | script.js:79-98 | the dialog shows; listeners are wired on the first call only, so at most one set exists |
| VanillaBooking.Dialog.Dismiss | script.js:89-103 | closes and keeps the entered values |
| VanillaBooking.Dialog.KeyDown | script.js:106-108 | Escape closes once the listener is wired |
| VanillaBooking.Dialog.Input | script.js:146-148 | an edit by the user changes one control's value, which `new FormData(form)` later reads; nothing else changes |
| VanillaBooking.Dialog.Submit | script.js:133-159 | an invalid form returns before anything changes; a valid one disables the button, shows "Saving..." and sends the booking |
| VanillaBooking.Dialog.Settle | script.js:160-187 | on API failure the booking is appended to the stored list; the success box shows either way; the button is re-enabled with its label |
| VanillaBooking.Dialog.Done | script.js:215-221 | the form is reset and shown again, and the dialog closes |
| VanillaBooking.Dialog.PreselectService | script.js:383-387 | the first matching option is selected; no title or no match leaves the selection |
| VanillaBooking.SubmitAndSettle | script.js:133-188 | after any outcome the button is enabled with its label and earlier stored bookings are kept in place |
| VanillaAdmin.RowOf | admin.js:37-45 | one row per customer, with its id and update time, and the comment attribute written by `escapeAttr` as it is |
| VanillaAdmin.RowOfFixed | admin.js:37-45 | (corrected) the same row with the corrected escaper; only the comment attribute differs |
| VanillaAdmin.RowReadsBack | admin.js:38-42 | each text cell reads back the record's value; the comment input does too when the comment holds no `&` |
| VanillaAdmin.FixedRowReadsBack | admin.js:38-42 | (corrected) with the corrected escaper the comment input reads back the stored comment for every comment |
| VanillaAdmin.BuildRows | admin.js:35-47 | one row per customer, in response order |
| VanillaAdmin.CommentUpdate | admin.js:69-77 | the trimmed name, phone and email cell texts and the untrimmed input value |
| VanillaAdmin.UneditedCommentSaveKeepsRecord | admin.js:68-77 | (corrected) with the corrected escaper, an unedited blur writes back the stored comment and the trimmed other fields |
| VanillaAdmin.AsWrittenBlurRewritesComment | admin.js:42 | with `escapeAttr` as written, an unedited blur turns a comment `&amp;` into `&` |
| VanillaAdmin.Table.BeginLoad | admin.js:27 | the table shows one Loading row |
| VanillaAdmin.Table.FinishLoad | admin.js:29-51 | an empty list shows the notice row, a list one row per customer, a failure one escaped error row |
| VanillaAdmin.SearchBox.constructor | admin.js:116 | no timer pending |
| VanillaAdmin.SearchBox.OnInput | admin.js:117-120 | the pending timer is cleared and exactly one is set, for the trimmed value |
| VanillaAdmin.SearchBox.Fire | admin.js:119 | the timer loads the search box's value trimmed and none stays pending; the handle and the value are kept |
| VanillaAdmin.SearchBox.Refresh | admin.js:121 | refresh loads the trimmed value |
| VanillaAdmin.AtMostOnePending | admin.js:116-120 | at most one search timer is pending |

## Left out

- I/O is not modelled: `fetch`, the network, `localStorage`, `alert`,
  `console`, focus, timers' delays, animations and DOM rendering. Their outcomes
  are parameters: `Faults`, `Fetched`, `apiOk` and `storageOk`.
- Concurrency is not modelled: responses that arrive stale or out of order,
  and the debounced reload in src/pages/Admin.jsx:29-34, which the caller
  triggers by calling `Load`.
- Regular expressions: a search query is matched literally, and case is
  folded for ASCII letters only. An invalid pattern lands in the 500 branch.
- `encodeURIComponent` and the server's query decoding are taken to cancel out
  (`Fetch.UrlQuery`).
- A query value that is not a string, such as a repeated `q`, is not modelled.
  In the source it throws on `.trim()` and gives 500.
- Schema behaviour (trim setters, `required` validators, indexes) is left out,
  and `timestamps: true` is replaced by the logical clock. So a name of
  spaces that the schema would refuse, with a 500, is accepted by the model.
- Records.Replace: writes absent body fields as absent. Mongoose versions that
  keep the stored value instead are not modelled.
- `api/_util/readJson.js` is not part of this model. A body is a map from keys
  to strings. An unreadable body is `Faults.readBody`. A JSON body that is not
  an object, or holds non-string values, is not modelled.
- `api/_db.js` and its cached connection are not part of this model. A
  connection failure is `Faults.connect`.
- A by-id customer handler for the serverless binding is not part of this
  model.
- UTF-16 is not modelled: strings are sequences of code points.
- In the browser, decoding covers only the five references the escapers
  write (`Html.HtmlDecode`).
- BookingModal.Modal.Submit: requires that no submit is in flight, because
  the submit button is disabled while saving. Overlapping submissions are not
  modelled.
- VanillaBooking.Dialog.Submit: requires that no submit is in flight and the
  form is shown, for the same reason.
- VanillaBooking.OptionTexts: an option's value is taken to be its text as
  written. This holds for the four options, which have no surrounding or
  repeated spaces.
- `wireForm`, `formatDate` and `wireInlineEditors` in admin.js are left out.
  The first is the add-customer form; the other two are a date display and
  event plumbing.
- The admin table (`VanillaAdmin.RowOf`, `VanillaAdmin.Table.FinishLoad`)
  is built with `escapeAttr` as written. `VanillaAdmin.RowOfFixed` and the
  lemmas about it state what the corrected escaper of the Findings gives.

## Findings

| source | as written | input that shows it | evidently intended | confidence | as-written member | corrected member |
|---|---|---|---|---|---|---|
| admin.js:92-94, 42, 74 | `escapeAttr` escapes only `"` and `'`. The comment goes into `value="..."`, and `saveComment` posts the input's value on blur. | A stored comment `&amp;`: the attribute holds `&amp;`, the input shows `&`, and a blur without editing saves `&`. | Escape `&` as well, so that the input shows the stored comment and an unedited blur writes it back unchanged. | not executed | Html.EscapeAttrDoesNotRoundTrip, VanillaAdmin.AsWrittenBlurRewritesComment | Html.DecodeEscapeAttrFixed, VanillaAdmin.UneditedCommentSaveKeepsRecord |
