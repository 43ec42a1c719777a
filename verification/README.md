# softech-project-3 in Dafny

A model of the decision logic of a small client-records system. The system has an Express/Mongoose backend and a React/Zustand frontend. Staff record the websites they built for clients, as engagements with a software name, start and end dates, and a state and district of Nepal. They also record sales inquiries.

What is modelled:

- **Server handlers.** Each handler is a pure function from the requester (`req.user`, absent when unauthenticated), the request and the collection to the status code and the collection afterwards. A collection is a `map` from ObjectId to record; the State and District collections are sequences with a unique id index.
- **Authentication middleware.** Token verification is a parameter, and the middleware is a decision over what it reports and over the user lookup.
- **Client.** The list stores, the Dashboard filters, the AddData form and the Navbar initials are functions over immutable state. The server's answer is a parameter.

| file | module | models |
|---|---|---|
| wrappers.dfy | Wrappers | `Option` |
| js_text.dfy | JsText | `trim`, ASCII `toLowerCase`/`toUpperCase`, `includes`, `split(' ')` |
| js_number.dfy | JsNumber | integer-or-NaN numbers, truthiness, `parseInt`, `Number`, decimal rendering |
| seqs.dfy | Seqs | `filter`, subsequences, sort by an integer key, unique keys |
| common.dfy | Common | ObjectId casting, the signed-in user, status codes, the truthy-or merge of one field |
| website_model.dfy, website_controller.dfy | WebsiteModel, WebsiteController | the Website schema and its four handlers |
| inquiry_model.dfy, inquiry_controller.dfy | InquiryModel, InquiryController | the Inquiry schema, its setters and validators, and its five handlers |
| auth_middleware.dfy | AuthMiddleware | `protectRoute`, `isAdmin` |
| geo_model.dfy, data_controller.dfy | Geo, DataController | State and District schemas, bulk inserts and the sorted lookups |
| list_store.dfy | ListStore | the website and inquiry Zustand stores (the same logic over different endpoints, one generic module) |
| dashboard.dfy | Dashboard | name lookups, filters, `canModify`, dependent district list |
| add_data.dfy | AddData | form transitions, fetch effects, submit payload |
| navbar.dfy | Navbar | `getInitials`, display name |

Behaviours of the code that the model keeps, some of which the schema comments would not suggest:

- **Websites.**
  - A state or district of 0 passes the schema but is refused by the create guard with 400.
  - The update merge uses `||`, so "", 0 and NaN never overwrite a field.
- **Inquiries.**
  - The update merge uses `??`, so "" and [] do overwrite. An empty required text then fails validation, and the update answers 500 with nothing saved.
  - A required text made only of spaces passes the create guard but fails validation once trimmed, which gives 500.
  - For a non-admin, an inquiry stored without an owner makes `inquiry.user.toString()` throw, which gives 500. Only an admin reaches the owner back-fill.
- **All handlers.**
  - An id that is not 24 hex digits makes `findById` throw a CastError, and the handler answers 500, not 404.
  - Hex case does not matter: the id is lower-cased.
- **Bulk insert.** `insertMany` validates every document before inserting any. It then inserts in order and stops at the first duplicate id, so the documents before that one stay inserted.
- **District lookup.** A `stateId` that `parseInt` reads as NaN makes the district query's number cast throw, which gives 500.

## Model

| member | source | states |
|---|---|---|
| WebsiteModel.EndBeforeStartIsValid | backend/models/website.model.js:14-21 | the schema accepts an engagement whose end date is before its start date |
| WebsiteController.CreateWebsite | backend/controllers/website.controller.js:4-29 | 401 without a user; 400 unless all five fields are truthy (state or district 0 refused); 201 exactly when the guard passes and the new id is free; the new record is owned by the requester and carries the body's values; every failure leaves the collection unchanged |
| WebsiteController.GetWebsites | backend/controllers/website.controller.js:32-50 | 401 without a user; an admin gets the whole collection; anyone else gets exactly the records they own, unchanged |
| WebsiteController.MergeWebsite | backend/controllers/website.controller.js:72-76 | each of the five fields takes the body value when it is truthy and keeps the stored value otherwise; owner and timestamps are untouched |
| WebsiteController.CheckAccess | backend/controllers/website.controller.js:53-70 | 401 iff no user; 500 iff the id does not cast; 404 iff the cast id is missing (whatever the role); 403 iff the record exists and the requester is neither admin nor owner; access is granted only to admin or owner |
| WebsiteController.UpdateWebsite | backend/controllers/website.controller.js:53-84 | a refused request answers the check's status with the collection unchanged; a granted one answers 200 and rewrites only the addressed record, through the merge |
| WebsiteController.DeleteWebsite | backend/controllers/website.controller.js:87-111 | a refused request changes nothing; a granted one removes exactly the addressed record and keeps every other record as it was |
| WebsiteController.MissingIsNotFound | backend/controllers/website.controller.js:61-62 | a missing record is 404 for update and delete, admin or not, with the collection unchanged |
| WebsiteController.StrangerIsForbidden | backend/controllers/website.controller.js:65-70 | a non-admin non-owner gets 403 from update and delete and nothing is saved or deleted |
| WebsiteController.FalsyKeeps | backend/controllers/website.controller.js:72-76 | a body of only falsy values ("" / 0 / NaN / missing) leaves the record unchanged |
| WebsiteController.MergeIdempotent | backend/controllers/website.controller.js:72-76 | merging the same body twice equals merging it once |
| WebsiteController.UpdateIdempotent | backend/controllers/website.controller.js:53-84 | repeating an update request, even later, leaves status and collection as the first one did (updatedAt does not move on a no-op save) |
| WebsiteController.HandlersKeepValid | backend/models/website.model.js:3-32 | create, update and delete keep every stored website schema-valid |
| WebsiteController.CreatedIsVisibleToOwnerOnly | backend/controllers/website.controller.js:15-16 | a created website is listed for its creator and for admins, and for no other non-admin |
| InquiryModel.ParseStatus | backend/models/inquiry.model.js:39-43 | the enum accepts exactly "in-talks", "confirmed" and "canceled", and reads each back to its spelling |
| InquiryModel.StatusRoundTrip | backend/models/inquiry.model.js:39-43 | every status value is accepted by the enum in its own spelling |
| InquiryModel.NormalizeEmail | backend/models/inquiry.model.js:14-19 | the stored e-mail is trimmed and lower-case, and it is the lower-cased input with only whitespace dropped from its two ends |
| InquiryModel.TrimAll | backend/models/inquiry.model.js:49-52 | each activity is trimmed, the list keeps its length and order |
| InquiryModel.Cast | backend/models/inquiry.model.js:3-57 | setters and defaults: required texts trimmed, e-mail also lower-cased, a missing date becomes the creation date, a missing status becomes "in-talks", owner kept |
| InquiryModel.BuildInquiry | backend/models/inquiry.model.js:3-57 | a document is stored iff the validators pass (owner present, required texts non-empty after trimming, status in the enum); what is stored is valid and normalised |
| InquiryModel.StatusDefault | backend/models/inquiry.model.js:39-43 | without a status the stored status is "in-talks"; with one it is the one given |
| InquiryModel.RebuildValid | backend/models/inquiry.model.js:4-56 | assigning a valid document's own values back through the setters and validators yields the same document |
| InquiryModel.BlankNameIsRefused | backend/models/inquiry.model.js:4-8 | a name of spaces only is refused by the required validator |
| InquiryController.CreateInquiry | backend/controllers/inquiry.controller.js:4-57 | 401 without a user; 400 unless the nine fields are truthy (comments optional, [] passes); 201 iff the guard, validation and a free id all hold; the stored record is the setters applied to the body's fields with the requester as owner, valid, with the status given; failures change nothing |
| InquiryController.CreatedFromBody | backend/controllers/inquiry.controller.js:38-50 | on 201 each stored field is read off the body: texts trimmed, the e-mail trimmed and lower-cased, the given date, status, activities and comment, the requester as owner |
| InquiryController.GetInquiries | backend/controllers/inquiry.controller.js:60-80 | 401 without a user; otherwise exactly the records whose status matches when the query status is truthy and, for a non-admin, whose owner is the requester |
| InquiryController.CheckAccess | backend/controllers/inquiry.controller.js:83-111 | 401 iff no user; 404 iff the cast id is missing; 403 iff a non-admin asks for another owner's record; 500 iff the id does not cast or a non-admin meets an ownerless record; access only for admin or owner |
| InquiryController.MergeInquiry | backend/controllers/inquiry.controller.js:114-127 | each of the ten body fields keeps the stored value only when the body value is null or missing ("" and [] overwrite); an ownerless record gets the requester as owner |
| InquiryController.UpdateInquiry | backend/controllers/inquiry.controller.js:83-136 | a refused request changes nothing; a failed validation answers 500 and changes nothing; otherwise 200 and only the addressed record is replaced, by a valid one |
| InquiryController.DeleteInquiry | backend/controllers/inquiry.controller.js:139-164 | a refused request changes nothing; a granted one removes exactly that inquiry |
| InquiryController.GetSoftwareSuggestions | backend/controllers/inquiry.controller.js:167-179 | 401 without a user; otherwise the set of software names, containing a name iff some inquiry (of any owner) has it |
| InquiryController.SuggestionsCoverEveryListing | backend/controllers/inquiry.controller.js:173 | every software name any user can list is suggested to every user |
| InquiryController.MissingIsNotFound | backend/controllers/inquiry.controller.js:103-104 | a missing inquiry is 404 for update and delete whatever the role, with nothing changed |
| InquiryController.BackFillOnlyByAdmin | backend/controllers/inquiry.controller.js:106-110 | on an ownerless record a non-admin's update answers 500 and changes nothing; a successful update was made by an admin, who becomes the owner |
| InquiryController.EmptyRequiredTextFails | backend/controllers/inquiry.controller.js:114 | an update with inquirerName "" answers 500 and saves nothing |
| InquiryController.EmptyOptionalOverwrites | backend/controllers/inquiry.controller.js:122-123 | comments "" and activities [] replace the stored values |
| InquiryController.RemergeIsStable | backend/controllers/inquiry.controller.js:114-129 | re-merging a body into the record it produced and saving yields that record again |
| InquiryController.UpdateIdempotent | backend/controllers/inquiry.controller.js:83-136 | sending the same update twice leaves status and collection as sending it once did |
| AuthMiddleware.ProtectRoute | backend/middleware/auth.middleware.js:4-36 | no or empty cookie is 401; the request continues iff the token verifies to a payload with a userId naming a stored user, and then with that freshly loaded user; an error named other than JsonWebTokenError or TokenExpiredError, or a non-ObjectId userId, is 500; every other refusal 401 |
| AuthMiddleware.IsAdminGate | backend/middleware/auth.middleware.js:38-48 | continues iff there is a user with role "admin", otherwise 403 |
| AuthMiddleware.TokenErrorsDiffer | backend/middleware/auth.middleware.js:27-32 | errors named JsonWebTokenError and TokenExpiredError both give 401, with different messages |
| AuthMiddleware.PromotionTakesEffect | backend/middleware/auth.middleware.js:19-25 | a non-admin is stopped at the admin gate, and after their role becomes "admin" the same token passes it |
| Geo.CastState | backend/models/state.model.js:3-16 | a state document is stored iff StateId is a number and both names are non-empty; the code defaults to null |
| Geo.CastDistrict | backend/models/district.model.js:3-15 | a district document is stored iff DistrictId and StateId are numbers and both names are non-empty; the code defaults to null |
| Geo.StateDefaults | backend/models/state.model.js:8-16 | a missing code becomes null; a missing or empty name is refused |
| Geo.DanglingStateIdIsValid | backend/models/district.model.js:12-13 | district validity has no state argument: a valid district is stored whatever states exist, so a StateId no state has is accepted |
| DataController.CastAll | backend/controllers/data.controller.js:12 | the batch casts iff every document casts, element by element |
| DataController.InsertOrdered | backend/controllers/data.controller.js:12 | an ordered insert appends a prefix of the documents; all go in iff the ids stay unique, otherwise it stops at the first taken id; the id index stays unique |
| DataController.BulkInsert | backend/controllers/data.controller.js:4-35 | a non-array body is 400 and inserts nothing; any invalid document is 500 with nothing inserted; 201 iff all are valid and their ids are fresh and distinct, and then exactly they are appended in order; otherwise a prefix stays inserted |
| DataController.CreateStates | backend/controllers/data.controller.js:4-18 | 400 for a non-array body; 201 iff every document casts and their StateIds are new and distinct, and then exactly the cast documents are appended; one invalid document is 500 with nothing inserted; otherwise a prefix of them is kept; the collection stays valid with unique StateIds |
| DataController.CreateDistricts | backend/controllers/data.controller.js:21-35 | 400 for a non-array body; 201 iff every document casts and their DistrictIds are new and distinct, and then exactly the cast documents are appended; one invalid document is 500 with nothing inserted; otherwise a prefix of them is kept; the collection stays valid with unique DistrictIds |
| DataController.GetStates | backend/controllers/data.controller.js:38-45 | every state, each as often as stored, ascending by StateId |
| DataController.GetAllDistricts | backend/controllers/data.controller.js:57-65 | every stored district, in no promised order |
| DataController.GetDistrictsByStateId | backend/controllers/data.controller.js:47-55 | 500 iff `parseInt` of the parameter is NaN; otherwise the districts of that state, ascending by DistrictId |
| DataController.DistrictLookupMembers | backend/controllers/data.controller.js:50 | a district is returned iff it is stored and its StateId equals the parsed parameter |
| DataController.DistrictLookupIsSortedFilter | backend/controllers/data.controller.js:50-59 | with unique DistrictIds, the lookup equals every ascending ordering of getAllDistricts filtered by StateId |
| DataController.StatesOrderIsDetermined | backend/controllers/data.controller.js:40 | with unique StateIds the state list is the only ascending ordering of the collection |
| DataController.RepeatedInsertFails | backend/controllers/data.controller.js:12 | inserting the same states again answers 500 and inserts nothing: there is no upsert |
| ListStore.Fetch | frontend/src/store/useWebsiteStore.js:10-20 | loading is off afterwards; success replaces the list, failure keeps it |
| ListStore.StartFetch | frontend/src/store/useWebsiteStore.js:11 | loading is on while the request is out, the list unchanged |
| ListStore.Create | frontend/src/store/useWebsiteStore.js:23-31 | success puts the server's record in front of the unchanged list; failure changes nothing |
| ListStore.Replace | frontend/src/store/useWebsiteStore.js:38-40 | same length; every element with the id becomes the new record, every other stays in place |
| ListStore.Update | frontend/src/store/useWebsiteStore.js:34-46 | failure changes nothing; success replaces by id |
| ListStore.Delete | frontend/src/store/useWebsiteStore.js:49-59 | failure changes nothing; success leaves no element with the id |
| ListStore.DeleteKeepsOthers | frontend/src/store/useInquiryStore.js:51-54 | after a delete an element remains iff it was there with another id, as many times as it was there, in the original order |
| ListStore.UpdateKeepsOthers | frontend/src/store/useInquiryStore.js:36-41 | an update changes exactly the positions with the id |
| ListStore.UpdateIdempotent | frontend/src/store/useInquiryStore.js:36-41 | applying the same update twice equals applying it once |
| ListStore.DeleteUndoesCreate | frontend/src/store/useInquiryStore.js:25-26 | deleting a just-created record with a fresh id restores the previous list |
| ListStore.DeleteAfterUpdate | frontend/src/store/useInquiryStore.js:36-54 | deleting after updating an id is the same as deleting it |
| Dashboard.StateName | frontend/src/pages/Dashboard.jsx:40 | the name of the first state with that id, as `find` picks it; the id itself when none matches or that name is empty |
| Dashboard.DistrictName | frontend/src/pages/Dashboard.jsx:41 | the name of the first district with that id, as `find` picks it; the id itself when none matches or that name is empty |
| Dashboard.StateNameOfListed | frontend/src/pages/Dashboard.jsx:40 | with unique StateIds a listed state's id resolves to its own name |
| Dashboard.DistrictNameOfListed | frontend/src/pages/Dashboard.jsx:41 | with unique DistrictIds a listed district's id resolves to its own name |
| Dashboard.LabelText | frontend/src/pages/Dashboard.jsx:40-41 | a name shows as itself, an unresolved id as decimal text that reads back to the id |
| Dashboard.FilteredWebsitesAsWritten | frontend/src/pages/Dashboard.jsx:49-60 | the render fails iff some site's state or district has no name; otherwise the result is the intended filter's |
| Dashboard.UnloadedStatesThrow | frontend/src/pages/Dashboard.jsx:23-27 | one website with no states loaded yet makes the page as written throw, while the intended filter lists it |
| Dashboard.FilteredWebsites | frontend/src/pages/Dashboard.jsx:49-60 | with a state (district) filter every result has that state (district) id; never longer than the list |
| Dashboard.FilteredIsSubsequence | frontend/src/pages/Dashboard.jsx:49-60 | the result is an order-preserving subsequence holding exactly the sites that pass all three tests |
| Dashboard.NoFiltersListAll | frontend/src/pages/Dashboard.jsx:53-59 | an empty search and no dropdown choice list every site |
| Dashboard.SearchIgnoresCase | frontend/src/pages/Dashboard.jsx:50-55 | an upper- or lower-cased query selects the same sites |
| Dashboard.ChosenStateSelects | frontend/src/pages/Dashboard.jsx:55-59 | choosing a state option lists exactly the sites of that StateId that pass search and district filter |
| Dashboard.CanModify | frontend/src/pages/Dashboard.jsx:44-46 | true iff the viewer is admin or the owner, under either shape of the user field; an owner-less site only for admins |
| Dashboard.CanModifyAgreesWithServer | frontend/src/pages/Dashboard.jsx:44-46 | the buttons show iff the server's update/delete would pass the ownership check |
| Dashboard.DependentDistricts | frontend/src/pages/Dashboard.jsx:30-37 | empty while no state is chosen; otherwise exactly the districts of the chosen state (every one of them, and no other), as a subsequence of all districts |
| Dashboard.DistrictOptions | frontend/src/pages/Dashboard.jsx:161 | every district while no state is chosen; once a state with an integer id is chosen, an option is offered iff it is a stored district of that state; always a subsequence of all districts |
| Dashboard.OptionsMatchServer | frontend/src/pages/Dashboard.jsx:161 | with a state chosen, the dropdown offers exactly the districts the server's lookup for that state returns |
| Dashboard.DependentMatchesServer | frontend/src/pages/Dashboard.jsx:32 | sorted by DistrictId, the client-side list equals the server's lookup for that state |
| Dashboard.SelectState | frontend/src/pages/Dashboard.jsx:139-141 | a new state clears the district filter and keeps the search |
| Dashboard.SelectDistrict | frontend/src/pages/Dashboard.jsx:156 | only the district filter changes |
| Dashboard.ClearFilters | frontend/src/pages/Dashboard.jsx:101-105 | all three filters become empty |
| Dashboard.StateChangeDropsDistrict | frontend/src/pages/Dashboard.jsx:139-141 | after a state change every site of that state matching the search is listed, whatever its district |
| Dashboard.ClearedListsAll | frontend/src/pages/Dashboard.jsx:101-105 | after clearing, every site is listed |
| AddData.HandleChange | frontend/src/pages/AddData.jsx:37-42 | the named field takes the value and no other changes, except that a new state also empties the district (palika kept) |
| AddData.Effects | frontend/src/pages/AddData.jsx:25-35 | districts are fetched iff the state changed to a non-empty value, palikas iff the district did |
| AddData.MountEffects | frontend/src/pages/AddData.jsx:21-35 | the first render fetches the states and, for the empty form, nothing else |
| AddData.StateChangeFetchesDistrictsOnly | frontend/src/pages/AddData.jsx:25-41 | choosing a new state fetches that state's districts and never palikas |
| AddData.SubmitPayload | frontend/src/pages/AddData.jsx:47-51 | the payload is the form with state and district through `Number`, other fields copied |
| AddData.HandleSubmitAsWritten | frontend/src/pages/AddData.jsx:44-57 | the form is reset and the page goes to "/" whatever the outcome; the list gains the record only on success |
| AddData.HandleSubmit | frontend/src/pages/AddData.jsx:44-57 | on failure the form and page stay; on success reset, go to "/", and the record is prepended |
| AddData.FailedSubmitLosesForm | frontend/src/pages/AddData.jsx:52-55 | the two agree on success; on failure the page as written discards a filled form while nothing was stored |
| AddData.NoStateIsRefused | frontend/src/pages/AddData.jsx:49 | a body built from a form whose state is empty carries state 0, and the create handler answers 400; the page's `required` select normally keeps such a form from being submitted |
| AddData.FilledFormIsStored | frontend/src/pages/AddData.jsx:47-51 | a complete form whose ids are option values creates a website with exactly those ids, owned by the requester |
| Navbar.GetInitials | frontend/src/components/Navbar.jsx:33-36 | at most two characters; without a name the upper-cased first e-mail character, or "U"; with a name no spaces |
| Navbar.InitialsAreWordStarts | frontend/src/components/Navbar.jsx:35 | the initials are the first two word starts of the name, upper-cased; empty pieces add nothing |
| Navbar.BlankNameHasNoInitials | frontend/src/components/Navbar.jsx:34-35 | a name of spaces only is truthy and gives empty initials |
| Navbar.InitialsOfThreeWords | frontend/src/components/Navbar.jsx:35 | for any three space-free words, "a  b c" gives the upper-cased first letters of a and b: the doubled space adds nothing and the third word is cut off |
| Navbar.InitialsName | frontend/src/components/Navbar.jsx:59 | the avatar reads `name`, falling back to `fullName` |
| Navbar.DisplayName | frontend/src/components/Navbar.jsx:102 | `name`, then `fullName`, then "User"; never empty |
| Navbar.Render | frontend/src/components/Navbar.jsx:29-31 | nothing is rendered iff there is no signed-in user; the role badge shows iff the role is "admin" |
| Navbar.NamelessFallback | frontend/src/components/Navbar.jsx:98-102 | with neither name, "User" beside the e-mail initial or "U" |
| Common.CastObjectId | backend/controllers/website.controller.js:61 | an id casts iff it is 24 hex digits, and then to canonical lower case |
| Common.OrText | backend/controllers/website.controller.js:72 | truthy-or: a non-empty value wins, otherwise the current one |
| Common.OrNumber | backend/controllers/website.controller.js:75 | truthy-or: a non-zero number wins; 0, NaN or missing keep the current one |
| JsText.Trim | backend/models/inquiry.model.js:7 | the result has no surrounding whitespace and is no longer than the input |
| JsText.TrimIsFramed | backend/models/inquiry.model.js:7 | the input is the result with whitespace around it |
| JsText.TrimIdempotent | backend/models/inquiry.model.js:7 | trimming twice is trimming once |
| JsText.TrimEmptyIff | backend/models/inquiry.model.js:6-7 | a text trims to empty iff it is all whitespace |
| JsText.LowerTrimIdempotent | backend/models/inquiry.model.js:17-18 | the e-mail normalisation is idempotent |
| JsText.Includes | frontend/src/pages/Dashboard.jsx:55 | true iff the query occurs at some offset |
| JsText.HeadsOfSplitIsWordStarts | frontend/src/components/Navbar.jsx:35 | first characters of the space-split pieces are exactly the word starts |
| JsNumber.ParseIntRoundTrip | frontend/src/pages/Dashboard.jsx:56-57 | `parseInt` reads back every integer from its decimal rendering |
| JsNumber.ToNumberRoundTrip | frontend/src/pages/AddData.jsx:49-50 | `Number` reads back every integer from its decimal rendering |
| JsNumber.EmptyText | frontend/src/pages/AddData.jsx:49-50 | `Number("")` is the falsy 0 and `parseInt("")` is NaN |
| Seqs.SortByKey | backend/controllers/data.controller.js:40 | ascending by key and a permutation of the input |
| Seqs.SortedUniqueIsDetermined | backend/controllers/data.controller.js:40-50 | two ascending orderings of the same records with unique keys are equal |
| Seqs.FilterIsSubsequence | frontend/src/store/useWebsiteStore.js:53 | filtering keeps the order of what it keeps |
| Seqs.FilterMembers | frontend/src/store/useWebsiteStore.js:53 | an element is kept iff it is in the input and passes |

## Findings

| source | as written | input that shows it | evidently intended | confidence | as-written member | corrected member |
|---|---|---|---|---|---|---|
| frontend/src/pages/Dashboard.jsx:40-52 | a name lookup that finds nothing returns the numeric id, and the filter calls `toLowerCase` on it, which throws; the filter runs on every render, also while the state and district lists are still loading | one website with state 3 while the states list is still empty | an unresolved id is shown and searched as its number, as the table cells already show it | medium, not executed | Dashboard.FilteredWebsitesAsWritten (counterexample Dashboard.UnloadedStatesThrow) | Dashboard.FilteredWebsites |
| frontend/src/pages/AddData.jsx:44-57 | `createWebsite` in the store catches every error, so the page's `catch` never runs and the form is reset and the page left even when creation fails | a filled form while the server answers 400 or 500 | on a failed creation the user stays on the page with what they typed | medium, not executed | AddData.HandleSubmitAsWritten (lemma AddData.FailedSubmitLosesForm) | AddData.HandleSubmit |

## Left out

- Persistence mechanics: MongoDB connection, `save`/`find`/`insertMany` internals. A collection is a map or a sequence, and a unique-index violation is an error outcome. Each handler is one atomic step; the read-modify-write race in update is not modelled.
- Token signing, cookie flags and `jwt.verify` itself: verification is a parameter mapping a token to its outcome (backend/libs/utils.js is not part of this model).
- Signup, login and role promotion: the auth controller is not part of this model. Promotion appears only as a change of the users map.
- Palika routes and handlers: the routes import palika handlers that the data controller does not define. AddData's palika field is kept only as form text, and the palika fetch appears only as a request.
- AddData.Effects: the data store defines neither `palikas` nor `fetchPalikasByDistrictId`, which AddData.jsx:10 destructures. So `palikas.map` (AddData.jsx:214) throws on the page's first render, and the district effect (AddData.jsx:33) would call an undefined function. The model treats the page as if it rendered and records only which fetches the effects ask for; the failure to render is not modelled.
- AddData.HandleSubmit: the browser's `required` and `disabled` form validation (AddData.jsx:87-208) is not modelled, so submit is modelled also for forms the browser would not submit, such as one with no state chosen.
- Navbar.GetInitials: strings are sequences of Unicode code points, while `charAt(0)` and `slice(0, 2)` count UTF-16 code units. For a name piece that starts with a character beyond U+FFFF (an emoji, say), the source yields a lone surrogate and the model the whole character.
- The inquiry action log and the pages that use it, and the auth store, data store and axios instance: these are pass-throughs with no decision logic.
- Rendering, routing, toasts, the Navbar dropdown and click-outside handling, the Dashboard's inline edit (`startEdit`/`saveEdit`/`cancelEdit`, which rebuild ISO dates) and its delete confirmation dialog.
- Dates: dates are opaque text. A date text that does not parse would be a cast error (500) in the source; the model stores any non-empty text. `Date.now` and `timestamps` come in as a parameter.
- Numbers: fractions, the 2^53 precision limit, exponents and `Infinity` are not modelled. `parseInt`'s hex prefix is recognised; `Number` covers blank text, optionally signed decimal integers and `0x` hex.
- Case mapping is ASCII-only; non-ASCII letters are left unchanged.
- `isAdmin()` on the client is read as `role == "admin"`: the auth store file shown defines no `isAdmin`.
- Number-typed body fields sent as other JSON types (booleans, arrays) and string fields sent as non-strings are not modelled: a body field is a string or number, or missing/null.
- AuthMiddleware.ProtectRoute: a `userId` claim that is not a string (a number, say) is not modelled.
- Dashboard.DistrictOptions: the options are read as the state filter's effect (Dashboard.jsx:30-37) leaves the shared `districts` state; the render before that effect runs still shows the previous list, and the inline editor's state select (Dashboard.jsx:259-262) also overwrites `districts` with another state's districts, which the model does not follow.
- Dashboard.FilteredWebsites: the name lookups use the first matching state or district, as `find` does; duplicate ids in the loaded lists are not excluded.
