# Tea and coffee price directory — a Dafny model

This project models the core of a small directory of tea and coffee factories. Factory owners publish a price per kilo. The server keeps every price the owner has published. The public browses, filters and sorts the list and sees the prices on a chart.

## What is modelled

**The server store.** `server/routes/profile.js` and the two schemas hold two collections:
- profiles, one per user;
- an append-only list of price snapshots.

The model has three parts:
- `ProfileSpec` describes each route handler as a pure transition on a database value `Db`.
- `ProfileRoutes.ProfileStore` is a class whose fields are the two collections and the next free id. Its methods perform the handlers step by step, with the same early returns. Each method is proved to perform exactly the transition in `ProfileSpec` and to keep the store's invariant.
- `ProfileLaws` proves what the handlers promise, as lemmas about the transitions.

`ProfileRouter` models the order in which the routes are registered, and Express's first-match dispatch over them. The router is created without options, so literal path segments match regardless of letter case.

**How values are modelled.**
- A price in a request body is a raw JavaScript value: undefined, a string or a number (`JsValue.Raw`).
- `Number(...)`, truthiness and Mongoose's number cast are stated on that raw value. This makes both the `!pricePerKilo` guard and the `Number(a) !== Number(b)` test exact.
- Clocks are natural numbers of milliseconds, passed in as parameters.
- Day keys are `time / 86400000`.
- Profile ids are allocated in creation order. The model lists profiles in id order, which is its own choice (see "## Left out").

**The client pages.** Each page's logic has its own module:
- `Directory`: the directory page's search, commodity filter and in-place price sort, and the chart built from all histories.
- `MarketTicker`: the scrolling ticker of market figures.
- `ProfileForm`: the owner's form, with loading, editing, the validator, and the choice of PUT or POST.
- `RegisterPage`: the password-strength indicator and the checks made before registering.
- `FactoryDetails`: the integer statistics of one factory's history.
- `PageWrapper`: the frame, including the title splitter.

**Edge cases of the code that the model keeps:**
- A positive price is required only as "truthy" on create. A negative price is accepted. The number 0 and "" are refused, but the text "0" passes the check and is stored as a price of 0.
- An update that sets the price to 0, or leaves it out, never appends a snapshot.
- An update body is passed whole to the database. It may move the profile to another `userId`. The unique index refuses a `userId` that another profile already holds, and that refusal is modelled as the 500 it produces.
- A chart row is an object keyed by factory name, under the key "date". A factory named "date" overwrites the row's date. `Directory.Written` states this, apart from the name "__proto__" (see "## Left out").

The modules are in `common.dfy`, `js_value.dfy`, `text.dfy` and `seqs.dfy` (shared helpers), then `profile_model.dfy`, `price_history_model.dfy`, `profile_spec.dfy`, `profile_laws.dfy` and `profile_routes.dfy` (server), then `public_profiles.dfy`, `market_ticker.dfy`, `profile_form.dfy`, `register_page.dfy`, `factory_details.dfy` and `page_wrapper.dfy` (client).

## Model

| member | source | states |
|---|---|---|
| JsValue.ParseInteger | server/routes/profile.js:165 | a text is an integer exactly when it is a digit string or a sign followed by a digit string; a digit string denotes its decimal value, and "-" negates it while "+" keeps it |
| JsValue.ToNumber | server/routes/profile.js:163-165 | `Number(x)`: a number is itself, undefined is NaN, "" is 0, an integer literal is the integer it denotes, and any other non-empty string is NaN |
| JsValue.SignedText | server/routes/profile.js:163-165 | `Number("-5")` is -5, `Number("+007")` is 7, and "5-" and "-" are NaN |
| JsValue.NumberOfText | server/routes/profile.js:163-166 | the text of an integer converts back to that integer, so "340" and 340 never strictly differ |
| JsValue.CastNumber | server/models/Profile.js:24 | Mongoose's cast of a number field: unset only for undefined, "" becomes null, a number casts to itself, a cast value agrees with `Number(x)`, and a cast error happens exactly for a non-empty string that is not a number |
| ProfileModel.ParseCommodity | server/models/Profile.js:18-22 | the enum admits exactly "Tea" and "Coffee" and names back what it admitted |
| ProfileModel.CommodityRoundTrip | server/models/Profile.js:18-22 | parsing a commodity's name gives back that commodity |
| PriceHistoryModel.NewSnapshot | server/models/PriceHistory.js:5-19 | a snapshot keeps the profile id and price; its date defaults to the creation time; both timestamps are the creation time |
| ProfileSpec.ListUpTo | server/routes/profile.js:93 | the listing holds every stored profile below the bound, each under its own id, in strictly increasing id order |
| ProfileSpec.FindOwned | server/routes/profile.js:15 | `findOne({ userId })` returns a listed profile of that user, and returns none only when no listed profile belongs to the user |
| ProfileSpec.NewProfile | server/routes/profile.js:62-72 | a profile is created exactly when the commodity enum and the number cast accept the body; it has the fresh id, the caller as owner, every text field of the body, the named commodity, the cast price and both timestamps at now |
| ProfileSpec.CreateSpec | server/routes/profile.js:26-85 | creating keeps every profile stored under its own id |
| ProfileSpec.Merge | server/routes/profile.js:156-160 | the merge succeeds exactly when every field in the body passes the schema's validators |
| ProfileSpec.UpdateSpec | server/routes/profile.js:142-178 | updating keeps every profile stored under its own id |
| ProfileSpec.DeleteSpec | server/routes/profile.js:184-205 | deleting keeps every profile stored under its own id |
| ProfileLaws.NoSnapshotsForNextId | server/models/PriceHistory.js:5-9 | since every snapshot refers to a stored profile, none refers to the id not yet given out |
| ProfileLaws.OwnedByExact | server/routes/profile.js:54 | the owner lookup finds a profile exactly when the user owns one, and the profile it finds is stored and owned by the user |
| ProfileLaws.MeReturnsOwnProfile | server/routes/profile.js:13-20 | GET /me always answers 200, with the caller's own stored profile, or with null exactly when the caller owns none |
| ProfileLaws.ListIsComplete | server/routes/profile.js:91-98 | GET / answers 200 with every stored profile, each the one stored under its id, in strictly increasing id order and so none twice |
| ProfileLaws.GetOneNotFound | server/routes/profile.js:104-119 | GET /:id answers 404 exactly for an unknown id, and otherwise 200 with that profile |
| ProfileSpec.HistoryOf | server/routes/profile.js:128-130 | the history is sorted by date and holds exactly the snapshots of that profile, with their multiplicities |
| ProfileSpec.PriceChanged | server/routes/profile.js:163-165 | no snapshot for a falsy price; a number or an integer text counts as changed exactly when it differs from the old price; other text is NaN and always counts as changed |
| ProfileLaws.HistoryOrdered | server/routes/profile.js:126-136 | the history holds exactly the snapshots of that profile, with their multiplicities, sorted by date, and is empty exactly when there are none |
| ProfileLaws.CreateRequiresAllFields | server/routes/profile.js:39-51 | POST answers 400 and writes nothing exactly when a field is falsy, including a price of 0 or "" |
| ProfileLaws.CreateConflict | server/routes/profile.js:53-59 | with all fields present, POST answers 409 and writes nothing exactly when the caller already owns a profile |
| ProfileLaws.CreateSucceeds | server/routes/profile.js:61-80 | 201 exactly when the checks, the commodity enum and the number cast pass; then one new profile under a fresh id, owned by the caller, holding the body's texts and commodity, with the cast price, plus one appended snapshot of that price; a 500 writes nothing |
| ProfileLaws.CreateRecordsInitialSnapshot | server/routes/profile.js:74-78 | right after a create, the new profile's history is exactly its one initial snapshot |
| ProfileLaws.InsertKeepsWellFormed | server/models/Profile.js:5-27 | filing a profile with all required fields under a fresh id, for an owner who has none, keeps every profile under its own id and keeps owners unique |
| ProfileLaws.InsertKeepsValid | server/routes/profile.js:61-80 | storing a new profile under the next id, with a snapshot referring to it, keeps the store's invariant |
| ProfileLaws.CreatePreservesValid | server/routes/profile.js:61-80 | create keeps one profile per user and keeps every snapshot referring to a stored profile |
| ProfileLaws.CreateTwiceConflicts | server/routes/profile.js:53-80 | after a successful create, any further complete create by the same user answers 409 |
| ProfileLaws.UpdateGuards | server/routes/profile.js:144-152 | PUT answers 404 for an unknown id and 403 for a non-owner, whatever the body, and writes nothing |
| ProfileLaws.UpdateMergesFields | server/routes/profile.js:154-160 | an owner's PUT succeeds exactly when the body passes the validators and sets no `userId` held by another profile; it changes only the fields present, refreshes `updatedAt` and leaves other profiles alone; any failure writes nothing |
| ProfileLaws.UpdateSnapshotRule | server/routes/profile.js:162-171 | a successful PUT appends one snapshot, with the new price, exactly when the body price is truthy and numerically differs from the old price; otherwise the history is unchanged |
| ProfileLaws.UpdateKeepsHistory | server/routes/profile.js:163-166 | a PUT with no price, 0, the same number or its text leaves the history unchanged |
| ProfileLaws.UpdatePreservesValid | server/routes/profile.js:156-171 | update keeps one profile per user and keeps every snapshot referring to a stored profile |
| ProfileLaws.DeleteGuards | server/routes/profile.js:186-194 | DELETE answers 404 for an unknown id and 403 for a non-owner, and writes nothing |
| ProfileLaws.MatchingWithout | server/routes/profile.js:199 | removing one profile's snapshots leaves every other profile's snapshots exactly as they were |
| ProfileLaws.DeleteCascades | server/routes/profile.js:196-201 | a successful DELETE removes the profile and all its snapshots and leaves every other profile and its history unchanged |
| ProfileLaws.DeletePreservesValid | server/routes/profile.js:196-199 | delete keeps one profile per user and keeps every snapshot referring to a stored profile |
| ProfileRoutes.ProfileStore.Me | server/routes/profile.js:13-20 | performs the GET /me transition and returns the caller's own profile or null |
| ProfileRoutes.ProfileStore.List | server/routes/profile.js:91-98 | performs the GET / transition and returns every stored profile |
| ProfileRoutes.ProfileStore.GetOne | server/routes/profile.js:104-119 | performs the GET /:id transition; 404 exactly for an unknown id |
| ProfileRoutes.ProfileStore.History | server/routes/profile.js:126-136 | performs the history transition; the result is sorted by date and made of that profile's stored snapshots |
| ProfileRoutes.ProfileStore.Create | server/routes/profile.js:26-85 | updates the store in place exactly as the create transition says and keeps the store's invariant |
| ProfileRoutes.ProfileStore.Update | server/routes/profile.js:142-178 | updates the store in place exactly as the update transition says and keeps the store's invariant |
| ProfileRoutes.ProfileStore.Delete | server/routes/profile.js:184-205 | updates the store in place exactly as the delete transition says and keeps the store's invariant |
| ProfileRouter.Dispatch | server/routes/profile.js:6-184 | dispatch picks a registered route of that verb matching the path, literal segments compared without regard to case, or none only when no route matches |
| ProfileRouter.DispatchFirst | server/routes/profile.js:11-13 | when routes match, dispatch picks the one registered first |
| ProfileRouter.MeBeforeId | server/routes/profile.js:6-13 | GET /me in any letter case reaches the caller's own profile, and every other single segment reaches the lookup by id |
| ProfileRouter.MeAnyCase | server/routes/profile.js:6-13 | GET /ME and GET /Me reach the caller's own profile, as GET /me does |
| ProfileRouter.IdFirstShadowsMe | server/routes/profile.js:11-13 | were `/:id` registered first, GET /me would reach the lookup by id |
| ProfileRouter.HistoryRoute | server/routes/profile.js:124-126 | GET /:id/history, "history" in any letter case, reaches the history handler for every id segment, and no other two-segment GET is routed |
| ProfileRouter.WriteRoutes | server/routes/profile.js:142-184 | PUT and DELETE on /:id reach the update and delete handlers |
| ProfileRouter.PublicRoutes | server/routes/profile.js:13-184 | exactly the list, lookup and history reads skip authentication |
| Directory.Reset | client/src/pages/PublicProfiles.jsx:169 | reset sets search "", filter "All" and sort "none" |
| Directory.Kept | client/src/pages/PublicProfiles.jsx:84-85 | the filters keep only profiles of the list, and never more than it has |
| Directory.KeptExactly | client/src/pages/PublicProfiles.jsx:84-85 | the two filters keep exactly the wanted profiles in list order, each as often as in the list |
| Directory.ResetKeepsAll | client/src/pages/PublicProfiles.jsx:169 | after a reset every profile is shown, in list order |
| Directory.SearchIgnoresCase | client/src/pages/PublicProfiles.jsx:84 | typing the search in capitals selects the same profiles |
| Directory.SortByPrice | client/src/pages/PublicProfiles.jsx:86-87 | the in-place sort leaves the array ordered by price, descending or ascending, and a permutation of what it was |
| Directory.SortedCopy | client/src/pages/PublicProfiles.jsx:86-87 | the copy is ordered by price in the chosen direction and is a permutation of the list it was copied from |
| Directory.FilteredProfiles | client/src/pages/PublicProfiles.jsx:82-89 | the result is a permutation of the wanted profiles: in list order for "none", non-increasing price for "priceHigh", non-decreasing for "priceLow" |
| Directory.CollectDays | client/src/pages/PublicProfiles.jsx:50-57 | the nested loops collect every day with a history item, each exactly once |
| Directory.StrictlyAscending | client/src/pages/PublicProfiles.jsx:59 | a sorted list of distinct days is strictly ascending |
| Directory.KeepLatest | client/src/pages/PublicProfiles.jsx:60 | `slice(-7)` of an ascending list is ascending, has at most seven days, and every day it drops is earlier than all it keeps |
| Directory.LatestSeven | client/src/pages/PublicProfiles.jsx:59-60 | sorting the distinct days and keeping seven gives the latest seven days, ascending |
| Directory.FindOnDay | client/src/pages/PublicProfiles.jsx:66 | `find` gives the first history item on that day, or none when there is no such item |
| Directory.EntryVariantsAgree | TeaTracker/src/pages/PublicProfiles.jsx:179 | `r?.price \|\| 0` and `record ? record.price : 0` give the same cell, and a non-zero cell is a price recorded on that day |
| Directory.WriteStep | client/src/pages/PublicProfiles.jsx:63-68 | writing one more factory's cell keeps the row's description: one key per name, with the last profile's cell under a repeated name |
| Directory.BuildRow | client/src/pages/PublicProfiles.jsx:62-70 | the row holds the date plus one cell per factory name, and a later profile with the same name wins |
| Directory.PickDates | client/src/pages/PublicProfiles.jsx:50-60 | the chart dates are at most seven days with history, strictly ascending, and every day with history left out is earlier than all of them |
| Directory.BuildChart | client/src/pages/PublicProfiles.jsx:46-70 | no dates and no rows without profiles; otherwise the latest seven days, ascending, each with its row |
| MarketTicker.MarketHigh | TeaTracker/src/pages/PublicProfiles.jsx:34 | the highest price, attained by some profile and at least every price; 0 for no profiles |
| MarketTicker.MarketLow | TeaTracker/src/pages/PublicProfiles.jsx:35 | the lowest price, attained by some profile and at most every price; 0 for no profiles |
| MarketTicker.UnitsAddUp | TeaTracker/src/pages/PublicProfiles.jsx:41-42 | the Tea and Coffee counts add up to the number of factories |
| MarketTicker.UnitsStep | TeaTracker/src/pages/PublicProfiles.jsx:41-42 | one more profile adds one to the count of its own commodity and nothing to the other |
| MarketTicker.Items | TeaTracker/src/pages/PublicProfiles.jsx:36-44 | the seven items in order, each with its title: the factory count, the average (not computed), the market high and low, the Tea and the Coffee unit counts, which sum to the factory count, and the LIVE status |
| MarketTicker.Strip | TeaTracker/src/pages/PublicProfiles.jsx:45 | the strip is 21 entries long and each third of it is the seven items |
| MarketTicker.StripRepeats | TeaTracker/src/pages/PublicProfiles.jsx:45 | the strip has 21 entries, and entry k is item k mod 7 |
| ProfileForm.Load | client/src/pages/Profile.jsx:29-44 | with no profile the blank form and no id; with one, its id, every text field copied, the commodity's name, its price as a number, and its date text up to the first "T" |
| ProfileForm.LoadRoundTrip | client/src/pages/Profile.jsx:34-43 | the loaded commodity name parses back to the stored commodity and the loaded price converts back to the stored price |
| ProfileForm.Sanitize | client/src/pages/Profile.jsx:52 | the stored contact number is the first (at most) ten digits of the input, in order |
| ProfileForm.SanitizeKeepsNumber | client/src/pages/Profile.jsx:52 | a number of at most ten digits is stored unchanged |
| ProfileForm.SanitizeIdempotent | client/src/pages/Profile.jsx:52 | sanitising twice is sanitising once |
| ProfileForm.HandleChange | client/src/pages/Profile.jsx:49-58 | a change sets only the named field (sanitised for the contact number) and clears only that field's error |
| ProfileForm.ChooseCommodity | client/src/pages/Profile.jsx:139-142 | a commodity button sets the commodity and nothing else |
| ProfileForm.ErrorsOfReported | client/src/pages/Profile.jsx:61-72 | after the first n checks, in the order the page makes them, the map holds the message of each of those rules that fires and nothing else |
| ProfileForm.ReportAll | client/src/pages/Profile.jsx:61-72 | once every rule is checked, the errors are exactly the rules that fire, and the map is empty exactly when none fires |
| ProfileForm.Validate | client/src/pages/Profile.jsx:60-73 | one non-empty message per rule that fires, and none for a rule that does not; valid exactly when no rule fires |
| ProfileForm.UncheckedFields | client/src/pages/Profile.jsx:60-73 | the operating hours and the commodity never affect validation |
| ProfileForm.DateAndPriceEdges | client/src/pages/Profile.jsx:68-69 | today's date passes the date rule; a non-numeric price text passes the price rule; "-5" and 0 fail it |
| ProfileForm.SaveProfile | client/src/pages/Profile.jsx:75-80 | nothing is sent exactly when a rule fires; otherwise PUT to the loaded id, or POST when none was loaded |
| ProfileForm.AsBody | client/src/pages/Profile.jsx:79-80 | the request body carries the form's price as it is and sets no `userId` |
| ProfileForm.UntouchedPriceKeepsHistory | client/src/pages/Profile.jsx:79 | saving a loaded form whose price was not edited adds no snapshot on the server |
| RegisterPage.Criteria | client/src/pages/Register.jsx:115-119 | the four criteria: at least 8 characters, an ASCII capital, a digit, a character that is neither |
| RegisterPage.Score | client/src/pages/Register.jsx:115-120 | the number of criteria met is at most 4 |
| RegisterPage.ScoreCountsCriteria | client/src/pages/Register.jsx:115-120 | the score counts the criteria met, one by one, and is at most 4 |
| RegisterPage.FullScore | client/src/pages/Register.jsx:116-119 | the score is 4 exactly when all four criteria hold, and 0 exactly when none does |
| RegisterPage.PasswordStrength | client/src/pages/Register.jsx:113-150 | no indicator exactly for an empty password |
| RegisterPage.BarsShowScore | client/src/pages/Register.jsx:133-137 | exactly `score` of the four bars are coloured, all in the score's colour |
| RegisterPage.LabelNamesScore | client/src/pages/Register.jsx:122-146 | the caption is WEAK, FAIR, GOOD or STRONG for scores 1 to 4, and empty for 0 |
| RegisterPage.PreCheck | client/src/pages/Register.jsx:194-196 | the request may go out exactly when the email is given and the password has at least 6 characters |
| RegisterPage.PreCheckOrder | client/src/pages/Register.jsx:195-196 | a missing field is reported before a short password |
| RegisterPage.StrongPasswordPasses | client/src/pages/Register.jsx:195-196 | a password scoring 4 always passes the length check |
| RegisterPage.Page.Register | client/src/pages/Register.jsx:193-207 | a failed check sets its message and sends nothing; otherwise one request is sent, success shows the panel with no error, failure shows the server's message or the fallback, and loading ends |
| FactoryDetails.Format | client/src/pages/FactoryDetails.jsx:28-32 | one chart point per snapshot, in order, with its date and price |
| FactoryDetails.StatsOf | client/src/pages/FactoryDetails.jsx:41-53 | no statistics exactly for an empty history |
| FactoryDetails.StatsBound | client/src/pages/FactoryDetails.jsx:43-45 | the highest and lowest figures are prices of the history and bound every price |
| FactoryDetails.ChangeRule | client/src/pages/FactoryDetails.jsx:47-49 | the change is last minus second-to-last, or 0 when that is missing or 0 |
| FactoryDetails.TrendFollowsPrices | client/src/pages/FactoryDetails.jsx:101-102 | the arrow rises exactly when the last price is at least the one compared, and always for a single entry |
| PageWrapper.Layout | client/src/components/PageWrapper.jsx:38-71 | a header exactly when there is a title or subtitle; its eyebrow is the given one, or "MarketCore" when none is given; an `h1` exactly when there is a title, holding the title, with a bottom margin of 14 exactly when there is a subtitle and 0 otherwise; no padding with `noPad` |
| PageWrapper.SplitTitle | client/src/components/PageWrapper.jsx:75-81 | a title without a space is drawn whole; otherwise prefix + " " + last word is the title and the last word has no space |

## Left out

- Authentication: the `auth` middleware, password hashing, token signing and storage are not part of this model. The caller is an already-resolved user id, and an unauthenticated request to a private route is not modelled.
- Wiring: `server/index.js`, `client/src/App.jsx`, the axios instance, `Login.jsx` and `Navbar.jsx` are browser and HTTP plumbing with nothing to state.
- Markup, styles, animation, charts and icons are not modelled.
- Persistence failures other than the schema's own refusals are not modelled. Each would answer 500.
- `populate("userId", "email")` on the list and lookup is not modelled. The model returns the stored profile.
- Concurrency is not modelled. Each request is one atomic step, so the read-then-write race in PUT and the two writes of POST are sequential.
- Floating point: the average price, `toFixed` and `changePercent` are not modelled.
- Date parsing and formatting are not modelled. A date is a clock value in milliseconds, a day is `time / 86400000`, and the display date of a chart point is dropped.
- The GET /me handler's 500 path and malformed id segments (a non-ObjectId, which Mongoose answers with 500) are not modelled. Ids are natural numbers.
- Network calls on the client are parameters: the `/me` reply, the fetched histories and the registration reply. The navigation two seconds after registering and the "saved" banner timers are not modelled.
- JsValue.ToNumber: only integer literals (an optional sign and decimal digits) are numbers. Surrounding whitespace, decimals, exponents and hexadecimal literals give NaN here, though JavaScript accepts them. Prices are integers throughout.
- JsValue.CastNumber: the same restriction applies to Mongoose's number cast.
- ProfileSpec.Merge: the `effectiveDate` Date cast is not modelled. A present date is a non-empty string stored as given.
- ProfileSpec.NewProfile and ProfileLaws.CreateSucceeds: likewise, the Date cast on create is not modelled. An unparsable `effectiveDate` such as "abc" makes `Profile.create` throw and POST answer 500; here it is stored and POST answers 201.
- JsValue.Raw: a body value is undefined, a string or an integer. JSON `null`, booleans, objects and arrays cannot be expressed. For example, `pricePerKilo: null` on PUT is falsy and fails `required` with a 500, and `true` casts to 1; neither case is in the model. The text fields of `ProfileSpec.Body` (all but `pricePerKilo` and `userId`) are optional strings, so a JSON number or boolean there cannot be expressed either: `factoryName: 5` is truthy in the program and Mongoose stores it as "5".
- Directory.BuildRow and Directory.Written: a row is a map from names to cells. In the page the row is a plain object, and assigning to the key "__proto__" goes to the prototype setter, which ignores a number. So a factory named "__proto__" gets no cell in the page, but the model stores its cell under that name.
- ProfileLaws.ListIsComplete and ProfileSpec.ListUpTo: `Profile.find()` promises no order. Listing in increasing id order, which is creation order here, is this model's choice and not a guarantee of the program. What stands regardless of order is that every stored profile is listed once.
- Directory.SortByPrice: the order of profiles with equal prices is not stated.
- Directory.FilteredProfiles: likewise, ties are unordered under "priceHigh" and "priceLow".
- Text.ToLower and Text.ToUpper map ASCII letters only. `toLowerCase` also maps non-ASCII letters.
- RegisterPage.Criteria, RegisterPage.PreCheck and ProfileForm.TooShort: lengths count Unicode scalar values. JavaScript's `length` counts UTF-16 code units, which differ only for characters outside the Basic Multilingual Plane. For example, "abcd😀" has length 6 in JavaScript and passes the 6-character password check, but has length 5 here and fails it. The same applies to the form's 3- and 10-character rules.
- MarketTicker.Items: the AVG PRICE value is a decimal and is not computed.
- FactoryDetails.StatsOf: `avg` and `changePercent` are not computed.
