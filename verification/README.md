# blooreview.app review funnel — verified model

blooreview.app is a multi-tenant "review funnel". Each business (a tenant) has a slug and a
subdomain. A customer who opens the tenant's page rates the visit. A high rating is sent on to
the business's Google review form. A low rating opens a private feedback form, and the customer
gets a discount code for it. Owners sign up, create their business and read their feedback
through a small set of serverless handlers backed by Postgres. An admin page and a
command-line script maintain the table of configurations embedded in the static site.

This project models the decision logic of that system in Dafny and proves properties about it:

- **Tenant slugs.** Slug generation and its two collision resolvers, and the three base-domain rules (`Slug`, `Provisioning`). The tenant resolvers of the browser scripts and of the page renderer (`Tenant`).
- **The browser funnel.** The state built from the configuration, the rating / redirect / feedback / thank-you transitions, and the discount code (`ReviewFlow`, `Discount`).
- **Configuration.** Selection in the embedded table and the loader's precedence (`BrowserConfig`), the server's per-tenant config script (`ServedConfig`), the create-time merge (`Provisioning`), and the sync script (`SyncConfig`).
- **Request handlers.** These are pure functions over an abstract store:
  - review submission (`ReviewSubmit`);
  - registration and login (`Accounts`);
  - business creation and the admin generator (`Provisioning`);
  - the owner's analytics and review listing (`Analytics`, `OwnerReviews`);
  - the auth router (`AuthRouter`).
- **Small parsers and serialisers.**
  - the `sql` placeholder builder and connection-string cleaning (`Db`);
  - cookie parsing and the cookie/Bearer precedence (`Auth`);
  - Maps URL parsing, category labels and photo-URL resolution (`Maps`, `Setup`);
  - the page renderer's meta-tag rewrite (`Renderer`);
  - the signup page's checks (`Signup`).

`Js` models the JavaScript values the handlers see and the parts of JavaScript's semantics they rely on: truthiness, `||`, `??` and object spread. `Text` holds ASCII string helpers: case mapping, trimming, `indexOf`, `split` and decimal rendering. `Uri` holds `encodeURIComponent` with UTF-8.

External services are parameters of the functions that use them. These are the database's answers and failures, bcrypt, JWT signing and verification, `decodeURIComponent`, the grammar by which `Number()` reads a string, the Google Places service, photo fetches, the sheet web app, and `Math.random()`. Dates are integer day numbers or a (day, month, year) triple. Times are whole seconds. Characters follow ASCII rules for `\w`, `\s` and case mapping. A string is a sequence of Unicode characters; `.length` and `substring` count UTF-16 code units, so a character outside the Basic Multilingual Plane counts twice (`Text.Utf16Length`).

## Model

| member | source | states |
|---|---|---|
| Slug.GenerateSlug | api/admin/generate.js:116-124 | every generated slug holds only `[a-z0-9_-]`, has no `--` and no hyphen at either end |
| Slug.SlugIsFixedPoint | lib/routes/business/create.js:4-12 | a string that already has the slug shape is returned unchanged |
| Slug.GenerateSlugIdempotent | api/admin/generate.js:116-124 | slugifying a slug gives it back |
| Slug.RemoveSpecial | api/admin/generate.js:120 | only word characters, white space and `-` survive, and a string made of those alone is untouched |
| Slug.Hyphenate | api/admin/generate.js:121 | no white space is left; the result is empty exactly when the input is; a leading white space becomes `-`; a string without white space is untouched |
| Slug.CollapseHyphens | api/admin/generate.js:122 | no `--` remains; the result is empty exactly when the input is; the first character is kept; slug characters stay slug characters |
| Slug.CollapseHyphensIdentity | api/admin/generate.js:122 | a string without `--` is untouched |
| Slug.StripEdgeHyphens | api/admin/generate.js:123 | removes the edge hyphens and leaves a string without them alone |
| Slug.RemoveSpecialAppend | api/admin/generate.js:120 | removal works character by character: on a concatenation it is the concatenation of the two removals |
| Slug.HyphenateAppend | api/admin/generate.js:121 | hyphenating a concatenation that does not cut a white-space run is hyphenating each part |
| Slug.SpaceRunHyphen | api/admin/generate.js:121 | a non-empty run of white space becomes exactly one `-` |
| Slug.CollapseHyphensAppend | api/admin/generate.js:122 | collapsing a concatenation that does not cut a hyphen run is collapsing each part |
| Slug.HyphenRunCollapses | api/admin/generate.js:122 | a non-empty run of hyphens becomes exactly one `-` |
| Slug.CandidateInjective | api/admin/generate.js:136 | distinct suffix numbers give distinct candidates `base-N` |
| Slug.CandidateIsNotBase | api/admin/generate.js:136 | no candidate `base-N` equals the base itself |
| Slug.UniqueSlugInConfigs | api/admin/generate.js:129-143 | returns the base when it is not a key; otherwise `base-N` for the smallest free N >= 2; the result is never a taken key |
| Slug.FreeSlugSkipsOne | api/admin/generate.js:134-142 | the admin resolver never hands out `base-1` |
| Slug.UniqueSlugInStore | lib/routes/business/create.js:14-25 | the first of `base`, `base-1`, `base-2`, ... absent from the store; the loop ends over any finite store |
| Slug.AdminBaseDomain | api/admin/generate.js:84-95 | removes the first `admin.` when present, else keeps the last two labels of a dotted host, else `blooreview.app` |
| Slug.LastTwoLabels | api/admin/generate.js:90-95 | the result is the host's last two dot-separated labels |
| Slug.OneDotSuffix | lib/routes/business/create.js:99-104 | a host with one dot is its own two-label suffix |
| Slug.StoreBaseDomain | lib/routes/business/create.js:99-104 | the last two labels of a dotted host, `blooreview.app` for a dotless one |
| Slug.StripFirstLabel | api/business/create.js:122-123 | removes the first label and its dot; a host whose first dot is missing or leading is kept whole |
| Tenant.ThreeSegmentMeans | app.js:80-97 | the matcher accepts exactly the strings of `^[a-z]+-[a-z0-9]+-[a-z0-9]+$`, both directions |
| Tenant.FewHyphensNotThreeSegment | config.js:108-121 | a label with at most one hyphen is never ignored |
| Tenant.ResolveSlug | config-loader.js:6-23 | a non-empty `biz`, lower-cased, wins; else the lower-cased first label of a host with more than two labels unless it has the three-segment shape; else `default` |
| Tenant.AlnumRun | api/index.js:35 | measures the maximal lower-case alphanumeric run at the start |
| Tenant.DeploymentHashMeans | api/index.js:35 | the matcher accepts exactly the labels the renderer's deployment-hash regex accepts, both directions |
| Tenant.RendererSubdomain | api/index.js:26-39 | `default` for two or fewer labels or a deployment-hash label, otherwise the lower-cased first label |
| Tenant.ResolversAgreeWithoutHyphen | api/index.js:26-39 | without a query parameter the two resolvers agree on any first label without a hyphen |
| Tenant.ResolversDisagreeOnThreeSegments | app.js:86-96 | a three-segment label that is not a hash is `default` in the browser but a tenant for the renderer |
| Tenant.CafeIsThreeSegment | app.js:91 | `my-cafe-1` has the ignored shape |
| Tenant.CafeIsNoHash | api/index.js:35 | `my-cafe-1` is not a deployment hash |
| Tenant.KeptLabelResolves | config.js:113-117 | a lower-case first label without the ignored shape is the slug |
| Tenant.BigCNotIgnored | config.js:115 | `bigc-donchan` does not have the ignored shape |
| Tenant.StarbucksNotIgnored | config.js:115 | `starbucks-123` does not have the ignored shape |
| BrowserConfig.SelectConfig | config.js:124 | the table entry for the slug when it is truthy, else the table's `default` entry |
| BrowserConfig.EmbeddedSelection | config.js:3-104 | the table has no `default` key, so an unknown slug selects `undefined` and a known one its entry |
| BrowserConfig.SeededHostSelectsItsEntry | config.js:108-124 | a `bigc-donchan.` host selects the `bigc-donchan` entry |
| BrowserConfig.LoadConfigFromSheets | config-loader.js:25-47 | the sheet's config when the answer is ok and says `ok`; `null` on an HTTP error, `ok` false, unparsable JSON or a thrown fetch |
| BrowserConfig.FinalConfig | config-loader.js:119-121 | sheet config when truthy, else the static entry, else the fallback; the result is always truthy |
| BrowserConfig.LoaderRun | config-loader.js:119-125 | `configLoaded` is false until the final config is set, then true, and the config is then truthy |
| BrowserConfig.SheetFailureFallsBack | config-loader.js:29-46 | a failed sheet request falls back to the static entry or the fallback |
| BrowserConfig.FallbackContents | config-loader.js:93-112 | the fallback is named `Review Tool` with a 10 % discount valid 30 days |
| ReviewFlow.ReviewUrl | app.js:165-167 | a configured URL wins; else base + the encoded place id, which decodes back to the id's UTF-8; else empty |
| ReviewFlow.InitialState | app.js:139-168 | each field is the configured value: strings trimmed, an empty name or base URL replaced by its default (the name exactly when the trimmed configured name is empty); the threshold, percentage and days are `Number(v)`, with 5, 10 and 30 for 0 or unparsable input; the discount is on unless the config says `false`; nothing is chosen or waiting yet |
| ReviewFlow.MissingConfigDefaults | app.js:139-168 | with no config the state is the documented default state |
| ReviewFlow.OpenReviewLink | app.js:249-265 | without a link only the error is set; with one the waiting flag and stored rating are recorded and the page navigates there |
| ReviewFlow.ShowThankYouAsWritten | app.js:373-420 | the thank-you page as written regenerates the discount code and keeps everything else |
| ReviewFlow.ShowThankYou | app.js:373-420 | the thank-you page keeps a code that already exists and creates one only when there is none |
| ReviewFlow.RecordFeedback | app.js:481-502 | the code is derived from the name; one sheet post carries rating, comments, name, slug and that code; nothing is posted without a usable sheet URL |
| ReviewFlow.SubmitWith | app.js:454-471 | a missing rating, a rating of 5 or more, or empty comments set only an error |
| ReviewFlow.ReturnToTab | app.js:527-552 | coming back while waiting clears the flag and its storage key and shows thank-you, with either thank-you page; otherwise nothing changes |
| ReviewFlow.CheckForGoogleReturn | app.js:511-525 | a stored `true` flag with stored rating `5` clears both keys, selects 5 stars and shows thank-you; anything else changes nothing |
| ReviewFlow.ThankYouPagesAgreeWithoutCode | app.js:373-420 | with no code issued yet, as at page load, the thank-you page as written and the corrected one are the same |
| ReviewFlow.Load | app.js:639-646 | the page starts from the configuration's state and the resolved slug, after return detection |
| ReviewFlow.ChooseRatingStep | app.js:555-561 | picking stars records them and clears errors |
| ReviewFlow.ConfirmStep | app.js:563-574 | no rating gives an error; a rating at the threshold goes to Google; a lower one goes to the feedback form |
| ReviewFlow.StepKeepsWaitingRecorded | app.js:454-574 | each event (rating, confirm, submit, visibility change, focus) keeps the waiting flag and its storage key in agreement, with the thank-you page as written or corrected |
| ReviewFlow.RunKeepsWaitingRecorded | app.js:249-574 | every event sequence keeps the waiting flag and its storage key in agreement, with either thank-you page |
| ReviewFlow.LoadedRunsKeepWaitingRecorded | app.js:639-646 | the agreement holds on every run from a freshly loaded page |
| ReviewFlow.FiveStarsBelowThresholdDeadEnd | app.js:458 | with a threshold above 5, five stars reach the feedback form and its submit always refuses them |
| ReviewFlow.FourStarReturnNotDetected | app.js:515 | a 4-star redirect sets the flag, but its return is never detected |
| ReviewFlow.FiveStarReturnDetected | app.js:515 | a 5-star redirect is detected on return |
| ReviewFlow.AnonymousCodesDiffer | app.js:454-509 | as written, an anonymous feedback posts one code and shows a different one |
| ReviewFlow.FeedbackShowsRecordedCode | app.js:454-509 | in the corrected flow the code shown is the code posted |
| ReviewFlow.Recorded | app.js:481-502 | the posted code and the state's code are the same name-derived code |
| ReviewFlow.NamedCodesAgree | app.js:481-509 | with a name given, the shown and posted codes agree even as written |
| Discount.Pad2 | app.js:222-223 | two digits whose value is the number |
| Discount.YearCode | app.js:224 | the last two digits of the year |
| Discount.LastTwoDigits | app.js:224 | the last two characters of a long year are digits worth the year mod 100 |
| Discount.DateCode | app.js:222-225 | six digits for any year from 10 on |
| Discount.DateCodeDecodes | app.js:222-225 | the six digits read back as day, month and year mod 100 |
| Discount.SplitWs | app.js:233 | splitting a trimmed name on white-space runs gives at least one piece |
| Discount.SplitWsSingle | app.js:236 | the name is one piece exactly when it has no white space |
| Discount.NameCode | app.js:233-244 | one or two characters, none lower-case |
| Discount.NameCodeIsInitials | app.js:233-244 | the name code is the first two characters of a single word, or the first letters of the first and last words, upper-cased |
| Discount.TwoWordInitials | app.js:240-243 | for two words, the code is their first letters upper-cased |
| Discount.FirstUnit | app.js:242 | `substring(0, 1)` keeps the first character unless it is astral, and a two-unit prefix keeps it too |
| Discount.AstralInitial | app.js:238 | for a one-word name opening with an astral character, its two code units are the whole name code |
| Discount.DiscountCode | app.js:216-247 | name code (or the random part for a blank name) followed by the date code; the last six characters are digits |
| ServedConfig.Project | lib/routes/business/config.js:30-48 | columns are copied; a truthy stored threshold, percentage, days or sheet URL is copied, a falsy one becomes 5, 10, 30 or ''; the switches are on unless stored as `false`; the review URL decodes to the place id; `min_review` equals the threshold |
| ServedConfig.ConfigRoute | lib/routes/business/config.js:6-58 | 400 without a slug; the empty config for an unknown slug or a failure; else the projected row of the first match |
| ServedConfig.EmitLacksPageKeys | lib/routes/business/config.js:30-48 | the emitted object has exactly the snake_case keys and none the funnel reads |
| ServedConfig.ForeignKeysIgnored | app.js:139-168 | an object without any of the funnel's keys yields the default state |
| ServedConfig.ServedConfigIgnored | lib/routes/business/config.js:30-48 | as written, whatever the row, the funnel ignores the served config |
| ServedConfig.PageConfig | lib/routes/business/config.js:30-48 | the corrected projection carries each column under the funnel's name, the review base, and the stored settings with the defaults 5, 10 and 30 and the `false` switches; its settings equal the served projection's |
| ServedConfig.EmitPage | app.js:139-168 | the emitted object answers each key the funnel reads with the corresponding field |
| ServedConfig.PageConfigRoute | lib/routes/business/config.js:6-58 | the corrected route has the same guards and serves the corrected object |
| ServedConfig.PageConfigRead | app.js:139-168 | the funnel reads the row's name, place id, discount switch and sheet URL from the corrected object, and has a review link whenever the place id is set |
| ReviewSubmit.FirstMatch | api/reviews/submit.js:27-34 | the first row with the given id, or slug, or -1 when none has it |
| ReviewSubmit.SheetUrl | api/reviews/submit.js:49 | the trimmed `sheet_script_url` when it is a string, else empty |
| ReviewSubmit.Submit | api/reviews/submit.js:11-79 | 405, then 400 for missing fields, then 400 for a rating outside [1, 5]; on success exactly one review is appended with name or null; otherwise nothing is stored and nothing mirrored |
| ReviewSubmit.SubmittedForTarget | api/reviews/submit.js:27-70 | the one row belongs to the looked-up business, and the mirror fires exactly when its trimmed sheet URL is non-empty |
| ReviewSubmit.IdTakesPrecedence | api/reviews/submit.js:27-34 | with a business id given, the slug does not matter |
| ReviewSubmit.NothingRecordedOnError | api/reviews/submit.js:35-37 | an unknown business or a failed insert stores and mirrors nothing |
| ReviewSubmit.NotFoundExactly | api/reviews/submit.js:26-37 | 404 exactly when the request is valid, names a business, and no row has that id (or slug, without an id) |
| ReviewSubmit.BracketedRatingStored | api/reviews/submit.js:21-44 | a rating sent as the one-item array `[4]` passes `Number(rating)` as 4 and is stored as 4, not refused |
| ReviewSubmit.ValidSubmissionRecorded | api/reviews/submit.js:39-44 | a valid request for a known business with a working insert stores one review: the business's id, the parsed rating, the name or null, the comments |
| Accounts.FirstWithEmail | lib/routes/auth/register.js:29-32 | the first user with the email, or -1 when none has it |
| Accounts.StringTooShort | lib/routes/auth/register.js:25 | a string password is too short exactly when it has fewer than 8 UTF-16 code units |
| Accounts.ObjectLengthField | lib/routes/auth/register.js:25 | an object password is judged by its own `length` field: `{"length": 3}` is too short, `{}` is not |
| Accounts.AstralPasswordLongEnough | lib/routes/auth/register.js:25 | four astral characters count as eight code units and pass the length check |
| Accounts.Register | lib/routes/auth/register.js:6-65 | 405, then 500 on a failed probe, then 400 for missing fields or a short password (`length` through `Number()` below 8), then 409 for a known email; success appends one `free`, `active` user and answers with its profile and token; every failure leaves the users unchanged |
| Accounts.RegisterKeepsEmailsUnique | api/auth/register.js:34-69 | registration keeps emails unique |
| Accounts.RegisteredTokenIsFree | lib/auth.js:13 | a new account's token carries the `free` tier |
| Accounts.Login | api/auth/login.js:6-58 | 405, 400 for missing fields; success exactly when the first user with the email has a matching password, answering with profile, status and token |
| Accounts.LoginUniform | api/auth/login.js:19-36 | an unknown email and a wrong password give the identical answer |
| Accounts.RegisterThenLogin | api/auth/register.js:46-69 | after registering, the same credentials log in as the new user |
| Auth.TokenPayload | lib/auth.js:8-18 | id and email are copied; the tier defaults to `free` |
| Auth.WeekDigits | lib/auth.js:83 | seven days of seconds render as `604800` |
| Auth.ParseThrows | lib/auth.js:64-75 | parsing fails exactly when a value that would be stored does not decode |
| Auth.ParseNames | lib/auth.js:67-71 | the parsed names are exactly those of pairs with a non-empty name and value |
| Auth.LaterPairWins | lib/auth.js:70 | a later pair overwrites an earlier one of the same name |
| Auth.PairOf | lib/auth.js:68 | the value is the text between the first and second `=` |
| Auth.SinglePair | lib/auth.js:64-75 | a one-pair header parses to that pair |
| Auth.SessionCookieRoundTrip | lib/auth.js:80-85 | the cookie part of the Set-Cookie header parses back to the token |
| Auth.FromBearer | lib/auth.js:49-56 | authenticated exactly when the header starts with `Bearer ` and the rest verifies |
| Auth.UserFromRequest | lib/auth.js:34-59 | a verified `auth_token` cookie wins; otherwise the Bearer header decides; an undecodable cookie header is an error |
| Auth.CookieBeatsBearer | lib/auth.js:37-46 | with a valid cookie the Authorization header does not matter |
| Auth.AnonymousWithoutValidToken | lib/auth.js:58 | without a verifiable token nobody is authenticated |
| AuthRouter.LastNonEmpty | api/auth.js:9-13 | the last non-empty segment, or empty when all are empty |
| AuthRouter.Route | api/auth.js:17-30 | register, login, logout, verify are tried in that order on the lower-cased URL; no match is 404 with the original URL |
| AuthRouter.EndpointIsSegment | api/auth.js:9-13 | the endpoint never contains `/` |
| AuthRouter.RegisterSuffixWins | api/auth.js:17-19 | any URL ending in `/register`, whatever its case, routes to registration |
| Provisioning.MergeConfig | lib/routes/business/create.js:62-70 | the keys are the defaults' plus the client's, and every client key keeps its value |
| Provisioning.MergeIsDefaultsThenClient | api/business/create.js:82-90 | the merge is the defaults overridden by the client config |
| Provisioning.TextConfigSpreadsIndexKeys | lib/routes/business/create.js:62-70 | a string sent as the config is spread character by character under the keys `0`, `1`, ... |
| Provisioning.ApexHostRules | api/business/create.js:122-123 | for `blooreview.app` the two create handlers build different review URLs |
| Provisioning.Failure | lib/routes/business/create.js:117-122 | code 23505 is a 409 conflict; any other failure is 500 |
| Provisioning.Create | lib/routes/business/create.js:28-122 | 405, 500 when requireAuth throws, 401 without a user, 400, then 403 for any owner of a business; success appends one business for the user under the first free slug of the name's slug, its `-1`, `-2`, ... candidates; the row holds the name, place id, and the category, Maps URL, hero image and logo or null, and the defaults overridden by the client's config; every refusal leaves the store unchanged |
| Provisioning.SlugsGrow | lib/routes/business/create.js:52-96 | a successful create keeps slugs unique and each user at one business |
| Provisioning.NewEntry | api/admin/generate.js:48-64 | copies place id and name; a truthy category, Maps URL or hero image is copied, a falsy one becomes `Business`, the place-id URL or ''; the sheet URL is the deployment's or '' |
| Provisioning.EntryKeysForeign | api/admin/generate.js:48-64 | the generated entry has none of the keys the funnel reads |
| Provisioning.Generate | api/admin/generate.js:27-110 | 405, 400 without place id or name; success stores the entry under a free slug, records a truthy hero image, leaves other entries alone and answers with `https://<slug>.<base>` |
| Provisioning.Provision | api/admin/generate.js:39-104 | the accepted request commits exactly the new entry under the free slug and the preview URL |
| Provisioning.GeneratedEntryIgnored | app.js:139-168 | the funnel reads a generated entry as the default state |
| Analytics.Feedback | lib/routes/business/analytics.js:44-52 | exactly the business's reviews under 5 stars |
| Analytics.Distribution | lib/routes/business/analytics.js:65-75 | keys 1 to 5 are present and each count is the number of rows with that rating |
| Analytics.DistributionSums | lib/routes/business/analytics.js:65-75 | over feedback rows the counts sum to the total and 5 stays 0 |
| Analytics.Average | lib/routes/business/analytics.js:57-62 | 0 without rows, else the mean rating |
| Analytics.AverageBounds | lib/routes/business/analytics.js:57-62 | the mean of 1-4 star rows lies between 1 and 4 |
| Analytics.Percentages | lib/routes/business/analytics.js:78-83 | all 0 for no rows, else count / total x 100 |
| Analytics.TimeSeries | lib/routes/business/analytics.js:99-108 | 30 ascending days ending today, each with the number of recent rows on that day |
| Analytics.SeriesWithinTotal | lib/routes/business/analytics.js:86-108 | the series never counts more rows than there are |
| Analytics.Aggregate | lib/routes/business/analytics.js:57-108 | the statistics summarise the rows (`Summarizes`): the total is the row count, the mean and distribution are the rows', the percentages are each count over the total, and the 30-day series lists the last 30 days in order with each day's count of recent rows |
| Analytics.Guard | lib/routes/business/analytics.js:10-41 | each outcome holds exactly when its condition does: 405 for a non-GET, 500 for a failed requireAuth, 401 without a user, 400 for an empty slug, 404 for an unknown slug, 403 when the user does not own the business, open for its owner |
| Analytics.OnlyOwnerSees | lib/routes/business/analytics.js:38-41 | a caller owning no business with the slug, or no user at all, is never let through |
| Analytics.AnalyticsRoute | lib/routes/business/analytics.js:10-124 | a report exactly when the owner is let through and no statement throws; its statistics summarise the business's feedback rows (`Summarizes`); refusals are the guard's, 500 when requireAuth throws; 500 exactly when the business lookup throws or the owner's reviews statement does |
| OwnerReviews.Insert | lib/routes/business/reviews.js:266-290 | inserting into a newest-first list keeps it newest first and adds exactly the row |
| OwnerReviews.SortNewestFirst | lib/routes/business/reviews.js:266-290 | a newest-first permutation of the rows |
| OwnerReviews.RecentFeedback | lib/routes/business/reviews.js:144-160 | exactly the rows of the last 30 days |
| OwnerReviews.ReviewsRoute | lib/routes/business/reviews.js:14-293 | the same guards, 500 when requireAuth throws; 500 exactly when the business lookup throws or the statement the chosen branch runs does; otherwise statistics exactly when `analytics` is set, named after the business and summarising its feedback (`Summarizes`); the fixed empty summary exactly when no feedback is recent; else the feedback newest first |
| OwnerReviews.ListedAreFeedback | lib/routes/business/reviews.js:266-290 | every listed row is the business's and under 5 stars |
| Db.BuildQuery | lib/db.js:84-110 | the text interleaves the pieces with `NULL` or the next `$n`; every defined value is pushed in order |
| Db.PlaceholderBindsItsValue | lib/db.js:95-104 | the placeholder written for a value points at that value |
| Db.PlaceholdersMatchValues | lib/db.js:97-99 | the number of placeholders equals the number of pushed values, numbered 1, 2, ... |
| Db.DistinctPlaceholders | lib/db.js:97-99 | two defined values get different placeholders |
| Db.SupabaseIsCaseInsensitiveMatch | lib/db.js:20-26 | the Supabase test is a case-insensitive `supabase` search |
| Db.CleanConnectionString | lib/db.js:31-42 | a string that needs no TLS is unchanged |
| Db.StripCleans | lib/db.js:33-37 | removing a parameter leaves no `?key=` or `&key=` of it, nor of one removed before |
| Db.CleanedParams | lib/db.js:31-42 | no `sslmode` or `pgbouncer` parameter is left, and `pgbouncer=true` is put back exactly when it was there |
| Db.GetPool | lib/db.js:6-76 | an existing pool is returned; without a connection string nothing is created; a new pool has max 1, the cleaned string and TLS exactly when needed |
| Db.ClosePool | lib/db.js:115-120 | no pool remains |
| Db.PoolCreatedOnce | lib/db.js:6-9 | once created the pool is reused until closed; after closing the next call builds afresh |
| Maps.FindCoords | api/admin/maps.js:72-82 | no coordinates exactly when neither the `!3d..!4d` form nor the `@lat,lng` form occurs |
| Maps.PreciseWins | api/admin/maps.js:72-82 | the `!3d..!4d` form wins over `@` |
| Maps.ParseMapsUrlDetails | api/admin/maps.js:50-88 | nothing for a falsy or undecodable URL; else the cleaned place-name segment and the coordinates |
| Maps.SearchNameShape | lib/routes/business/maps.js:34-58 | the search name has no `+`, `-` or `/` and no edge white space |
| Maps.ExtractPlaceIdFromUrl | api/admin/maps.js:93-115 | the `[A-Za-z0-9_-]` run after the first `place_id:`, or none |
| Maps.PlaceIdAfterPrefix | lib/routes/business/maps.js:60-71 | an id written after `place_id:` is read back |
| Maps.FallbackUrlRoundTrip | api/admin/maps.js:160-164 | the fallback Maps URL gives back its place id |
| Maps.FormatCategoryIsTitle | api/admin/maps.js:213-219 | each `_` becomes a space, each word's first character upper-case and the rest lower-case |
| Maps.FirstResolving | api/admin/maps.js:225-287 | the first of the three attempts that resolves |
| Maps.ResolvePhotoUrl | lib/routes/business/maps.js:133-159 | at most 3 attempts, stopping at the first usable one; the result never carries the API key |
| Maps.Backoff | api/admin/maps.js:268-270 | the pauses total at most 3 seconds |
| Maps.FetchPlaceDetails | api/admin/maps.js:120-172 | HTTP and status errors are failures with a message; success copies the place, labels the category (`Business` without types), falls back to the place-id URL, and never exposes the key |
| Maps.UnresolvedPhotoIsDropped | api/admin/maps.js:278-286 | a photo that never resolves is dropped |
| Maps.TextQuery | api/admin/maps.js:179-185 | the query is the name or `business`; the bias is present exactly when both coordinates are non-zero |
| Maps.SearchPlaceByText | api/admin/maps.js:177-208 | search errors are failures; otherwise the first result's details |
| Maps.MapsHandler | api/admin/maps.js:5-45 | 405, then 500 for a body that cannot be destructured, 400 without URL, 500 without key, in that order; a place id in the URL uses details, else text search |
| Maps.PlaceIdSkipsSearch | lib/routes/business/maps.js:4-32 | with a place id in the URL the text search is never consulted |
| Maps.ZeroCoordinateDropsBias | api/admin/maps.js:183-185 | a zero latitude drops the bias |
| Setup.Sanitize | setup.js:64 | the trimmed string, or empty for a non-string |
| Setup.KeepFirstProperties | setup.js:237-240 | de-duplication keeps each value once, at its first occurrence, in order |
| Setup.QueriesShape | setup.js:237-240 | the queries are the trimmed non-empty name hint, parsed name and URL, without repeats, with the hint first |
| Setup.SearchQueries | setup.js:242-253 | the queries are tried in order until one finds a place with an id |
| Setup.ToCategory | setup.js:180-189 | the mapped category of the first mapped type, else the first type as a label, else '' |
| Setup.LabelAgreesWithServer | setup.js:185-188 | for lower-case types the page's label equals the server's category |
| Setup.LabelsDifferOnUpperCase | setup.js:185-188 | with an upper-case letter inside a word the two labels differ |
| Setup.ReviewUrl | setup.js:267 | `REVIEW_BASE` followed by the encoded place id, which decodes back to it |
| Setup.DisplayName | setup.js:264-266 | the details' name, else the summary's, else the hint, else the parsed name |
| Setup.Locate | setup.js:242-262 | a text hit is always located; a nearby failure only happens with coordinates |
| Setup.ResolveClick | setup.js:213-278 | a blank URL or key sets the guard error; an SDK error is shown; else the located place is shown |
| Setup.ResolvedLinkCarriesId | setup.js:264-267 | the shown review link decodes to the shown place id |
| Setup.ZeroCoordinateBiasDiffers | setup.js:139-141 | the page keeps a zero coordinate as bias while the server drops it |
| Signup.StepMarks | public/signup/signup.js:129-140 | steps before the current one are completed, the current one is active, later ones are plain |
| Signup.PasswordStrength | public/signup/signup.js:143-166 | unrated exactly when empty; otherwise the class follows the character classes met (both letter cases, a digit, another character) against the length band: strong with more than 3, 2, 1 of them below 8, below 12 and from 12 code units (so never below 8), medium with exactly that many, weak with fewer |
| Signup.AstralCharactersCountTwice | public/signup/signup.js:152-154 | length is counted in code units: six characters, two of them astral, rate strong |
| Signup.MixedTwelveStrong | public/signup/signup.js:143-166 | twelve code units with both letter cases and a digit rate strong |
| Signup.MixedEightMedium | public/signup/signup.js:143-166 | eight code units with the same two classes rate medium |
| Signup.StrengthNeverDrops | public/signup/signup.js:152-165 | typing one more character never lowers the rating |
| Signup.AccountSubmit | public/signup/signup.js:169-192 | an error exactly for an empty trimmed email or a password under 8; else the body carries trimmed email, password and name or null |
| Signup.SentRegistrationPassesServerChecks | lib/routes/auth/register.js:21-27 | a body the page sends passes the server's field and length checks |
| Signup.ParseIntOfNatToString | public/signup/signup.js:350-359 | parseInt reads a rendered number back |
| Signup.BuildConfig | public/signup/signup.js:334-366 | the free plan's fixed settings; the pro plan's form values with 10, 30 and 5 replacing 0 or unparsable input |
| Signup.CreateBusiness | public/signup/signup.js:381-403 | an error without business or config data; else the body has exactly the six keys of the page's request: the place id, name, category, Maps URL, the hero image or null, and the settings |
| Signup.CreatedBusinessKeepsSettings | lib/routes/business/create.js:62-70 | the server's merge keeps every setting the page sends |
| Signup.CreateRequestHasRequiredFields | lib/routes/business/create.js:38-50 | a request from the page passes the create handler's field check |
| SyncConfig.FetchJson | sync-config.js:59-90 | a transport error or non-200 rejects, a 200 resolves exactly when the body parses, redirects are followed |
| SyncConfig.FetchSettlesForGood | sync-config.js:64-67 | following more redirects never changes a settled request |
| SyncConfig.SelfRedirectNeverSettles | sync-config.js:64-67 | a URL redirecting to itself never settles |
| SyncConfig.Accepted | sync-config.js:45-50 | exactly the slugs whose answer has `ok` and a truthy `config`, with that config |
| SyncConfig.FetchConfigs | sync-config.js:37-57 | the loop collects exactly the accepted configs |
| SyncConfig.Sync | sync-config.js:133-155 | exit 1 exactly when nothing is fetched; fetched configs override, unfetched existing ones stay; with no arguments only default slugs appear |
| Renderer.MatchFrom | api/index.js:50-57 | the leftmost position where the meta-tag regex matches |
| Renderer.Expand | api/index.js:50-57 | `replace`'s `$` patterns in the replacement; a replacement without `$` is inserted literally |
| Renderer.ExpandEscaped | api/index.js:50-57 | doubling every `$` makes any string insert literally |
| Renderer.ReplaceContent | api/index.js:50-57 | only the first matching tag is replaced, by the expanded replacement; the text before and after it is unchanged |
| Renderer.ReplaceLiteral | api/index.js:50-57 | without `$` in prefix or value the tag becomes prefix, value and the closing quote |
| Renderer.DollarAmpersandRepeatsMatch | api/index.js:50-57 | a value of `$&` writes the matched tag back into its own content |
| Renderer.ReplaceWithOwnContent | api/index.js:50-57 | writing a tag's own content back changes nothing |
| Renderer.ReplaceIdempotent | api/index.js:50-57 | rewriting twice with the same value is rewriting once |
| Renderer.OgImage | api/index.js:46 | the tenant's non-empty hero image, else the host's logo |
| Renderer.OgUrl | api/index.js:47 | `https://<host>` followed by the path, or `/` |
| Renderer.ReplaceKeepsOther | api/index.js:50-57 | rewriting one of two separate tags with a plain value writes that value into it and leaves the other tag's content as it was |
| Renderer.TagsWritten | api/index.js:50-57 | after both rewrites each of two separate tags holds its own plain value |
| Renderer.RenderPage | api/index.js:41-57 | with both tags present and separate, the image tag holds the hero image or logo and the URL tag the page URL; a page without the image tag gets only the URL rewrite; a page without either tag is served unchanged |
| Renderer.NoHeroFileMeansLogo | api/index.js:9-18 | with no hero file every tenant previews the logo |
| Js.SingletonNumber | api/reviews/submit.js:24 | `Number([x])` is 0 for null or undefined, NaN for a boolean, and otherwise `Number(x)` |
| Js.LongArrayNaN | api/reviews/submit.js:24 | `Number` of an array with two or more items is NaN |
| Js.ArrayNumbers | api/reviews/submit.js:24 | `[4]`, `["4"]` and `[[4]]` convert to 4, `[null]` to 0, `[4, 5]` to NaN |
| Js.Spread | sync-config.js:155 | keys of both, the right side's values win, the left side's other values stay |
| Js.SpreadKeys | lib/routes/business/create.js:69 | an object spreads its fields, an array or string its items or characters under index keys, anything else nothing |
| Js.Indexed | lib/routes/business/create.js:69 | the keys are exactly `0` to `n-1` and each holds the item at that position |
| Text.Utf16Length | lib/routes/auth/register.js:25 | `.length` is at least the number of characters and at most twice it |
| Text.Utf16LengthAppend | public/signup/signup.js:152-154 | the length of a concatenation is the sum of the lengths |
| Text.Utf16Prefix | app.js:238 | `substring(0, n)` as far as whole characters: a prefix of at most n code units |
| Text.Utf16PrefixLongest | app.js:238 | no longer prefix fits in n code units |
| Text.Utf16PrefixPlain | app.js:238 | without astral characters the code-unit prefix is the first n characters |
| Uri.EncodeURIComponent | setup.js:267 | the output contains only unreserved characters and `%XX` escapes |
| Uri.EncodeDecodesToUtf8 | lib/routes/business/config.js:38-40 | decoding the escapes gives the UTF-8 bytes of the input |

## Notes

These are places where the code does something unexpected that is not claimed as a bug:

- **A non-string password.** `Accounts.TooShort` follows `password.length < 8`: the value's `length` (a string's code units, an array's items, an object's own `length` field) goes through `Number()` and is compared with 8. So `{"length": 3}` is refused (`Accounts.ObjectLengthField`), and a value with no `length` (a number, say) passes the check, because `undefined < 8` is false.
- **Register URLs.** `AuthRouter.RegisterSuffixWins`: any URL containing `/register` goes to registration.
- **Router targets.** The router imports its handlers from `lib/routes/auth/`. lib/routes/auth/login.js and lib/routes/auth/logout.js are not part of this model, and the verify handler is outside it. `AuthRouter.Route` therefore returns which handler it picks, as an enumeration.
- **Zero coordinates.** The server drops a zero coordinate from the location bias, because it tests truthiness. The setup page tests `!= null` and keeps it (`Maps.ZeroCoordinateDropsBias`, `Setup.ZeroCoordinateBiasDiffers`).
- **Category labels.** The setup page's category label and the server's differ on upper-case input (`Setup.LabelsDifferOnUpperCase`).
- **Tenant rules.** The browser and the renderer disagree on three-segment subdomains (`Tenant.ResolversDisagreeOnThreeSegments`). The two create handlers build different review URLs for the same host (`Provisioning.ApexHostRules`). The admin generator never uses `-1` (`Slug.FreeSlugSkipsOne`); the database resolvers start there.
- **Five-star ratings.** The feedback form refuses 5 stars whatever the threshold is (`ReviewFlow.FiveStarsBelowThresholdDeadEnd`). Return detection only fires for a stored `5` (`ReviewFlow.FourStarReturnNotDetected`).
- **Unknown slugs in config.js.** `config.js` has no `default` entry, so an unknown slug selects `undefined` (`BrowserConfig.EmbeddedSelection`).
- **Generated entries.** The admin generator writes snake_case keys that the funnel does not read (`Provisioning.GeneratedEntryIgnored`). The same mismatch is logged as a finding for the config route below.
- **Photo resolution.** A photo answer that is not ok is retried with no pause. The `lh3` check returns the same URL on both of its branches.
- **Undeclared `config`.** `showThankYouPage` refers to an undeclared `config` after creating the code. `ReviewFlow.ShowThankYouAsWritten` keeps the part before that reference.
- **`requireAuth`.** It returns `getUserFromRequest`'s result unchanged, so `Auth.UserFromRequest` stands for both. The handlers that call it take its result, `AuthError` included: it throws inside their `try`, and the catch block answers 500.
- **Ratings.** `ReviewSubmit.Review` holds the rating as a real, because submit.js stores `Number(rating)` and a fractional 4.5 passes its range check. The analytics rows read ratings as integers, which they are when the table's column type rounds or refuses fractions. The column type is not part of this model.
- **Thank-you variants.** `ReviewFlow.Step` and `ReviewFlow.Run` take a `keepCode` flag. With `false` the thank-you page is app.js as written, and with `true` it is the corrected page. Page load shows no code yet, so it has one page (`ReviewFlow.ThankYouPagesAgreeWithoutCode`).

## Left out

- SyncConfig.FetchJson: the script follows redirects without a bound. The model follows at most `fuel` of them and reports the request unsettled beyond that. `SelfRedirectNeverSettles` shows that some requests never settle.
- Analytics.Average: the handler rounds the mean to one decimal place (`Math.round`, `toFixed`). The model gives the exact rational mean, and the percentages likewise.
- Analytics.TimeSeries: days are whole UTC days of integer seconds. Time zones and daylight saving are not modelled.
- Analytics.AnalyticsRoute: a throwing statement is an input (`Analytics.Fault`), the lookup or the reviews statement. What it throws is not modelled, since the catch block answers 500 to every error.
- OwnerReviews.ReviewsRoute: a throwing statement is an input in the same way.
- OwnerReviews.ReviewsRoute: the insights branch that calls OpenAI (lib/routes/business/reviews.js:172-262) is a foreign service. Only its refusals and its no-recent-feedback answer are modelled.
- Signup.ParseInt: the `0x` hex prefix and non-ASCII white space are not modelled. Leading ASCII white space and the sign are, and the digits are read only at the start (`"a12"` gives none).
- Maps.FetchPlaceDetails: malformed API responses, the photo-reference interpolation when a photo has no reference, and the exact Places request URLs are not modelled. Absent place fields are empty strings.
- Setup.ResolveClick: an exception from the nearby or details request ends the click without a message. The SDK loader's internals, the DOM and the snippet JSON are not modelled.
- Provisioning.Generate: reading and writing `config.js` through the GitHub Contents API, the file's key order, and `JSON.stringify` formatting are I/O. The entry is modelled as the map it serialises.
- Provisioning.Create: the failure of the final insert is an input (`fault`). Errors thrown anywhere else become that same 500 or 409.
- Auth.UserFromRequest: token signing and verification (JWT) and `decodeURIComponent` are oracles.
- Accounts.Register: bcrypt hashing and comparison are oracles. So is the driver's binding of a body value as a query parameter.
- ReviewFlow.Load: `Math.random()` and the current date are parameters. The 500 ms timers, DOM updates, clipboard and share links are not modelled.
- Db.GetPool: pg Pool internals and the pool's connection behaviour are not modelled. The pool is its settings.
- Js.SpreadKeys: an astral character of a spread string is one key here. JavaScript gives each of its two code units a key, each holding half a surrogate pair.
- Discount.NameCode: where `substring` would cut an astral character in half, JavaScript keeps the lone surrogate. The model drops that half (`Discount.FirstUnit`).
- Renderer.RenderPage: the tag contents are stated only for plain values (no `"`, `$` or `<`) and for two tags that do not overlap. For other inputs only `ReplaceContent`'s before, tag and after facts hold.
- Renderer.RenderPage: the error path is not modelled. When reading or rewriting the page throws, api/index.js:67-77 serves the static `_index.html` unchanged, or answers 500 when that read fails too. The model has no failing read.
- Renderer.ReplaceIdempotent: stated for values and prefixes without `$` and values without `"`. A `$` pattern can expand differently on the second pass.
- Js.Get: object lookups ignore the prototype chain. A key such as `constructor` behaves as absent.
- Floating point: numbers are mathematical reals. Of `Number()`, only the grammar that reads a string is an oracle (`parse`). Arrays and objects convert through their text as JavaScript does (`Js.ToNumber`), but a number item is taken to print as text that reads back as the same number.
- The page's DOM code is not modelled: admin/admin.js, the dashboard, login, index and reviews pages, and the DOM parts of app.js, setup.js and signup.js.
- api/business.js is not modelled. It duplicates lib/routes/business/ and does not form one coherent module.
- The thin routers, dev-server.js, the QR code routes and the user's business list are outside this model.

## Findings

| source | as written | input that shows it | evidently intended | confidence | as-written member | corrected member |
|---|---|---|---|---|---|---|
| app.js:454-509 | after anonymous feedback, the thank-you page draws a new random code, so the code shown differs from the code posted to the sheet | a blank name, discounts on, a usable sheet URL, random parts r1 != r2 | the code shown is the code recorded | high, not executed | ReviewFlow.AnonymousCodesDiffer | ReviewFlow.FeedbackShowsRecordedCode |
| lib/routes/business/config.js:30-48 | the served config uses snake_case keys (`name`, `place_id`, ...), while app.js:139-168 reads `businessName`, `googlePlaceId`, ...; every served tenant gets the default state | any stored business row | the served object carries the keys the funnel reads | high, not executed | ServedConfig.ServedConfigIgnored | ServedConfig.PageConfigRead |
