# QR Analytics: a verified model of the plugin's own logic

QR Analytics is a WordPress plugin. It creates QR codes whose target is a tracking URL `<base>/qr/<slug>/`. When that URL is requested, it records a click (device, browser, OS, client IP) and redirects to the code's destination. It also reports statistics on the clicks and can update itself from GitHub releases. This project models the plugin's own code in Dafny and proves properties of the model. The QR encoder library, WordPress and the database engine are outside the model.

One module per source file:

| file | module | models |
|---|---|---|
| text.dfy | `Text` | PHP/JavaScript string helpers: `empty()`, `rtrim`/`ltrim`/`trim`, ASCII lower-casing, `strpos` search, decimal rendering |
| generator.dfy | `Generator` | `QR_Generator`: option defaults, the SVG rendering loop, the error image |
| tracker.dfy | `Tracker` | `QR_Analytics_Tracker`: first-match device/browser/OS classifiers, client-IP header priority |
| database.dfy | `Database` | `QR_Database`: an in-memory store for the two tables, and the WHERE/params and column/format builders |
| admin_settings.dfy | `AdminSettings` | `QR_Admin` settings: localhost test, private-IP filter, local IPs, base URL and its options |
| router.dfy | `Router` | `QR_Router`: tracking URL, rewrite rule, redirect decision |
| admin_ajax.dfy | `AdminAjax` | `QR_Admin` AJAX handlers: save, delete, delete-all, verify data |
| admin_script.dfy | `AdminScript` | `admin.js`: `generateSlug`, the auto-slug guard, the displayed tracking URL |
| updater.dfy | `Updater` | `QR_GitHub_Updater`: release cache, version gate, download URL, plugin-info guard |

Everything that talks to the outside world is a parameter:
- the QR encoder `QRcode::text` is an `Encoder` function returning rows of `'0'`/`'1'`, or failure;
- `filter_var` validation is a predicate;
- `version_compare(..., '>')` is a relation;
- `add_query_arg` and the Markdown conversion are functions;
- the `$_SERVER` array is a map;
- the result of the GitHub request is a `Fetch` value.

Objects whose fields change are classes:
- the database tables are `Database.Store`, with sequences of rows and the two auto-increment counters;
- the updater is `Updater.GitHubUpdater`, with its cached release;
- the update transient is `Updater.UpdateTransient`.

Pure pieces are functions, with lemmas beside them. Loops in the source are methods with loop invariants, proved against the function that specifies them:
- the SVG path loops;
- the local-IP collection and filtering;
- the base-URL options;
- the issue counting of the data check.

## Model

| member | source | states |
|---|---|---|
| Generator.QrGenerator.constructor | includes/class-qr-generator.php:20-25 | with no options: size 400, margin 2, error-correction level M; otherwise the given values |
| Generator.QrGenerator.GenerateSvg | includes/class-qr-generator.php:27-36 | the output is the rendered matrix when the encoder gives a non-empty matrix, else the error image; either way an XML declaration first and `</svg>` last |
| Generator.QrGenerator.RenderSvg | includes/class-qr-generator.php:38-71 | the built string is the reference function `Svg(size, matrix)` |
| Generator.QrGenerator.BuildPath | includes/class-qr-generator.php:52-62 | the nested loops produce exactly the subpaths of the dark modules, in row-major order |
| Generator.QrGenerator.Generate | includes/class-qr-generator.php:82-85 | the static entry point equals constructing with the options and calling generate_svg |
| Generator.OutputIsDocument | includes/class-qr-generator.php:42-78 | every output starts with the XML declaration and ends with `</svg>` |
| Generator.FallbackOnEncoderFailure | includes/class-qr-generator.php:29-79 | a failed or empty encoder result gives the error image, which carries width and height equal to size and the text "QR Generation Error" |
| Generator.ErrorSvg | includes/class-qr-generator.php:73-80 | the fallback image carries width and height equal to size and the text "QR Generation Error" |
| Generator.RenderedDimensions | includes/class-qr-generator.php:39-46 | a rendered SVG has width = height = size and viewBox "0 0 N N" for N matrix rows |
| Generator.RowDarkFacts | includes/class-qr-generator.php:56-60 | one row gives a cell for each '1' and no other, in ascending column order; their number is the count of '1's |
| Generator.DarkPrefixFacts | includes/class-qr-generator.php:53-61 | the first k rows give exactly their '1' cells, in row-major order |
| Generator.DarkModulesExact | includes/class-qr-generator.php:53-62 | a cell is drawn iff its character is '1', each once, row-major, as many subpaths as '1's |
| Generator.PathDataEmpty | includes/class-qr-generator.php:59-64 | the path data is empty iff there are no dark cells |
| Generator.PathElementIffDark | includes/class-qr-generator.php:49-66 | the `<path>` element appears iff some character of the matrix is '1' |
| Tracker.FirstMatch | includes/class-qr-analytics-tracker.php:84-119 | the result is the first rule that matches; none before it matches; None when no rule matches |
| Tracker.FirstMatchIs | includes/class-qr-analytics-tracker.php:84-88 | a rule that matches, with no earlier rule matching, is the one chosen |
| Tracker.DeviceType | includes/class-qr-analytics-tracker.php:39-66 | "unknown" for an empty user agent; else "mobile" iff a mobile keyword occurs, "tablet" iff a tablet keyword occurs but no mobile one, else "desktop" |
| Tracker.UserAgent | includes/class-qr-analytics-tracker.php:69 | the User-Agent header, or "" when it is not set |
| Tracker.Classify | includes/class-qr-analytics-tracker.php:68-91 | "unknown" for an empty user agent; else the name of the first rule that matches, or the fallback when none matches |
| Tracker.Browser | includes/class-qr-analytics-tracker.php:68-91 | get_browser: "unknown", the first matching browser rule, or "other" |
| Tracker.Os | includes/class-qr-analytics-tracker.php:93-122 | get_os: "unknown", the first matching OS rule, or "other" |
| Tracker.ClassifierRanges | includes/class-qr-analytics-tracker.php:39-122 | every classifier answers with one of its listed names, "other" or "unknown" |
| Tracker.UnknownIffEmpty | includes/class-qr-analytics-tracker.php:40-98 | each classifier says "unknown" exactly when the user agent is empty in PHP's sense (also for "0") |
| Tracker.LowerNotEmpty | includes/class-qr-analytics-tracker.php:40-42 | lower-casing does not make a non-empty user agent empty |
| Tracker.ClassifyIgnoresCase | includes/class-qr-analytics-tracker.php:76-112 | the `/i` patterns make classification independent of letter case |
| Tracker.AndroidTabletIsMobile | includes/class-qr-analytics-tracker.php:46-55 | an Android tablet user agent is classified as mobile, because the mobile list is checked first |
| Tracker.ChromeBeforeSafari | includes/class-qr-analytics-tracker.php:75-82 | a Chrome user agent without Edge or Opera markers is "Chrome", although it also says "Safari" |
| Tracker.EdgeFirst | includes/class-qr-analytics-tracker.php:76 | "edg" anywhere gives "Edge" |
| Tracker.Windows11ImpliesWindows10 | includes/class-qr-analytics-tracker.php:101-102 | whatever the Windows 11 pattern matches, the Windows 10 pattern matches too |
| Tracker.Windows11Classified | includes/class-qr-analytics-tracker.php:101-119 | a match of the Windows 11 pattern (`windows nt 10.*build.*(22\|23)`, modelled exactly) gives "Windows 11" |
| Tracker.MacBeforeIos | includes/class-qr-analytics-tracker.php:108-109 | an iPhone or iPad user agent that says "Mac OS X" is classified macOS |
| Tracker.AndroidBeforeLinux | includes/class-qr-analytics-tracker.php:110-111 | Android comes before Linux in the OS list |
| Tracker.BeforeComma | includes/class-qr-analytics-tracker.php:28 | the first field of `explode(',', ...)`: a prefix without a comma, ending at the first comma |
| Tracker.FirstUsable | includes/class-qr-analytics-tracker.php:24-34 | the first header, in the fixed priority order, that is non-empty and gives a valid IP |
| Tracker.ClientIp | includes/class-qr-analytics-tracker.php:12-37 | the candidate of the first usable header, else "0.0.0.0"; the answer is always valid or "0.0.0.0" |
| Tracker.Candidate | includes/class-qr-analytics-tracker.php:26-29 | a value with a comma gives its trimmed first element, which has no comma; a value without one is kept whole |
| Tracker.ForwardedListFirstElement | includes/class-qr-analytics-tracker.php:16-29 | for an X-Forwarded-For list, the trimmed first element is returned when the higher-priority headers are unusable |
| Tracker.ParseUserAgent | includes/class-qr-analytics-tracker.php:124-135 | the three classifications always come from the request, not from the argument; only `raw` uses it |
| Tracker.ParseIgnoresArgument | includes/class-qr-analytics-tracker.php:124-134 | two calls with different arguments agree on everything but `raw` |
| Database.NewCode | includes/class-qr-database.php:66-79 | an inserted row takes the given name, slug and URL; a given description or is_active is written, a missing description becomes "" and a missing is_active 1 |
| Database.NewClick | includes/class-qr-database.php:175-190 | a recorded click is linked to its code; each metadata field is the given value, or "" when that key is missing |
| Database.Updated | includes/class-qr-database.php:81-109 | an updated row keeps its id; each given key replaces its column and every other column keeps its value; an empty update changes nothing |
| Database.AppendColumn | includes/class-qr-database.php:88-107 | one `isset` step: the column and its format are appended iff the field is given, and the invariant "exactly the given columns of lower rank, in order, with their formats" extends to this column |
| Database.AppendColumnStep | includes/class-qr-database.php:88-107 | each step keeps "columns are exactly the given fields, in order, with matching formats" |
| Database.UpdateColumns | includes/class-qr-database.php:85-107 | the columns are exactly the given fields in the source's order with "%d" only for is_active, and the list is empty iff nothing was given |
| Database.NoColumnsIffNothing | includes/class-qr-database.php:85-109 | the update is refused (no columns) exactly when no field is given |
| Database.IndexOfId | includes/class-qr-database.php:121-125 | the position of the row with the id, or None when there is none |
| Database.CountSlug | includes/class-qr-database.php:154-173 | the count is zero iff no row has the slug, the excluded id aside when it is positive |
| Database.ActiveBySlug | includes/class-qr-database.php:127-131 | an active row with the slug, or None when every row with that slug is inactive |
| Database.ClicksNotOf | includes/class-qr-database.php:117 | exactly the clicks of other codes remain |
| Database.CodesNot | includes/class-qr-database.php:118 | exactly the other codes remain |
| Database.ClickCount | includes/class-qr-database.php:192-199 | zero iff no click belongs to the code; never more than all clicks |
| Database.ClickCountAppend | includes/class-qr-database.php:192-199 | one more click raises only its own code's count, by one |
| Database.ActiveCount | includes/class-qr-database.php:312-349 | at most the number of codes; equal iff all are active |
| Database.Store.CodeById | includes/class-qr-database.php:121-125 | a stored row with the id, or None when there is none |
| Database.Store.CodeBySlug | includes/class-qr-database.php:127-131 | an active stored row with the slug, or None |
| Database.Store.SlugExists | includes/class-qr-database.php:154-173 | true iff another row (not the excluded id, when positive) has the slug |
| Database.Store.InsertQrCode | includes/class-qr-database.php:66-79 | a taken slug is refused; otherwise one row is appended with the next id, and the keys stay unique |
| Database.Store.UpdateQrCode | includes/class-qr-database.php:81-110 | refuses an empty update and a slug taken by another row; a non-empty update of an unknown id changes nothing and reports 0 rows, whatever its slug; otherwise only that row changes, to the given fields |
| Database.Store.DeleteQrCode | includes/class-qr-database.php:112-119 | the code's clicks and then the code are removed, nothing else; the result is the number of codes removed |
| Database.Store.RecordClick | includes/class-qr-database.php:175-190 | exactly one click is appended, with the next click id |
| Database.Store.TruncateAll | includes/class-qr-admin.php:578-579 | both tables are emptied and the counters restart at 1 |
| Database.Store.TotalStats | includes/class-qr-database.php:312-349 | total and active counts of the codes, and the click query prepared iff a date filter is given |
| Database.CodesNotKeyed | includes/class-qr-database.php:112-119 | removing a code keeps ids and slugs unique |
| Database.ClicksNotOfKeyed | includes/class-qr-database.php:112-117 | removing clicks keeps click ids unique |
| Database.AppendFilter | includes/class-qr-database.php:208-221 | a WHERE condition and its parameter are appended together, so lists in lock step with the filters so far stay in lock step once this filter is added |
| Database.BuildClickFilters | includes/class-qr-database.php:205-221 | the conditions and parameters grow in lockstep, one pair per given filter |
| Database.BuildDateFilters | includes/class-qr-database.php:320-331 | the same lockstep for the date-only filters |
| Database.ClickFiltersSelection | includes/class-qr-database.php:208-221 | a filter is present iff its argument is non-empty; the id filter comes first |
| Database.JoinCount | includes/class-qr-database.php:223 | joining with " AND " neither adds nor removes placeholders |
| Database.ConditionPlaceholders | includes/class-qr-database.php:209-219 | each condition carries exactly one placeholder |
| Database.CountAllConditions | includes/class-qr-database.php:205-223 | the conditions carry as many placeholders as there are parameters |
| Database.PlaceholderCount | includes/class-qr-database.php:223-232 | the WHERE clause has exactly as many placeholders as parameters |
| Database.ClickFiltersPlain | includes/class-qr-database.php:209-219 | the click filters' columns and operators contain no '%' |
| Database.DateFiltersPlain | includes/class-qr-database.php:323-330 | the date filters' columns and operators contain no '%' |
| Database.Dispatch | includes/class-qr-database.php:231-235 | `prepare` is used iff there are parameters, with exactly those parameters |
| Database.LockstepIs | includes/class-qr-database.php:205-221 | lockstep lists are the conditions and the values of the filter list |
| Database.ClicksBy | includes/class-qr-database.php:201-310 | the breakdown query gets the click filters and is prepared iff one is given |
| Database.ClicksByPlaceholders | includes/class-qr-database.php:223-232 | the breakdown query has as many placeholders as arguments |
| Database.TotalClicksCall | includes/class-qr-database.php:320-342 | the total-clicks query is filtered on clicked_at by the given dates |
| Database.TopCodesArgs | includes/class-qr-database.php:356-379 | the top-codes join conditions and parameters, then the limit last |
| Database.TopCodesPlaceholders | includes/class-qr-database.php:356-379 | the top-codes query has as many placeholders as arguments |
| AdminSettings.IsLocalhost | includes/class-qr-admin.php:39-42 | true iff the home URL's host is localhost, 127.0.0.1 or ::1 |
| AdminSettings.IsPrivateIp | includes/class-qr-admin.php:80-83 | only addresses starting with "192.168.", "10." or "172." are private, and every "192.168." or "10." address is |
| AdminSettings.PrivateRangeIs172Block | includes/class-qr-admin.php:80-83 | the 172 branch of the pattern accepts exactly second octets 16 to 31 |
| AdminSettings.PrivateIpExamples | includes/class-qr-admin.php:80-83 | 192.168.x, 10.x and 172.16-31 addresses pass; 172.15, 172.32, 8.8.8.8 and 100.64 do not |
| AdminSettings.RecordIps | includes/class-qr-admin.php:64-68 | exactly the records that have a valid IPv4 address |
| AdminSettings.CollectRecordIps | includes/class-qr-admin.php:61-70 | the loop appends the valid IPv4 records, in order |
| AdminSettings.ByHostname | includes/class-qr-admin.php:51-57 | the hostname lookup contributes only valid IPv4 addresses |
| AdminSettings.ByServerAddr | includes/class-qr-admin.php:73-78 | SERVER_ADDR contributes only a valid IPv4 address other than 127.0.0.1 |
| AdminSettings.PrivateOnly | includes/class-qr-admin.php:81-83 | exactly the private addresses are kept |
| AdminSettings.Unique | includes/class-qr-admin.php:85 | the same addresses, each once |
| AdminSettings.Gather | includes/class-qr-admin.php:48-78 | the three discovery methods, in order |
| AdminSettings.FilterPrivate | includes/class-qr-admin.php:81-83 | the filtering loop keeps exactly the private addresses |
| AdminSettings.Dedup | includes/class-qr-admin.php:85 | the de-duplicating loop keeps each address once |
| AdminSettings.LocalIps | includes/class-qr-admin.php:47-86 | the result is the unique private addresses of what was discovered |
| AdminSettings.LocalIpsProperties | includes/class-qr-admin.php:47-86 | every local IP is private, valid IPv4 and listed once |
| AdminSettings.QrBaseUrl | includes/class-qr-admin.php:91-99 | the home URL when no base is saved; else the saved base without trailing '/' |
| AdminSettings.RTrimIdempotent | includes/class-qr-admin.php:95 | trimming twice is trimming once |
| AdminSettings.QrBaseUrlIgnoresTrailingSlash | includes/class-qr-admin.php:94-96 | a trailing '/' on the saved base makes no difference |
| AdminSettings.DotsToUnderscores | includes/class-qr-admin.php:123 | every '.' becomes '_', nothing else changes |
| AdminSettings.LanKeyInjective | includes/class-qr-admin.php:123 | distinct addresses get distinct option keys |
| AdminSettings.BaseUrlOptions | includes/class-qr-admin.php:104-132 | "home" is always offered; LAN options only on localhost, one per local IP, each built from that IP |
| AdminSettings.HomeChoice | includes/class-qr-admin.php:111-116 | the "home" entry is home_url() itself, of type "current", captioned by the host, followed by ":" and the port when there is one |
| AdminSettings.LanChoice | includes/class-qr-admin.php:119-127 | a LAN entry of type "lan": the URL is the home scheme, "://", the address and ":" plus the port when there is one; the caption is that URL without its scheme and "://", followed by " (LAN)" |
| Router.QrUrl | includes/class-qr-router.php:75-80 | the tracking URL always ends with '/' |
| Router.QrUrlIgnoresTrailingSlash | includes/class-qr-router.php:77 | trailing slashes on the base make no difference |
| Router.QrUrlDefaultBase | includes/class-qr-router.php:76-78 | without a base, the saved base URL is used, else the home URL |
| Router.RewriteMatch | includes/class-qr-router.php:27-33 | a match captures a non-empty segment without '/' from `qr/<slug>` or `qr/<slug>/` |
| Router.RewriteMatchComplete | includes/class-qr-router.php:27-33 | every such path matches and gives back its segment |
| Router.TrackingUrlRoundTrip | includes/class-qr-router.php:27-80 | the built tracking URL's path maps back to the slug |
| Router.TrackedClickData | includes/class-qr-router.php:60-73 | the click data: the client IP from get_client_ip, the raw User-Agent and Referer headers ("" when unset), the classified device, browser and OS; no country or city |
| Router.HandleRedirect | includes/class-qr-router.php:40-58 | nothing for an empty slug; 301 home and no click for an unknown or inactive slug, with the click counter unchanged in both; else exactly one click for that code under the next click id, the counter advanced by one, and a 302 to its destination |
| Router.TrackClick | includes/class-qr-router.php:60-73 | one click for the code, with the request's data, under the next click id, which then advances by one |
| Router.RedirectCountsOneClick | includes/class-qr-router.php:54-57 | a redirect raises that code's count by one and no other code's |
| AdminAjax.Fields | includes/class-qr-admin.php:345-350 | each missing POST field takes its default (id 0, is_active 1, text ""), and each given field keeps its value |
| AdminAjax.SaveError | includes/class-qr-admin.php:352-358 | the required-fields error comes first, then the slug-in-use error; none iff all fields are given and the slug is free |
| AdminAjax.UpdateData | includes/class-qr-admin.php:360-369 | an update always provides fields, the slug among them |
| AdminAjax.SaveCode | includes/class-qr-admin.php:338-386 | validation failures change nothing; an update with id > 0, or otherwise an insert under the next id, which advances the id counter; the click counter never changes; the reply carries the id and tracking URL |
| AdminAjax.DeleteCode | includes/class-qr-admin.php:388-408 | an id ≤ 0 is refused and changes nothing; otherwise the code and its clicks are deleted; neither id counter changes |
| AdminAjax.DeleteAllData | includes/class-qr-admin.php:561-590 | nothing happens, counters included, unless the confirmation is exactly "DELETE"; then both tables are emptied and both id counters restart at 1 |
| AdminAjax.Problems | includes/class-qr-admin.php:508-524 | each of the four messages is reported iff its condition holds |
| AdminAjax.EmptyDestinationTwoProblems | includes/class-qr-admin.php:516-522 | an empty destination is reported both as missing and as invalid |
| AdminAjax.CodeIssues | includes/class-qr-admin.php:504-532 | at most one issue per code, each with a non-empty problem list |
| AdminAjax.CodeIssuesFromCodes | includes/class-qr-admin.php:504-532 | every listed issue belongs to a code of the table that has problems, under its id and name and with exactly its problems |
| AdminAjax.CodeIssuesCount | includes/class-qr-admin.php:526-531 | the issue count is the number of codes with problems; the problem total is the sum of their problems |
| AdminAjax.CodeIssuesListed | includes/class-qr-admin.php:526-531 | every code with a problem is listed with exactly its problems |
| AdminAjax.IssueName | includes/class-qr-admin.php:527 | the code's own name, or "QR #" followed by decimal digits that read back as the code's id when the name is PHP-empty |
| AdminAjax.Orphans | includes/class-qr-admin.php:534-538 | zero iff every click's code exists |
| AdminAjax.CheckCode | includes/class-qr-admin.php:508-524 | the checks of one code give its problem list |
| AdminAjax.CheckCodes | includes/class-qr-admin.php:504-532 | the loop's issues, checked count and problem count are those of the reference functions CodeIssues, CodesWithProblems and AllProblems |
| AdminAjax.VerifyData | includes/class-qr-admin.php:481-556 | totals, the code issues plus one orphan issue when there are orphans, and the matching message |
| AdminAjax.CleanDataNoIssues | includes/class-qr-admin.php:549-555 | no issues iff no code has a problem and no click is orphaned |
| AdminAjax.NoProblemsNoIssues | includes/class-qr-admin.php:504-532 | codes without problems give no issues |
| AdminScript.KeepSlugChars | admin/js/admin.js:57 | only characters of `[\w\s-]` remain; a one-character input is kept iff it is such a character; without upper case, only slug characters and white space remain; input made only of such characters is unchanged |
| AdminScript.KeepSlugCharsCounts | admin/js/admin.js:57 | every character of `[\w\s-]` survives as often as it occurs in the input |
| AdminScript.KeepSlugCharsAppend | admin/js/admin.js:57 | the filter distributes over concatenation, so the kept characters keep their order |
| AdminScript.CollapseSpaces | admin/js/admin.js:58 | no white space remains |
| AdminScript.CollapseSpacesSlugChars | admin/js/admin.js:56-58 | after lower-casing and filtering, collapsing leaves only slug characters |
| AdminScript.CollapseSpacesIdentity | admin/js/admin.js:58 | text without white space is unchanged |
| AdminScript.CollapseSpacesRun | admin/js/admin.js:58 | each run of white space becomes one '_', the rest is collapsed independently |
| AdminScript.CollapseHyphens | admin/js/admin.js:59 | no "--" remains; the result is empty iff the input is, and starts with '-' iff the input does |
| AdminScript.CollapseHyphensRun | admin/js/admin.js:59 | each run of '-' becomes one '-', with the text before and after it collapsed independently |
| AdminScript.CollapseHyphensSlugChars | admin/js/admin.js:59 | slug characters stay slug characters |
| AdminScript.CollapseHyphensIdentity | admin/js/admin.js:59 | text without "--" is unchanged |
| AdminScript.CollapsedChars | admin/js/admin.js:56-59 | after lower-casing, filtering and both collapses only slug characters remain |
| AdminScript.TrimAndCut | admin/js/admin.js:60-61 | trimming and the cut keep the characters and the lack of "--", leave no leading '-', and give at most 50 characters |
| AdminScript.TrimHyphens | admin/js/admin.js:60 | a piece of the input with no '-' at either end, where everything cut off on either side is '-' |
| AdminScript.Take50 | admin/js/admin.js:61 | a prefix of at most 50 characters, the whole text when it is short enough |
| AdminScript.GenerateSlugShape | admin/js/admin.js:54-62 | a slug has at most 50 characters, all lower-case letters, digits, '_' or '-', no "--" and no leading '-' |
| AdminScript.GenerateSlug | admin/js/admin.js:54-62 | the slug suggested for a name is at most 50 characters long |
| AdminScript.TrailingHyphenOnlyFromCut | admin/js/admin.js:60-61 | a trailing '-' remains only when the 50-character cut ends just after a '-' |
| AdminScript.SlugFixedPoint | admin/js/admin.js:54-62 | a well-formed slug is its own slug |
| AdminScript.GenerateSlugIdempotent | admin/js/admin.js:54-62 | generating again changes nothing unless the cut left a trailing '-' |
| AdminScript.AutoSlug | admin/js/admin.js:64-73 | a slug is filled in iff the slug field is empty and the name is not |
| AdminScript.TrackingUrl | admin/js/admin.js:75-80 | the text is updated iff the element exists and the slug is non-empty |
| AdminScript.TrackingUrlAgreesWithServer | admin/js/admin.js:78 | with no saved base and a home URL without trailing '/', the script shows the server's tracking URL |
| Updater.RequestHeaders | includes/class-qr-github-updater.php:65-75 | an Authorization header is sent iff an access token is configured |
| Updater.LatestReleaseUrl | includes/class-qr-github-updater.php:63 | the GitHub API URL of the repository's latest release, which names the repository |
| Updater.WithToken | includes/class-qr-github-updater.php:146-158 | the URL unchanged without a token, else with the access_token query argument added |
| Updater.StripV | includes/class-qr-github-updater.php:113-186 | the version is a suffix of the tag that does not start with 'v' |
| Updater.StripVPrefix | includes/class-qr-github-updater.php:113 | any number of leading 'v's are removed and nothing else |
| Updater.StripVIdempotent | includes/class-qr-github-updater.php:113 | stripping twice is stripping once |
| Updater.FirstZip | includes/class-qr-github-updater.php:142-152 | the first asset whose name contains ".zip", or none |
| Updater.DownloadUrl | includes/class-qr-github-updater.php:140-160 | the first .zip asset's URL, else the zipball URL, with the token added either way |
| Updater.DownloadPrefersZipAsset | includes/class-qr-github-updater.php:143-150 | with a .zip asset, that asset is downloaded, never the zipball |
| Updater.DownloadFallsBackToZipball | includes/class-qr-github-updater.php:155-159 | with no .zip asset, the zipball is downloaded |
| Updater.Dirname | includes/class-qr-github-updater.php:120-175 | the directory part of the plugin basename |
| Updater.ParseChangelog | includes/class-qr-github-updater.php:212-215 | an empty body (also "0") gives "No changelog available." |
| Updater.UpdateFor | includes/class-qr-github-updater.php:113-132 | an entry exists iff the stripped tag is strictly newer than the installed version; it carries that version, the plugin, slug, URL and download URL, with tested and requires_php empty |
| Updater.SameVersionNoUpdate | includes/class-qr-github-updater.php:113-116 | a release tagged with the installed version, with or without 'v', is not offered |
| Updater.InfoFor | includes/class-qr-github-updater.php:186-204 | the popup shows the plugin header's name, author, author URI, homepage and description, the stripped version, the directory slug, requires 5.0, the running WordPress version, 0 downloads, the release date, the changelog and the download link |
| Updater.GitHubUpdater.GetRepositoryInfo | includes/class-qr-github-updater.php:58-92 | a cached release is returned without a request; otherwise one request, cached on status 200 |
| Updater.AfterLookup | includes/class-qr-github-updater.php:58-92 | the cache after a lookup: a cached release stays; otherwise the release of a status-200 answer, else nothing |
| Updater.GitHubUpdater.ClearUpdateCache | includes/class-qr-github-updater.php:268-271 | the cache is emptied |
| Updater.GitHubUpdater.SetPluginProperties | includes/class-qr-github-updater.php:46-53 | the plugin header and basename are stored; the cache and the request count stay |
| Updater.GitHubUpdater.CheckUpdate | includes/class-qr-github-updater.php:100-135 | unchanged without checked versions; otherwise the header is read, the cache becomes AfterLookup of the old cache and the answer with at most one request, and only the plugin's entry is set, exactly when the cached release is newer |
| Updater.GitHubUpdater.OfferUpdate | includes/class-qr-github-updater.php:116-132 | the plugin's entry is set to the release's entry exactly when the release is newer; no other entry changes |
| Updater.GitHubUpdater.PluginInfo | includes/class-qr-github-updater.php:170-207 | the incoming result unless the action and slug match; when they do, the header is read, the cache becomes AfterLookup with at most one request, and the result is the release's information iff a release is then cached |
| Updater.CachedLookup | includes/class-qr-github-updater.php:59-89 | after a successful lookup a second one gives the same release and makes no request |

## Left out

- The QR symbol encoder (the phpqrcode library) is not part of this model. `QRcode::text` is a parameter returning rows of '0'/'1', or failure.
- Generator.QrGenerator.constructor: the `(int)` casts of size and margin are not modelled; the options are already integers.
- Generator: the margin is passed to `QRcode::text`, so the quiet zone is part of the matrix. The SVG then uses viewBox "0 0 N N" with no separate scaling or offset, and the model does the same.
- SQL execution through `$wpdb` and table creation with `dbDelta`: the tables are an in-memory store. `get_all_qr_codes` and the click-count joins are listed reads whose SQL is not evaluated.
- Database.TopCodesArgs: the `$limit = 10` default of get_top_qr_codes is not modelled; the limit is always passed.
- The database clock is not modelled: created_at, updated_at and clicked_at take their DEFAULT CURRENT_TIMESTAMP values in the tables, and the rows here have no such columns.
- Database.Store.TotalStats and Database.ClicksBy give the query calls, not the rows: date filtering and GROUP BY are not evaluated on the store.
- Database.Store.UpdateQrCode: MySQL's affected-rows count is modelled as 1 when the row changes and 0 when it is unchanged or missing.
- Database.ActiveBySlug, Database.CountSlug, Database.Store.CodeBySlug and Database.Store.SlugExists compare slugs exactly. The tables use the site's default collation, which in MySQL is normally case-insensitive. There `/qr/My-Code/` finds the code "my-code", and a slug differing only in case counts as taken, while the model answers with the 301 to home and with "free".
- AdminSettings.BaseUrlOptions: the options are a map, so the PHP array's order ("home" first, then the LAN entries in get_local_ips order) is not kept.
- Sanitizers (`sanitize_text_field`, `sanitize_title`, `esc_url_raw`, `sanitize_textarea_field`) are treated as the identity. `intval` on the POST fields is modelled on integers.
- Validation by `filter_var` (IP, IPv4, URL) is a predicate parameter. URL validation is `url != "" && syntaxOk(url)`, so only the empty-string case is fixed.
- DNS and hostname lookups, `$_SERVER['SERVER_ADDR']` and `parse_url` results are inputs (the `Discovery` and `HomeUrl` values).
- AdminSettings.Unique: `array_unique` keeps the first occurrence and its key; the model keeps the first occurrence in order and drops the keys.
- WordPress plumbing is not modelled: hooks, AJAX registration, nonce and capability checks, `wp_send_json_*`, `header`/`exit`, options storage, `home_url`, and plugin bootstrap.
- Views and charts (admin/views, Chart.js), with their floating-point averages and percentages.
- AdminScript.GenerateSlug: JavaScript's `toLowerCase` is Unicode-aware. The model lower-cases only ASCII, so characters such as U+0130 or the Kelvin sign, which lower-case to ASCII letters, are dropped instead of kept.
- The DOM handlers of admin.js (input events, preview, clipboard, charts) are not modelled; only the values they compute are.
- The GitHub HTTP request, JSON decoding and the response body are a `Fetch` input. `version_compare` is a relation parameter, and `add_query_arg` is a function parameter.
- Updater.ParseChangelog: the Markdown-to-HTML rewriting of a non-empty body is a function parameter.
- Updater.Dirname: PHP's handling of trailing slashes and of "." paths is not modelled; plugin basenames have neither. `dirname('')` is "" in PHP but "." here. Before `set_plugin_properties` runs, the PHP slug is null while the model's is "", so Updater.GitHubUpdater.PluginInfo compares the requested slug against "." where PHP compares it against "".
- The updater's `after_install` (filesystem move and reactivation), `force_check`, and `delete_site_transient` in `clear_update_cache` are not modelled.
- The constant icons, banners and compatibility fields of the update entry (`UpdateEntry`) and of the plugin-information object (`InfoResult`) are left out; the entry's `tested` and `requires_php` are modelled, always "".
