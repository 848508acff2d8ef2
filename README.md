# Website maintenance dashboard — a Dafny model of its decision logic

The dashboard tracks two families of websites a team maintains. WordPress sites are due for a
check every week, starting Monday 00:00. SupportPal sites are due every month, starting on the
1st at 00:00. Each site has a log of check-ins. The pages show a status badge for every site,
group the sites by server, count what is pending, diff the plugins and versions between two
check-ins, and export a CSV report. The API routes create and delete sites, list them with
their latest check-in, probe a site's URL for uptime, and send a LINE reminder, when requested, naming the WordPress
sites not yet checked this week.

The model covers the logic behind all of this; the network, database and time are abstracted as
listed below.

- `JsValues`, `JsDate`: the JavaScript value and `Date` operations the code uses.
  - Truthiness and `||` defaults on possibly-null strings.
  - `trim`, `toLowerCase`, `includes`, `join` and `split`.
  - `getDay`, `getDate`, `setDate`, `setHours`, and `new Date(y, m, 1)` over integer local milliseconds.
  - A civil-calendar conversion with its round trip proved.
- `Cadence`: the weekly and monthly rules, each stated once as a boundary function. Lemmas show
  that the step-by-step `Date` computation, copied into every page and route, gives these boundaries.
- `Records`: sites, check-in logs with the per-family version fields, plugins and the status labels.
- `Sequences`: filtering and the group-by-key reduce the pages use, with their counting lemmas.
- `WpPage`, `SpPage`, `ReportsPage`, `DashboardPage`: the page logic. The plugin list editor is a
  class whose methods change its list in place.
- `SiteStore`, `WebsitesRoute`, `SupportPalWebsitesRoute`: an in-memory pair of tables (sites, logs)
  standing in for the database, and the `POST`/`DELETE`/`GET` routes of both families over it.
- `NotifyRoute`, `UptimeRoute`: the reminder and uptime routes, with the outside calls as parameters.
- `TopNavbar`: the page title derived from the path.

Time is an integer count of local milliseconds since 1970-01-01 00:00, so the day number is
`t / 86400000` and 1970-01-01 is a Thursday. "A check is complete this week" means its date is
at or after `Cadence.WeekStart(now)`. "Complete this month" means at or after `Cadence.MonthStart(now)`.

Where the code and the documented intent differ, the model follows the code:
- The reminder route answers 500 when the LINE request throws, because the send is awaited inside the `try`.
- The CSV export quotes the note without escaping inner quotes, so no CSV round trip is claimed.
  Only the line structure is proved.
- The reminder handler lives in `src/app/api/notify/rount.js`, which the App Router does not serve
  (see "## Findings"); the model states what the handler answers once it is served.

## Model

| member | source | states |
|---|---|---|
| Cadence.WeekStart | src/app/wp/page.js:163-168 | The week start is a midnight, is a Monday, and lies within the 7 days ending at `now` |
| Cadence.MondayAsWrittenIsWeekStart | src/app/wp/page.js:165-168 | The `getDate() - day + (day === 0 ? -6 : 1)`, `setDate`, `setHours(0,0,0,0)` computation gives the week start, Sundays included |
| Cadence.WeekStartOnSunday | src/app/wp/page.js:166 | On a Sunday the week started six days before today's midnight |
| Cadence.WeekStartSameWeek | src/app/page.js:45-48 | Every instant of a week yields the same Monday, so the rule depends only on the week |
| Cadence.MonthStart | src/app/sp/page.js:55-56 | The month start is a midnight, falls on day 1 of the same year and month as `now`, is at or before `now`, and `now` is less than a month-length later |
| Cadence.StartOfMonthAsWrittenIsMonthStart | src/app/sp/page.js:55-56 | `new Date(getFullYear(), getMonth(), 1)` with `setHours(0,0,0,0)` gives the month start |
| Cadence.MonthStartSameMonth | src/app/page.js:56-57 | Two instants of the same calendar month have the same month start |
| Cadence.NeverCheckedDueWeekly | src/app/api/websites/route.js:43 | A check dated at the epoch is not complete in any week after the first week of 1970 |
| Cadence.NeverCheckedDate | src/app/api/websites/route.js:43 | The epoch creation date is 1970-01-01 |
| Cadence.NeverCheckedDueMonthly | src/app/api/supportpal/websites/route.js:40 | A check dated at the epoch is not complete in any month after January 1970 |
| JsDate.SetDateMovesByDays | src/app/wp/page.js:167 | `setDate(day)` moves the instant by whole days from today's date to `day`, keeping the time of day, overflowing past month ends |
| JsDate.CivilRoundTrip | src/app/sp/page.js:55 | Converting a day number to year, month and day and back gives the same day number |
| JsDate.FirstOfMonth | src/app/sp/page.js:55 | Going back `day - 1` days lands on the 1st of the same year and month |
| JsValues.TrimEmptyIff | src/app/wp/page.js:34 | `trim()` yields the empty string exactly when every character is whitespace |
| JsValues.ToLower | src/app/wp/page.js:274-277 | Lower-casing keeps the length and maps each character on its own |
| JsValues.IncludesIff | src/app/wp/page.js:275-277 | `includes(sub)` holds exactly when `sub` occurs at some position |
| JsValues.NatToStringRoundTrip | src/app/api/notify/rount.js:37 | The decimal text of a count reads back as that count |
| JsValues.JoinAvoids | src/app/reports/page.js:74-75 | A character found in no part and not in the separator is not in the joined text |
| JsValues.SplitJoin | src/app/reports/page.js:74-75 | Splitting the join of parts that hold no separator gives the parts back |
| JsValues.SplitAtFirstSeparator | src/app/reports/page.js:80 | `split` cuts at the first separator: the text before it is the first piece |
| Sequences.Filter | src/app/wp/page.js:288 | A filter keeps only matching elements and is never longer than its input |
| Sequences.FilterKeeps | src/app/page.js:61 | Every matching element is kept |
| Sequences.FilterSplit | src/app/wp/page.js:287-289 | Filtering by a test and by its negation gives counts adding up to the total |
| Sequences.GroupBy | src/app/wp/page.js:273-285 | The reduce that pushes each kept element into the array of its key yields, for every key met, exactly the kept elements with that key in input order, and no other key |
| Sequences.KeptInOwnBucket | src/app/wp/page.js:281-283 | A kept element is in the group of its own key |
| Sequences.BucketMembers | src/app/wp/page.js:279-283 | Every element of a group was kept and has that group's key |
| Sequences.GroupSizesSum | src/app/wp/page.js:273-285 | The group sizes add up to the number of kept elements: each sits in exactly one group |
| WpPage.FormatUrl | src/app/wp/page.js:24-27 | A falsy URL gives `#`; otherwise the link starts with `http` and ends with the URL |
| WpPage.FormatUrlKeepsScheme | src/app/wp/page.js:26 | A URL is linked unchanged exactly when it starts with `http`; otherwise `https://` is put in front |
| WpPage.FormatUrlIdempotent | src/app/wp/page.js:24-27 | Formatting a formatted link changes nothing |
| WpPage.PluginManager.HandleAdd | src/app/wp/page.js:33-39 | A blank name changes nothing; otherwise exactly one plugin is appended with the untrimmed name, version `latest` when none was typed, and both inputs are cleared |
| WpPage.PluginManager.HandleDelete | src/app/wp/page.js:41-44 | Exactly the entry at the index is removed, the others keep their order; an out-of-range index changes nothing |
| WpPage.WithoutIndexRemovesOne | src/app/wp/page.js:42 | Filtering out one index is the list without that entry, or the whole list when the index is out of range |
| WpPage.PluginManager.HandleVersionChange | src/app/wp/page.js:46-50 | The length and every name stay; only the entry at the index gets the new version |
| WpPage.ParsePluginsCases | src/app/wp/page.js:151-157 | An absent or empty string gives no plugins; text not starting with `[` is one plugin of that name with version `-`; text that fails to decode gives no plugins |
| WpPage.ParsePluginsRoundTrip | src/app/wp/page.js:151-157 | A list saved as JSON reads back as the same list; this follows from the assumption that the decoder inverts the encoder on that text |
| WpPage.EmptyForm | src/app/wp/page.js:269-271 | Every text field of the reset form is empty and its plugin list is empty |
| WpPage.OpenEditModal | src/app/wp/page.js:190-207 | The form holds the site's name, URL and server. Without a log, every version, the theme and the note are `""` and there are no plugins. With one, it holds the latest log's note and parsed plugin list, and each version and the theme is the logged value when truthy, else `""` |
| WpPage.OpenLogModal | src/app/wp/page.js:248-261 | The form starts with an empty note and the site's server. Without a log, every version and the theme are `""` and there are no plugins. With one, it holds the latest log's parsed plugin list, and each version and the theme is the logged value when truthy, else `""` |
| WpPage.HandleSaveWebsite | src/app/wp/page.js:209-234 | Nothing is sent exactly when the name or the URL is empty. Otherwise, editing a site sends a `PUT` with its id and the form's name, URL and server, and adding a site sends a `POST` with the whole form and its plugin list encoded as JSON |
| WpPage.EditUnchangedKeepsSite | src/app/wp/page.js:190-215 | Opening a site for editing and saving it unchanged sends back its own identity fields |
| WpPage.HandleSaveLog | src/app/wp/page.js:236-239 | The posted check-in is the form with the site's id and its plugin list encoded as JSON |
| WpPage.LogCarriesPluginsOver | src/app/wp/page.js:236-261 | Saving the log modal unedited posts an empty note and a plugin text that reads back as the site's last plugin list; this follows from the assumption that the decoder inverts the encoder on that text |
| WpPage.GetStatusIsWeeklyRule | src/app/wp/page.js:159-173 | No log gives Pending; with a log, Completed exactly when the latest check is in this week, Maintenance Due exactly when it is not |
| WpPage.NeverCheckedShowsNever | src/app/wp/page.js:420 | A check-in at the epoch creation date is shown as "Never" |
| WpPage.GroupedWebsites | src/app/wp/page.js:273-285 | The groups are exactly the server groups of the matching sites, each holding those sites in input order |
| WpPage.GroupedSiteLocation | src/app/wp/page.js:274-283 | A site is kept exactly when the lower-cased term occurs in its lower-cased name, URL or server; a kept site is in the group of its server, or "Unassigned Server" without one |
| WpPage.EmptySearchKeepsAll | src/app/wp/page.js:274-277 | The empty search keeps every site |
| WpPage.GroupedSizesAddUp | src/app/wp/page.js:273-285 | The group sizes add up to the number of matching sites |
| WpPage.PendingSitesCountsTheRest | src/app/wp/page.js:287-289 | The pending tally counts exactly the sites not labelled Completed, and it adds with the completed tally to the total |
| SpPage.GetStatusIsMonthlyRule | src/app/sp/page.js:47-63 | No log gives Pending; with a log, Completed exactly when the latest check is in this month, Maintenance Due exactly when it is not |
| SpPage.CreatedSiteIsDue | src/app/sp/page.js:58-62 | A site whose latest check is the epoch creation date is Maintenance Due in every month after January 1970 |
| SpPage.LastCheckedLabelCases | src/app/sp/page.js:203 | Without a log, or with the epoch creation date, the card says "Waiting for check"; a check from 2000 on is shown formatted |
| SpPage.GroupedWebsites | src/app/sp/page.js:110-115 | The groups are exactly the server groups of all sites, each holding its sites in input order |
| SpPage.GroupsCoverAllSites | src/app/sp/page.js:110-115 | Every site is in the group of its server, or "Unassigned Server" without one, and the group sizes add up to the number of sites |
| SpPage.PendingSitesCountsTheRest | src/app/sp/page.js:117-119 | The pending tally counts exactly the sites not labelled Completed, and it adds with the completed tally to the total |
| SpPage.EmptyForm | src/app/sp/page.js:106-108 | Every field of the reset form is empty: name, URL, server, note and the four versions |
| SpPage.OpenLogModal | src/app/sp/page.js:86-98 | The form has the site's server and an empty note, and each version is `""` when the latest log lacks it |
| SpPage.HandleSaveWebsite | src/app/sp/page.js:71-77 | Nothing is posted exactly when the name or the URL is empty; otherwise the form is posted as it is |
| SpPage.EmptyFormRejected | src/app/sp/page.js:72 | The reset form cannot be saved |
| SpPage.HandleSaveLog | src/app/sp/page.js:79-80 | The posted check-in is the form with the site's id as `supportPalId` |
| SpPage.LogCarriesVersionsOver | src/app/sp/page.js:79-98 | Saving the log modal unedited posts an empty note and repeats every version the latest log recorded |
| ReportsPage.GetWPStatusIsWeeklyRule | src/app/reports/page.js:29-38 | Only "Completed" and "Pending"; "Completed" exactly when there is a log checked this week |
| ReportsPage.GetSPStatusIsMonthlyRule | src/app/reports/page.js:40-47 | Only "Completed" and "Pending"; "Completed" exactly when there is a log checked this month |
| ReportsPage.GetVersionDiff | src/app/reports/page.js:49-58 | The current value alone exactly when the previous one is falsy or equal; otherwise a change from the previous value to the current one |
| ReportsPage.VersionDiffRecoversInputs | src/app/reports/page.js:50-56 | A changed value renders both its previous and its current value |
| ReportsPage.PartitionIsExact | src/app/reports/page.js:86-92 | Each site is in exactly one of the pending and completed lists of its family; the counts add up to the number of sites |
| ReportsPage.CardPlugins | src/app/reports/page.js:209-217 | An absent string, text that does not decode, and JSON that is not an array give no plugins; an array gives its entries |
| ReportsPage.FindByName | src/app/reports/page.js:220 | `find` gives the first entry with the name, and nothing exactly when no entry has it |
| ReportsPage.Updates | src/app/reports/page.js:219-225 | No more updates than current plugins |
| ReportsPage.ComputeUpdates | src/app/reports/page.js:219-225 | The reduce pushing into `acc` yields the updates of the current list against the previous one |
| ReportsPage.UpdatesSound | src/app/reports/page.js:220-222 | Every update names a current plugin and goes from the first same-named previous version to the current version, which differ |
| ReportsPage.UpdatesComplete | src/app/reports/page.js:220-222 | Every current plugin whose version changed has its update listed |
| ReportsPage.UpdatesAppend | src/app/reports/page.js:219-225 | The updates follow the order of the current list |
| ReportsPage.NoPreviousNoUpdates | src/app/reports/page.js:217-225 | An absent or empty previous list gives no updates |
| ReportsPage.UnchangedNoUpdates | src/app/reports/page.js:220-221 | Plugins whose versions are unchanged give no update |
| ReportsPage.NewPluginNoUpdate | src/app/reports/page.js:220-221 | A newly added plugin gives no update |
| ReportsPage.NoteField | src/app/reports/page.js:66-71 | The note field is the note wrapped in double quotes, as it is |
| ReportsPage.WpRow | src/app/reports/page.js:64-67 | A WordPress row has the seven header columns |
| ReportsPage.SpRow | src/app/reports/page.js:69-72 | A SupportPal row has the seven header columns |
| ReportsPage.BuildRows | src/app/reports/page.js:62-72 | One row per WordPress site, then one per SupportPal site, in data order, each of seven fields |
| ReportsPage.RowLines | src/app/reports/page.js:75 | Each line is its row joined by commas |
| ReportsPage.HeaderLine | src/app/reports/page.js:61-75 | The header line splits at commas into the seven column names and holds no line break |
| ReportsPage.CsvLines | src/app/reports/page.js:74-75 | When no field holds a line break: the export starts with the data-URI prefix and the byte order mark; after it, the header line comes first, then exactly one line per row in order |
| ReportsPage.FileNameUsesDate | src/app/reports/page.js:80 | The download is named after the date part of the ISO timestamp |
| DashboardPage.IsWPPendingIsNotCompleted | src/app/page.js:41-50 | Pending exactly when there is no log checked this week, in agreement with the reports page |
| DashboardPage.IsSPPendingIsNotCompleted | src/app/page.js:52-59 | Pending exactly when there is no log checked this month, in agreement with the reports page |
| DashboardPage.AllPendingLayout | src/app/page.js:61-64 | The pending WordPress sites, tagged `WP` and `/wp`, come first and then the pending SupportPal sites, tagged `SP` and `/sp`, each in data order |
| DashboardPage.UncheckedWpSiteListed | src/app/page.js:61-64 | A WordPress site not checked this week is in the pending list |
| DashboardPage.ToSet | src/app/page.js:67 | A set of strings holds exactly the listed strings and is no larger than the list |
| DashboardPage.AllServersCounts | src/app/page.js:65-70 | The server set is exactly the servers some site of either family names, and it is no larger than the total number of sites |
| NotifyRoute.DueIsNotCompleted | src/app/api/notify/rount.js:26-32 | A site is due exactly when it has no log checked this week |
| NotifyRoute.DueSitesExact | src/app/api/notify/rount.js:32 | Every due site is selected and every selected site is due |
| NotifyRoute.NameLinesInOrder | src/app/api/notify/rount.js:38 | The `- name` lines appear in the order of the due sites |
| NotifyRoute.MessageStatesCount | src/app/api/notify/rount.js:37 | The number after `มี ` in the message reads back as the number of due sites |
| NotifyRoute.MessageEndsWithFooter | src/app/api/notify/rount.js:39 | The message ends with the closing line |
| NotifyRoute.ComposeMessage | src/app/api/notify/rount.js:36-39 | The `msg +=` steps build the header, the count line, one line per due site and the footer |
| NotifyRoute.SendLineNotify | src/app/api/notify/rount.js:5-17 | A request is made exactly when the token is truthy, carrying the bearer token and the message |
| NotifyRoute.Get | src/app/api/notify/rount.js:19-50 | A failed read answers 500; without due sites nothing is sent; otherwise the reminder is sent when a token is set and the count of due sites is answered, or 500 when the send throws |
| NotifyRoute.ReminderFileAsWrittenNotServed | src/app/api/notify/rount.js:19 | The file the handler is written in does not end in `/route.js`, so the App Router serves no route from it |
| NotifyRoute.ReminderFileServed | src/app/api/notify/rount.js:19 | Under the name `route.js` the handler is served |
| UptimeRoute.Classify | src/app/api/uptime/route.js:27-35 | A 2xx, 403 or 503 status is up and any other status is down, the code echoed; a thrown error is down with its message |
| UptimeRoute.Check | src/app/api/uptime/route.js:7-35 | The answer is `error` exactly when the URL is missing; otherwise the probe's outcome classified |
| UptimeRoute.MissingUrlMakesNoProbe | src/app/api/uptime/route.js:7 | Without a URL the answer does not depend on the probe |
| UptimeRoute.UpIff | src/app/api/uptime/route.js:27-28 | A site is up exactly when it answered with a 2xx, 403 or 503 status, and the code is echoed |
| SiteStore.StrLeqTotal | src/app/api/websites/route.js:14 | The server order compares any two servers |
| SiteStore.PrecedesTransitive | src/app/api/websites/route.js:13-16 | The listing order (server ascending, then newest first) is transitive |
| SiteStore.Insert | src/app/api/websites/route.js:13-16 | Inserting adds exactly one site and loses none |
| SiteStore.InsertSorted | src/app/api/websites/route.js:13-16 | Inserting into a listing in order keeps it in order |
| SiteStore.SortSitesSorted | src/app/api/websites/route.js:13-16 | The sorted listing is in listing order |
| SiteStore.LatestLog | src/app/api/websites/route.js:8-11 | No log exactly when the site has none; otherwise a log of that site with the latest check date |
| SiteStore.WithLatest | src/app/api/supportpal/websites/route.js:9 | A listed site carries at most one log |
| SiteStore.NewSite | src/app/api/websites/route.js:30-34 | The created site has the given id, name, URL and creation time, and its server is the posted one when truthy, else "Default Server" |
| SiteStore.FreshLogIsLatest | src/app/api/websites/route.js:8-11 | A log appended for a site that had no log is that site's latest log |
| SiteStore.AppendConsistent | src/app/api/websites/route.js:30-47 | Adding a site and its log under an id never handed out keeps the ids unique and every row's id handed out, and no earlier log carried that id |
| SiteStore.Listing | src/app/api/websites/route.js:6-17 | Every site exactly once, in listing order, each with its latest log at most |
| SiteStore.FreshSiteListed | src/app/api/websites/route.js:6-47 | A site added together with a first log under an id no earlier log carries is listed, with exactly that log |
| SiteStore.Table.Create | src/app/api/websites/route.js:30-47 | Under an id never handed out, the site and its first log (tied to the site) are appended and the id marked used; the new site is then listed with exactly that log |
| SiteStore.Table.Delete | src/app/api/websites/route.js:60 | The site with the id is removed and every other site kept; it reports whether one existed; the logs and the used ids stay |
| SiteStore.Table.List | src/app/api/websites/route.js:6-17 | The listing of the current tables |
| SiteStore.RemoveIdFacts | src/app/api/websites/route.js:60 | Deleting by a unique id removes at most one site and keeps ids unique |
| WebsitesRoute.InitialLog | src/app/api/websites/route.js:35-45 | The first log is dated at the epoch; each WordPress field is the posted value when truthy, else `-`, and the note the posted one when truthy, else `""` |
| WebsitesRoute.InitialLogFieldsTruthy | src/app/api/websites/route.js:37-41 | Every field of the first log is set and not empty |
| WebsitesRoute.FreshSiteIsDueAndNever | src/app/api/websites/route.js:43 | A new site is Maintenance Due in every later week and its card shows "Never" |
| WebsitesRoute.DefaultPluginsParse | src/app/api/websites/route.js:40 | The default plugin text `-` reads back as one plugin named `-` |
| WebsitesRoute.Post | src/app/api/websites/route.js:24-53 | Under a fresh id the site and its defaulted first log are added, the site is answered and then listed with exactly that log; a failed write answers 500 and changes nothing |
| WebsitesRoute.Delete | src/app/api/websites/route.js:55-65 | No id answers 400 and deletes nothing; otherwise the site is removed, answering "Website deleted", or 500 when there was no such site |
| SupportPalWebsitesRoute.InitialLog | src/app/api/supportpal/websites/route.js:33-42 | The first log is dated at the epoch; each SupportPal version is the posted value when truthy, else `-`, and the note the posted one when truthy, else `""` |
| SupportPalWebsitesRoute.InitialLogFieldsTruthy | src/app/api/supportpal/websites/route.js:35-38 | Every version of the first log is set and not empty |
| SupportPalWebsitesRoute.FreshSiteIsDueAndWaiting | src/app/api/supportpal/websites/route.js:40 | A new site is Maintenance Due in every month after January 1970 and its card waits for a check |
| SupportPalWebsitesRoute.Post | src/app/api/supportpal/websites/route.js:21-51 | Under a fresh id the site and its defaulted first log are added, the site is answered and then listed with exactly that log; a failed write answers 500 and changes nothing |
| SupportPalWebsitesRoute.Delete | src/app/api/supportpal/websites/route.js:54-65 | No id answers 400 and deletes nothing; otherwise the site is removed, answering "Deleted", or 500 when there was no such site |
| TopNavbar.FirstIndex | src/app/components/TopNavbar.js:14-15 | The first position holding the character |
| TopNavbar.ReplaceFirst | src/app/components/TopNavbar.js:14-15 | Without the character the text is unchanged; with it, one character is replaced by the new text |
| TopNavbar.OnlyFirstReplaced | src/app/components/TopNavbar.js:14-15 | Only the first occurrence is replaced: everything before it and every later character is kept in order |
| TopNavbar.CapitalizeWords | src/app/components/TopNavbar.js:16 | Each word character at a word boundary is upper-cased and every other character is kept |
| TopNavbar.CapitalizeWordsIdempotent | src/app/components/TopNavbar.js:16 | Capitalising twice is capitalising once |
| TopNavbar.FormatTitleLength | src/app/components/TopNavbar.js:13-16 | The title of a path other than `/` is one shorter than a path holding `/`, as long as one without |
| TopNavbar.SiteTitles | src/app/components/TopNavbar.js:11-17 | `/` is "Dashboard", `/wp` is "Wp" and `/sp` is "Sp" |

## Left out

- Rendering, styles, modals, toasts and the React state wiring of the pages are not modelled, nor the `fetch` calls the pages make; a save is modelled as the request it would send.
- Time zones and daylight saving: instants are integer local milliseconds.
- `toLocaleDateString`, `toLocaleString` and `toISOString` are parameters (`format`, `iso`, `dateText`), since their text depends on the locale.
- `JSON.parse` and `JSON.stringify` are parameters (`decode`, `encode`). A decoded array's entries are taken to be `{name, version}` records.
- `toLowerCase` and `toUpperCase` are modelled for ASCII letters only, and `\w`/`\b` as ASCII word characters, as in JavaScript regular expressions without the `u` flag.
- The database is two in-memory tables per family. The schema, the cascade on delete, the database-assigned id and creation time, ties in `orderBy` and the collation used for `server: 'asc'` are not visible in the code. The model takes the id and time as parameters, orders servers by character code and claims no cascade.
- Ids are taken to be fresh: the database never hands out an id twice, deleted ones included. A ghost set of used ids on each table records this, and `Post` requires an id not in it.
- Why a database write fails is not visible in the code. `Post` takes a `writeFails` flag and answers 500 with the tables unchanged. A failing `GET` of the website routes is not modelled.
- The `PUT` update request the WordPress page sends has no handler in the website route, so no update is modelled.
- The maintenance and reports routes are thin create/find wrappers and are not part of this model.
- The uptime probe, its 10-second abort timer and its request headers are a parameter (`probe`); a timed-out probe is a thrown error.
- The LINE Notify request is modelled by what it carries (token and message) and whether it throws; the HTTP exchange is not.
- `encodeURI` and the download link of the CSV export are not modelled; the model stops at the CSV text.
- The CSV export does not escape quotes or commas in fields, so the rows are not proved to read back; `ReportsPage.CsvLines` states the line structure only.
- ReportsPage.CsvLines: holds only when no field holds a line break. A note typed with line breaks is quoted but still splits its row across several lines of the file.
- WpPage.GroupedWebsites: the source collects groups in a plain object `{}`. A server named after an inherited `Object.prototype` property (`constructor`, `toString`, `valueOf`, `__proto__`, …) makes `groups[serverName]` an inherited function or object rather than an array, so `push` throws and the page fails to render. The model groups such servers like any other.
- SpPage.GroupedWebsites: the same reduce over `{}`, with the same failure for servers named after `Object.prototype` properties; the model groups them like any other.
- The login, profile and log pages, the middleware, the sidebar, the layout, the error page and the stat card are not part of this model.
- The real-time clock of the top bar is not modelled.
- WpPage.PluginManager.HandleVersionChange: requires an index within the list, since the version inputs exist only for listed entries; the shared plugin object that the source mutates through the copied array is modelled as a fresh value.
- WpPage.OpenLogModal and SpPage.OpenLogModal: the name and URL, which the source leaves undefined in this form, are modelled as `""`.
- Site names, URLs and servers are taken to be strings, as the routes always store them.
- The reports page's `getWPStatus({})` on a site without logs compares an invalid date and gives "Pending", the same as no log; the model passes the log as absent.

## Findings

| source | as written | input that shows it | evidently intended | confidence | as-written member | corrected member |
|---|---|---|---|---|---|---|
| src/app/api/notify/rount.js:19 | the `GET` handler is in a file named `rount.js` | a request to `/api/notify`, which the App Router answers with 404 because no `route.js` exists in that folder | the file is named `route.js`, so `/api/notify` runs the handler | high, from the framework's naming rule; not executed | NotifyRoute.ReminderFileAsWrittenNotServed | NotifyRoute.ReminderFileServed |
