# free-ovpn: the listing server and the browser client, modelled in Dafny

free-ovpn lists free OpenVPN servers. Its server (`index.js`) builds the list
served at `/list.json` from three sources: records for the `.ovpn` files of a
GitHub folder, rows scraped from the ipspeed.info page, and one record holding
every `.ovpn` link of a freeopenvpn.org page. The ipspeed.info scrape is
retried up to ten times with an exponential backoff. Its browser client
(`client.js`) lists the profiles, filters them with a search box, and drives a
small connection status machine made of `selectedServer`, `isConnected` and
the connect button's `disabled` flag.

The model has five modules:

- `Wrappers`: `Option` (JavaScript's null/undefined) and `Result`.
- `Strings`: the JavaScript string operations the code relies on. These are
  `trim` (over the WhiteSpace and LineTerminator code points), `includes`,
  `toLowerCase` and `split('/').pop()`.
- `Profiles`: the profile record `{country, ovpnLinks, uptime, ping}`.
- `Server` (index.js):
  - Each HTTP request is replaced by its outcome.
  - cheerio's parse of a page is replaced by the sequence of elements it
    finds. Each element is abstracted to whether it is a `div.list`, its
    `style`, its text, and the `href` of each anchor inside it.
  - `fetchVPNData` becomes a method over the ten responses its requests
    would get. It is proved against `FirstParsed`, the rows of the first
    attempt that succeeds.
  - Its `.each` loops become methods with loop invariants. Each is proved
    against a function over the elements or anchors.
- `Client` (client.js): a class `Page` whose fields are the module-level
  state plus the status panel and the log panel.
  - `updateStatus`, `selectServer`, the server-click handler,
    `toggleConnection` and the initial status check are methods on it.
    `toggleConnection`'s disconnect and connect branches are methods of
    their own.
  - `fetch` outcomes and `confirm` answers are parameters.
  - The search filter is a function with its lemmas.

`updateStatus('connected')` and `updateStatus('ready')` build their text from
`selectedServer.split('/')`. That throws when no server is selected. The icon
and title have then already changed; the button and `isConnected` have not
(client.js:90-95). `Page.UpdateStatus` reports this with its `raised` result.
It can happen at page load, when `/check-connection` answers `connected`
before anything is selected. The model follows the code there.

The VPN process manager behind `/connect`, `/disconnect` and
`/check-connection` is not in index.js or client.js and is not modelled. Two
consequences of the code itself are kept as written:

- The client switches servers while connected by sending a disconnect and
  then selecting the new server, after the user confirms (client.js:53-66).
- The client reads `/vpn-profiles`, while `index.js` serves `/list.json`.
  The server behind `/vpn-profiles` is not part of this model.

## Model

| member | source | states |
|---|---|---|
| `Strings.Trim` | index.js:69 | `trim()` yields the empty string exactly when the input is all white space; otherwise the result neither starts nor ends with white space |
| `Strings.TrimIsSlice` | index.js:69 | `trim()` returns a slice of the input with only white space before it and after it |
| `Strings.Includes` | client.js:197-199 | `includes` holds whenever the term is a prefix, and only for terms no longer than the string |
| `Strings.IncludesAt` | client.js:197-199 | `includes` holds exactly when the term occurs at some position of the string |
| `Strings.ToLower` | client.js:195-199 | `toLowerCase` keeps the length, leaves no ASCII capital, maps each capital to its small letter and keeps every other character |
| `Strings.LastSegment` | client.js:153 | `split('/').pop()` is the longest slash-free suffix: it has no slash and is either the whole string or preceded by a slash |
| `Strings.LastSegmentAfterSlash` | client.js:48 | `split('/').pop()` of a slash-terminated prefix followed by a slash-free name is that name |
| `Server.Backoff` | index.js:104 | the wait after a failed attempt is at least 15 ms and twice the wait after the attempt before |
| `Server.ScheduleTotal` | index.js:104-106 | the waits `15·2^k` after the first n failed attempts sum to `15·(2^n − 1)` ms |
| `Server.WorstCaseWait` | index.js:14-17 | when every attempt fails, the nine waits total 7665 ms |
| `Server.NextList` | index.js:72 | `.next('div.list')` selects the immediately following element exactly when it is a `div.list`, and nothing else |
| `Server.KeptHrefs` | index.js:73-76 | the kept links are all non-empty and no more numerous than the anchors |
| `Server.KeptHrefsMembers` | index.js:73-76 | a link is kept exactly when some anchor carries it as a non-empty `href` (missing and empty hrefs are dropped) |
| `Server.KeptHrefsAppend` | index.js:73-76 | links keep document order: the links of two runs of anchors are those of the first run followed by those of the second |
| `Server.RecordAt` | index.js:67-89 | a record comes only from a `div.list` whose style contains `width: 263px` and that has no anchor; it has a non-empty location and at least one link, all non-empty |
| `Server.RecordAtIff` | index.js:68-88 | an element yields a record exactly when it starts one, its trimmed text is non-empty and the next element is a `div.list` with a kept link; the record holds that text, those links, and as uptime and ping the trimmed texts of the next two `div.list` siblings ("" where the chain breaks) |
| `Server.Present` | index.js:82-88 | the pushes accumulate at most one row per visited element |
| `Server.PresentEmptyIff` | index.js:81-94 | nothing is pushed exactly when no element yields a record |
| `Server.PresentMembers` | index.js:81-88 | a row is pushed exactly when some visited element's callback yields it |
| `Server.PresentAppend` | index.js:67-90 | pushes keep visiting order: the rows for two runs of elements are the first run's rows followed by the second's |
| `Server.RowsMembers` | index.js:67-90 | a row is on the page exactly when some element of the page yields it as its record |
| `Server.PresentScraped` | index.js:81-88 | every pushed row has what every yielded record has |
| `Server.Rows` | index.js:67-90 | the page's rows: no more than its elements, none exactly when no element yields a record, every one with a non-empty location and at least one non-empty link |
| `Server.ListCount` | index.js:60 | `$('div.list').length` is at most the number of elements |
| `Server.ListCountZero` | index.js:60-65 | the `div.list` count is zero exactly when no element is a `div.list` |
| `Server.AttemptResult` | index.js:51-97 | a successful attempt returns a non-empty list of well-formed rows |
| `Server.AttemptSucceedsIff` | index.js:51-97 | an attempt succeeds exactly when the body is non-blank text and some element yields a record |
| `Server.AttemptFailureCauses` | index.js:52-94 | the four retry causes: the request threw; the body is not text or is blank; no `div.list` exists; none yields a record |
| `Server.ExtractRows` | index.js:58-90 | the `.each` loop pushes exactly the records of the page's elements, in document order |
| `Server.TryAttempt` | index.js:51-97 | one attempt's `try` block returns the rows or the retry cause that `AttemptResult` defines |
| `Server.FirstSuccess` | index.js:17-108 | the loop's result is `[]` or the rows of one of the attempts |
| `Server.FirstSuccessAt` | index.js:17-108 | when attempt k is the first success, the loop returns its rows |
| `Server.FirstSuccessEmptyIff` | index.js:92-103 | with successes never empty, the loop returns `[]` exactly when every attempt fails |
| `Server.FirstParsed` | index.js:97 | every profile the scrape yields is well formed |
| `Server.FirstParsedIsFirstSuccess` | index.js:17-108 | the scrape yields the rows of the first attempt that succeeds |
| `Server.FirstParsedEmptyIff` | index.js:17-109 | the scrape yields `[]` exactly when all ten attempts fail |
| `Server.FetchVPNData` | index.js:13-110 | at most 10 attempts; every attempt before the last one made failed; the result is the rows of the first successful attempt, else `[]` after the tenth; the waits are `15·2^k` after each failure except the last |
| `Server.GitHubRecords` | index.js:119-135 | one record per file name, in order, with link = raw prefix ++ name, country `USA`, uptime `Unknown` and ping `Github Upload`; `[]` on any error; every record is selectable |
| `Server.GitHubNameRecovered` | index.js:125 | the client's profile name of a GitHub record (`split('/').pop()` of its link) is the file name |
| `Server.OvpnLinks` | index.js:155-160 | no more links than anchors |
| `Server.OvpnLinksShape` | index.js:155-160 | every collected link starts with `https://www.freeopenvpn.org` and contains `.ovpn` |
| `Server.OvpnLinksMembers` | index.js:155-160 | a link is collected exactly when it is the origin followed by the `href` of an anchor whose `href` contains `.ovpn` |
| `Server.OvpnLinksAppend` | index.js:155-160 | links keep document order: the links of two runs of anchors are those of the first run followed by those of the second |
| `Server.OvpnLinksEmptyIff` | index.js:155-164 | no link is collected exactly when no anchor's href contains `.ovpn` |
| `Server.CollectOvpnLinks` | index.js:152-160 | the loop pushes, in document order, the origin-prefixed href of each matching anchor |
| `Server.FreeOpenVpnRecords` | index.js:162-176 | at most one record; none exactly when the request failed or no anchor matches; otherwise it holds every collected link with country `USA`, uptime `Updated Daily` and ping `freeopenvpn.org`, and is selectable |
| `Server.FetchFreeOpenVpn` | index.js:139-177 | `fetchFreeOpenVPNData` returns the records `FreeOpenVpnRecords` defines |
| `Server.ListJson` | index.js:185-200 | `/list.json` is GitHub ++ ipspeed ++ freeopenvpn; its length is the sum of the three; every profile served is selectable by the client |
| `Client.InitialStatus` | client.js:211 | the initial check maps exactly the reply `connected` to 'connected', anything else to 'disconnected' |
| `Client.ErrorText` | client.js:172 | the reported error is the server's `data.error` when that is non-empty, else `Unknown error`; never empty |
| `Client.ConnectReport` | client.js:162-179 | success is logged exactly for an ok reply whose body reads as JSON (`null` included); install guidance, with the instructions' message and link, exactly when the error is `OpenVPN not installed` and instructions are present; otherwise, for a failed reply with a JSON object body, the error text, profile name and URL; an exception report with the profile name exactly when the request failed, the body is not JSON, or a failed reply's body is `null` |
| `Client.Page.constructor` | client.js:12-14 | the page starts with nothing selected and not connected |
| `Client.Page.UpdateStatus` | client.js:87-128 | 'connected' sets `isConnected` and enables the button; 'disconnected', 'ready' and 'error' clear `isConnected`; 'connecting' disables the button and keeps `isConnected`; after 'disconnected' the button is disabled exactly when no server is selected; 'connected' and 'ready' throw first when nothing is selected |
| `Client.Page.SelectServer` | client.js:76-84 | selects the profile's first link and shows 'ready': not connected, button enabled |
| `Client.Page.ClickServer` | client.js:53-70 | while connected, a declined confirmation changes nothing; a failed disconnect only logs; otherwise the profile's first link is selected and the status is 'ready' with `isConnected` false |
| `Client.Page.Disconnect` | client.js:137-149 | a disconnect that succeeds ends 'disconnected' and logs it; one that fails ends 'error' and logs the reason; a reply that is not ok leaves the page 'connecting' and still connected |
| `Client.Page.Connect` | client.js:150-181 | sends the selected link; ends 'connected' exactly when the reply is accepted, else 'error', not connected either way unless accepted; the log gets the attempt then the report |
| `Client.Page.ToggleConnection` | client.js:131-182 | with nothing selected and not connected it sends nothing and changes nothing; when connected it takes the disconnect path; otherwise the connect path |
| `Client.Page.CheckInitialConnection` | client.js:208-212 | the page-load check applies the mapped status, changes nothing when the request fails, and throws when it reports 'connected' before a selection, leaving the button and `isConnected` as they were |
| `Client.Filter` | client.js:196-200 | a profile is kept exactly when it is listed and its lower-cased country, uptime or ping contains the term |
| `Client.FilterAppend` | client.js:196-200 | filtering keeps every matching occurrence, repeats included, in order: filtering a concatenation concatenates the filtered parts |
| `Client.Search` | client.js:194-200 | a profile is shown exactly when it is listed and its lower-cased country, uptime or ping contains the lower-cased input |
| `Client.SearchKeepsOrder` | client.js:196-200 | the search result is a subsequence of the list: order is preserved |
| `Client.SearchEmptyKeepsAll` | client.js:194-201 | an empty search term keeps every profile |
| `Client.SearchCaseInsensitive` | client.js:195 | searching for a term and for its lower-cased form gives the same result |

## Left out

- HTTP requests, their headers, timeouts and redirect rules, and express routing. Each request is an input outcome. A failed outcome stands for what makes the request throw. For the ipspeed.info request that includes a status outside 200-399 (index.js:41-43). The GitHub and freeopenvpn.org requests keep axios's default rule, under which any status outside 200-299 throws. The client's `fetch` never fails on a status: a status only sets `ok`.
- The exception text for a failed connect reply whose body is `null` is the TypeError message of one JavaScript engine (V8). Other engines word it differently.
- JSON bodies other than an object or `null` (a number, a string, an array) read as a `Json` body without `error` or `instructions`, which is what reading those fields yields.
- cheerio's HTML parser. A page is the sequence of elements it yields. All elements are treated as siblings, so nested `div.list` markup is not modelled.
- `setTimeout` and console logging. A wait is a number of milliseconds in the returned schedule.
- `Promise.all` in `/list.json`. The three fetches are independent, so they are run one after the other.
- The unreachable `return []` after the retry loop (index.js:109). The loop always returns from inside.
- A GitHub listing entry without a `name` would produce the link text `undefined`. Listings are modelled as their file names.
- The case-folding in the search follows `toLowerCase` for ASCII letters only; other letters are compared as they are.
- DOM rendering: `displayProfiles`' markup, styles, the status texts, the Cloudflare warning (it only selects displayed text), `alert`, and the Socket.IO log rendering (client.js:185-190).
- `fetchVPNProfiles` (client.js:20-34), which loads `allProfiles`. The search takes the list as a parameter.
- Interleaving of handlers. Each handler is modelled as one step from start to end. A click while a connect request is pending is not modelled.
- dotenv and the listening port.
