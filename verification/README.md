# NekoCLI dashboard logic in Dafny

The NekoCLI iOS app is a dashboard. It polls the project's GitHub commit feed
and the npm registry, shows the download counts for four time windows as a bar
chart, shows the latest published version, and lists the commits newest first.
On every poll it merges newly seen commits into the list and, if the user has
enabled notifications, announces how many arrived. This project models the
sequential logic inside `NekoCLI/ContentView.swift` and proves what it
promises:

- **CommitFeed** (`commit_feed.dfy`) models the commit merge on the main queue.
  `Dashboard` is a class holding the view state that the merge changes in place:
  `commits`, `notificationsEnabled`, and a ghost log of the notifications sent.
  The method `MergeFetched` is proved against the pure functions `Shas`, `Unseen`
  and `Merged`. Lemmas about those functions give order preservation, the
  no-new-commits case, idempotence, SHA uniqueness and the notification count.
- **RelativeTime** (`relative_time.dfy`) models `isoDateToRelative`. It chooses a
  bucket (`AgeOf`) using Swift's truncating `Int(x / d)`, then renders it
  (`Render`). A parser (`ParseRelative`) reads the text back, which proves that
  the text carries the bucket and the whole number of elapsed units.
- **NpmStats** (`npm_stats.dfy`) models `fetchStats`. It is a loop over the four
  window tokens that appends one labelled entry per token. Any failed request
  aborts the whole call.
- **NpmVersion** (`npm_version.dfy`) models `fetchVersion`. It reads the
  `"version"` string out of a loosely typed JSON value and falls back to
  `"unknown"`.
- **HexColor** (`hex_color.dfy`) models the integer part of `Color(hex:)`: an
  optional `#`, then the longest run of hex digits, then three 8-bit channels.
- **Decimal** (`decimal.dfy`) models Swift's `"\(n)"` for non-negative integers,
  plus a parser that reads the digits back. **Wrappers** (`wrappers.dfy`) holds
  `Option`.

Three behaviours of the code are easy to miss, and the model keeps each one:

- New commits go in front of the list, not at the end.
- The notification body reads "There are 1 new commits." for a single commit.
- `fetchVersion` throws when the body is not valid JSON; it does not return
  "unknown" then.

## Model

| member | source | states |
|---|---|---|
| CommitFeed.Shas | NekoCLI/ContentView.swift:240 | a SHA is in the set exactly when some commit of the list carries it |
| CommitFeed.Unseen | NekoCLI/ContentView.swift:241 | the filter keeps exactly the fetched commits whose SHA is unseen, and never grows the list |
| CommitFeed.UnseenAppend | NekoCLI/ContentView.swift:241 | the filter distributes over concatenation, so the kept commits stay in fetched order |
| CommitFeed.UnseenSingle | NekoCLI/ContentView.swift:241 | a single commit is kept exactly when its SHA is unseen |
| CommitFeed.UnseenKeepsAllNew | NekoCLI/ContentView.swift:241 | when no fetched SHA is held, the whole fetched list is kept, duplicates included |
| CommitFeed.UnseenEmpty | NekoCLI/ContentView.swift:241-242 | the new block is empty exactly when every fetched SHA is already held |
| CommitFeed.UniqueShasTail | NekoCLI/ContentView.swift:241 | a unique-SHA list stays unique without its head, and no later SHA equals the head's |
| CommitFeed.UniqueShasCons | NekoCLI/ContentView.swift:243 | putting a commit with a new SHA in front of a unique-SHA list keeps it unique |
| CommitFeed.UnseenUnique | NekoCLI/ContentView.swift:241 | filtering a unique-SHA fetched list gives a unique-SHA block |
| CommitFeed.Merged | NekoCLI/ContentView.swift:243 | the old list survives unchanged as the tail of the merged list, which grows by at most the fetched length; a commit is in the merged list exactly when it was held or was fetched with an unheld SHA |
| CommitFeed.MergedUnique | NekoCLI/ContentView.swift:240-243 | if the held list and the fetched list have unique SHAs, so does the merged list |
| CommitFeed.DuplicateFetchedShasSurvive | NekoCLI/ContentView.swift:240-243 | a fetched list that repeats a SHA gives a merged list with that repeat, so fetched uniqueness is needed |
| CommitFeed.MergedCoversFetched | NekoCLI/ContentView.swift:240-243 | after a merge every fetched SHA is held |
| CommitFeed.SecondMergeAddsNothing | NekoCLI/ContentView.swift:240-243 | merging the same fetched list again finds no new commit and leaves the list as it is |
| CommitFeed.SelfMergeAddsNothing | NekoCLI/ContentView.swift:240-243 | merging the held list into itself adds nothing |
| CommitFeed.NewCommitsBody | NekoCLI/ContentView.swift:245 | the notification body starts with "There are " and ends with " new commits.", and the text between them reads back as the count |
| CommitFeed.MergeNotifications | NekoCLI/ContentView.swift:242-246 | one notification is sent exactly when the block is non-empty and notifications are enabled, with the fixed title and a body that carries the block's size |
| CommitFeed.OneNewCommitExample | NekoCLI/ContentView.swift:240-243 | holding [a, b, c] and fetching [x, a, b, c] gives [x, a, b, c] |
| CommitFeed.OneNewCommitNotification | NekoCLI/ContentView.swift:244-245 | one new commit sends "There are 1 new commits." when enabled and nothing when disabled |
| CommitFeed.MergeFacts | NekoCLI/ContentView.swift:240-243 | the no-new-commits case, uniqueness and idempotence, gathered for one merge |
| CommitFeed.Dashboard.constructor | NekoCLI/ContentView.swift:90-91 | the state starts with the given commit list and notification flag and an empty log |
| CommitFeed.Dashboard.MergeFetched | NekoCLI/ContentView.swift:239-247 | `commits` becomes the unseen block followed by the old list; the log grows by the one notification due, if any; when nothing is new, the list and log are unchanged; uniqueness is kept; a repeat merge would find nothing |
| CommitFeed.Dashboard.LoadCommitsOnly | NekoCLI/ContentView.swift:236-252 | a failed fetch leaves the state unchanged; a successful one performs the merge |
| Decimal.NatToString | NekoCLI/ContentView.swift:81-83 | the rendering is a non-empty run of digits with a leading zero only for 0 |
| Decimal.ParseNatToString | NekoCLI/ContentView.swift:81-83 | reading back the rendering of n gives n |
| Decimal.NatToStringInjective | NekoCLI/ContentView.swift:81-83 | distinct counts render differently |
| RelativeTime.TruncDiv | NekoCLI/ContentView.swift:81-83 | `Int(x / d)` gives the quotient truncated toward zero |
| RelativeTime.AgeOf | NekoCLI/ContentView.swift:76-84 | the bucket is `Unknown` exactly when the date does not parse and `MomentsAgo` exactly below 60 s, negative intervals included; it is `MinutesAgo`, `HoursAgo` or `DaysAgo` exactly in [60, 3600), [3600, 86400) and from 86400 on, each carrying the count of whole units elapsed (1..59, 1..23, at least 1) |
| RelativeTime.CountedRoundTrip | NekoCLI/ContentView.swift:81-83 | a count followed by its unit suffix is neither fixed text, and it reads back under its own suffix and no other |
| RelativeTime.Render | NekoCLI/ContentView.swift:80-83 | the rendered text parses back to the same bucket and count, so distinct buckets or counts never share a text |
| RelativeTime.IsoDateToRelative | NekoCLI/ContentView.swift:76-84 | the returned text is "unknown" or "moments ago" exactly in their cases, and otherwise is the decimal of elapsed / 60, / 3600 or / 86400 followed by "m ago", "h ago" or "d ago", from which that count reads back |
| RelativeTime.RelativeExamples | NekoCLI/ContentView.swift:76-84 | 30 s is "moments ago", 90 s "1m ago", 2 h "2h ago", 3 days "3d ago", -5 s "moments ago", an unparsable date "unknown" |
| NpmStats.FetchStats | NekoCLI/ContentView.swift:42-54 | the call succeeds exactly when all four windows are fetched; then it returns four entries, the i-th labelled day, week, month or year and holding the count of the i-th token's endpoint |
| NpmStats.StatsUrl | NekoCLI/ContentView.swift:48 | the URL is the fixed base and "/", then the token, then "/" and the package name, so the token reads back from it |
| NpmStats.TokensMatchLabels | NekoCLI/ContentView.swift:44-48 | each token is "last-" plus its label, and the four queried URLs are distinct |
| NpmVersion.FetchVersion | NekoCLI/ContentView.swift:56-61 | a thrown fetch or parse propagates; a body holding a "version" string yields it; any other body yields "unknown" |
| NpmVersion.OtherKeysIgnored | NekoCLI/ContentView.swift:59-60 | keys other than "version" do not affect the result |
| NpmVersion.SentinelCases | NekoCLI/ContentView.swift:59-60 | an empty object, a non-string version and a non-object body each yield "unknown" |
| HexColor.HexDigitTable | NekoCLI/ContentView.swift:68 | the d-th character of "0123456789abcdef" and of "0123456789ABCDEF" is a hex digit denoting d |
| HexColor.SkipHash | NekoCLI/ContentView.swift:66 | at most the first character is dropped, and it is dropped exactly when it is '#' |
| HexColor.HexRunLength | NekoCLI/ContentView.swift:68 | the scan reads the longest prefix of hex digits |
| HexColor.ScanHex | NekoCLI/ContentView.swift:67-68 | the scanned integer fits in an unsigned 64-bit word |
| HexColor.ScanHexFits | NekoCLI/ContentView.swift:67-68 | a run of at most sixteen hex digits is read as exactly the number it denotes |
| HexColor.ScanHexSaturates | NekoCLI/ContentView.swift:67-68 | a run of seventeen or more digits led by a non-zero digit is read as UInt64.max |
| HexColor.LongRunExceedsWord | NekoCLI/ContentView.swift:67-68 | seventeen or more digits led by a non-zero digit denote a number beyond UInt64.max |
| HexColor.HexValueLowerBound | NekoCLI/ContentView.swift:68 | a run of n digits led by a non-zero digit denotes at least 16^(n-1) |
| HexColor.Pow16Word | NekoCLI/ContentView.swift:67 | sixteen hex digits span exactly the range of a UInt64 |
| HexColor.Channels | NekoCLI/ContentView.swift:64-71 | each extracted channel lies in 0..255 |
| HexColor.HexValue | NekoCLI/ContentView.swift:68 | a run of n hex digits denotes a number below 16^n |
| HexColor.HexValueAppend | NekoCLI/ContentView.swift:68 | appending digits shifts the earlier digits left by four bits per appended digit |
| HexColor.AppendByte | NekoCLI/ContentView.swift:68 | appending two digits shifts the value left by one byte |
| HexColor.TwoDigitValue | NekoCLI/ContentView.swift:69-71 | two hex digits make one byte |
| HexColor.SixDigitValue | NekoCLI/ContentView.swift:68-71 | six digits are three bytes, most significant first |
| HexColor.SixDigitChannels | NekoCLI/ContentView.swift:64-71 | for "#RRGGBB" the red, green and blue channels are the three digit pairs |
| HexColor.AccentColour | NekoCLI/ContentView.swift:113 | "#5292F8" gives the channels 0x52, 0x92, 0xF8 |
| HexColor.NoDigitsIsBlack | NekoCLI/ContentView.swift:66-71 | with no hex digit after the optional '#', every channel is 0 |

## Left out

- Networking and decoding are not modelled. `URLSession`, `JSONDecoder`, `JSONSerialization` and the fixed endpoints are foreign I/O. They become inputs: a fetched commit list (`None` when it threw), a per-URL `Option<int>` count, and a parsed JSON value (`None` when the request or parse threw).
- NpmVersion.FetchVersion: a top-level scalar body is treated like any other non-object (it yields "unknown"). Whether Foundation's parser accepts or rejects such a body is library behaviour that is not modelled.
- The async orchestration is not modelled: `loadAllData` (concurrent `async let` and the atomic assignment of all three results), `startAutoRefresh` with its timer, `Task` and `DispatchQueue.main.async`. This code is scheduling, not state logic. Overlapping refreshes are therefore not modelled either.
- Notification delivery is not modelled. `UNUserNotificationCenter`, `requestNotificationPermissions` and the body of `sendNotification` are platform calls. A sent notification is a title and body appended to the ghost log.
- Date parsing and the clock are not modelled. `ISO8601DateFormatter` and `Date()` become an `Option<int>` of elapsed whole seconds. `timeIntervalSince` is a `Double`. For non-negative intervals, truncating the interval to whole seconds changes neither the bucket nor the printed count, because every bucket boundary is a whole number of seconds. Negative intervals all fall in "moments ago".
- Colour floats are not modelled. The division by 255 and `Color(red:green:blue:)` are floating point.
- HexColor.ScanHex: the `Scanner` behaviour of skipping leading whitespace before `#` and before the digits, and of accepting an optional `0x` prefix, is not modelled.
- The UI is not modelled: the SwiftUI view bodies, `VersionCard`, `ChartCard`, `Link` and `UIApplication.open`, and the `UUID` of each `StatEntry`.
