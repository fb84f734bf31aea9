# Aura VIP raffle front-end: a Dafny model of its store and views

The system is a browser front-end for a prize raffle. A participant fills in
an entry form: name, Pakistani mobile number, one of three prizes, a payment
receipt and an optional referral code. The form is validated and becomes a
*pending* ticket in a local store. An administrator approves or rejects
pending tickets, browses the processed ones in a filtered and sorted
history, declares winners and broadcasts announcements. The main page polls
the store and recomputes the prize statistics, the referral count and the
news-ticker lines.

The project models four parts of that system:

- `types.dfy` (module `Types`) holds the shared records: prize, ticket,
  winner, announcement, statistics and configuration.
- `mock_store.dfy` (module `MockStore`) holds the store as a class `Store`.
  It has one field per stored record: tickets, winners, the current
  announcement, the news archive and the configuration. Its methods read and
  write those fields. Each mutating method is tied to a specification
  function on values (`SetStatus`, `MarkWinner`, `PushArchive`,
  `StoredId`), and the properties are proved as lemmas about those
  functions.
- `admin_panel.dfy` (module `AdminPanel`) holds the pending queue, the
  history view and its filters, the list of processing admins, and the
  handlers that call the store.
- `app.dfy` (module `App`) holds the main page: form validation, ticket
  construction, the submission handler, the statistics pass, the referral
  count, the news items, the admin login and the toast list.

Two support modules state the library calls the code relies on:

- `strings.dfy` (`Strings`): `trim`, ASCII `toLowerCase`, `includes`,
  UTF-16 `length`, decimal `String(n)`, `slice(-n)` and `split(' ')[0]`.
- `collections.dfy` (`Collections`): `filter` and a descending sort.

Random values, the clock, the user agent, the file reader's result and the
locale's number formatting are parameters of the operations that use them.

`updateTicketStatus` does not check that a ticket is still pending
(services/mockStore.ts:99-107), so a decision can overwrite an approved or
rejected status. `MockStore.SetStatus` does the same, and
`AdminPanel.ReviewShrinksQueue` proves that no decision puts a ticket back in
the pending queue.

## Model

| member | source | states |
|---|---|---|
| Types.ParsePrize | types.ts:2-6 | a string is accepted as a prize exactly when it is one of the three enum values, and it maps to that value |
| Types.PrizeTypeHasThreeValues | types.ts:2-6 | there are exactly three prize categories, each listed once |
| Types.PrizeNameRoundTrip | types.ts:2-6 | the prize names are pairwise distinct and parse back to their member |
| Strings.TrimStart | App.tsx:131 | the result is a suffix of the input, does not start with white space, and only white space was removed |
| Strings.TrimEnd | App.tsx:131 | the result is a prefix of the input, does not end with white space, and only white space was removed |
| Strings.Trim | App.tsx:131-132 | the result is no longer than the input and has no white space at either end |
| Strings.TrimIsSlice | App.tsx:131-132 | the trimmed string is a contiguous piece of the input, and everything cut away on both sides is white space |
| Strings.TrimNoOp | App.tsx:131-132 | a string with no white space at its ends is unchanged by trimming |
| Strings.TrimIdempotent | App.tsx:131-132 | trimming twice gives the same string as trimming once |
| Strings.LowerChar | components/AdminPanel.tsx:79 | ASCII upper-case letters map to lower case; every other character is unchanged |
| Strings.Lower | components/AdminPanel.tsx:79-83 | lowercasing keeps the length and maps each character |
| Strings.LowerSlice | components/AdminPanel.tsx:79-83 | lowercasing a piece of a string gives the same piece of the lowercased string |
| Strings.IncludesLower | components/AdminPanel.tsx:79-83 | a piece of a string is still a piece of it once both are lowercased |
| Strings.LowerIdempotent | components/AdminPanel.tsx:79 | lowercasing twice is lowercasing once |
| Strings.Includes | components/AdminPanel.tsx:81-84 | `hay.includes(needle)`: the needle occurs as a contiguous piece at some position |
| Strings.Utf16Length | App.tsx:134 | the JavaScript length lies between the character count and twice it |
| Strings.Utf16LengthBmp | App.tsx:134 | inside the Basic Multilingual Plane, the JavaScript length equals the character count |
| Strings.Decimal | App.tsx:166 | a number's decimal text is non-empty, all digits, with no leading zero |
| Strings.DecimalRoundTrip | App.tsx:166 | reading the decimal text back gives the number |
| Strings.DecimalLength | App.tsx:166 | a number in [10^k, 10^(k+1)) has k + 1 digits |
| Strings.LastN | App.tsx:182 | `slice(-n)` gives the last n characters, or the whole string when it is shorter |
| Strings.FirstWord | App.tsx:93 | the first word is a prefix of the name, contains no space, and is followed by a space or the end |
| Collections.Filter | components/AdminPanel.tsx:63 | the kept elements satisfy the predicate and come from the input; every satisfying element is kept |
| Collections.FilterConcat | components/AdminPanel.tsx:63 | filtering distributes over concatenation, so store order is preserved |
| Collections.FilterMultiplicity | components/AdminPanel.tsx:74-75 | filtering keeps every copy of a satisfying element and none of the others |
| Collections.FilterAll | App.tsx:51 | filtering keeps everything when every element satisfies the predicate |
| Collections.FilterLengthUpdate | App.tsx:83 | replacing one element changes the filtered count by the difference the replacement makes |
| Collections.Insert | components/AdminPanel.tsx:76 | inserting into a sorted sequence keeps it sorted and adds exactly that element |
| Collections.SortDesc | components/AdminPanel.tsx:76 | the sort result is ordered non-increasingly by the key and is a permutation of the input |
| Collections.FilterSorted | components/AdminPanel.tsx:78-94 | filtering a sorted sequence keeps it sorted |
| Collections.FilterIf | components/AdminPanel.tsx:78-94 | a filter stage that may be switched off never lengthens the list |
| Collections.FilterIfMultiplicity | components/AdminPanel.tsx:78-94 | a stage keeps all copies of the elements it lets through and none of the others |
| Collections.FilterIfSorted | components/AdminPanel.tsx:78-94 | a stage keeps a sorted list sorted |
| MockStore.IndexOfId | services/mockStore.ts:101 | `findIndex` gives -1 exactly when the id is absent, otherwise the first position holding it |
| MockStore.DefaultConfig | services/mockStore.ts:10-28 | the configuration in force while none is saved, value for value |
| MockStore.IdTaken | services/mockStore.ts:38 | `tickets.some(t => t.id === id)` |
| MockStore.StoredId | services/mockStore.ts:35-40 | a taken id gets '-' and the suffix appended and so differs from the original; a free id is kept |
| MockStore.SaveKeepsIdsUnique | services/mockStore.ts:37-41 | after a save, ids stay unique exactly when the stored id was free |
| MockStore.SuffixedIdCanCollide | services/mockStore.ts:38-39 | when the suffixed id is itself taken, the save creates a duplicate id |
| MockStore.SetStatus | services/mockStore.ts:99-108 | only the first ticket with the id changes, getting the status, processing admin and time; an unknown id changes nothing |
| MockStore.Processed | services/mockStore.ts:103-105 | the three fields a decision assigns: status, processing admin and time |
| MockStore.MarkWinner | services/mockStore.ts:54-58 | only the first ticket with the id gets the winner flag; an unknown id changes nothing |
| MockStore.MarkWinnerIdempotent | services/mockStore.ts:54-58 | marking a ticket as winner twice is the same as marking it once |
| MockStore.WinnerOf | services/mockStore.ts:60-67 | the winner record is a snapshot of the ticket's id, name, prize and number, with the new id and time |
| MockStore.WinnerText | services/mockStore.ts:72 | the breaking news "NEW WINNER: <name> secured a <prize>!" with the prize's enum value |
| MockStore.PushArchive | services/mockStore.ts:93-94 | the new announcement heads the archive, the old entries follow shifted by one, and the length is capped at 50 |
| MockStore.BroadcastAllContents | services/mockStore.ts:87-97 | after any number of broadcasts the archive holds the newest entries, newest first, at most 50 |
| MockStore.ArchiveDropsOldest | services/mockStore.ts:94 | after 51 broadcasts into an empty archive, 50 remain, the newest first and the first one dropped |
| MockStore.Store.constructor | services/mockStore.ts:30-33 | an empty store is consistent and holds nothing |
| MockStore.Store.GetTickets | services/mockStore.ts:30-33 | returns the stored ticket list |
| MockStore.Store.GetWinners | services/mockStore.ts:45-48 | returns the stored winner list |
| MockStore.Store.GetNewsArchive | services/mockStore.ts:77-80 | returns the stored archive, which never exceeds 50 entries |
| MockStore.Store.GetAnnouncement | services/mockStore.ts:82-85 | returns the saved announcement, or the fixed default text stamped with the current time |
| MockStore.Store.GetConfig | services/mockStore.ts:110-113 | returns the saved configuration, or the defaults (price 100, five referrals, an image per prize) |
| MockStore.Store.SaveConfig | services/mockStore.ts:115-117 | replaces the configuration and nothing else |
| MockStore.Store.SaveTicket | services/mockStore.ts:35-43 | appends the ticket, renamed when its id is taken, and changes no other record |
| MockStore.Store.UpdateTicketStatus | services/mockStore.ts:99-108 | the ticket list becomes `SetStatus` of the old one; nothing else changes |
| MockStore.Store.SaveAnnouncement | services/mockStore.ts:87-97 | the announcement becomes current and heads the capped archive; the store stays consistent |
| MockStore.Store.DeclareWinner | services/mockStore.ts:50-75 | marks the stored ticket, appends the winner snapshot and broadcasts the breaking winner text |
| MockStore.DeclareTwice | services/mockStore.ts:50-75 | declaring the same ticket twice adds two winner records, while the ticket list is as after one declaration |
| MockStore.ConfigRoundTrip | services/mockStore.ts:110-117 | the configuration read back after a save is the one saved |
| AdminPanel.PendingTickets | components/AdminPanel.tsx:63 | the queue holds exactly the pending tickets |
| AdminPanel.ProcessedKey | components/AdminPanel.tsx:76 | the sort key `processedAt || 0` |
| AdminPanel.MatchesSearch | components/AdminPanel.tsx:78-86 | an empty query matches everything; otherwise the lowercased query occurs in the lowercased name, ticket number or processing admin, or as typed in the mobile number |
| AdminPanel.MatchesStatus | components/AdminPanel.tsx:88-90 | 'all' matches every ticket; otherwise the status must equal the one chosen |
| AdminPanel.MatchesAdmin | components/AdminPanel.tsx:92-94 | 'all' matches every ticket; otherwise the processing admin must equal the one chosen |
| AdminPanel.InHistory | components/AdminPanel.tsx:73-97 | a ticket is processed and passes the search, status and admin filters |
| AdminPanel.HistoryTickets | components/AdminPanel.tsx:73-97 | the processed tickets sorted descending by `processedAt || 0`, then each active filter applied in turn: search, status, admin |
| AdminPanel.CanDeclareWinner | components/AdminPanel.tsx:189 | the Declare Winner button shows for an approved ticket that is not yet a winner |
| AdminPanel.PendingInStoreOrder | components/AdminPanel.tsx:63 | the queue keeps store order |
| AdminPanel.ReviewShrinksQueue | components/AdminPanel.tsx:35-39 | a decision never makes a processed ticket pending; the queue shrinks by one exactly when the id named a pending ticket |
| AdminPanel.AdminIdentifier | components/AdminPanel.tsx:36 | the recorded admin is the configured name, or the login email when the name is empty |
| AdminPanel.SearchIgnoresCase | components/AdminPanel.tsx:78-86 | a query in any case finds a ticket whose name, ticket number or processing admin contains it as typed; queries that lowercase alike select the same tickets |
| AdminPanel.HistoryMultiplicity | components/AdminPanel.tsx:73-97 | the history keeps each ticket as often as it is processed and matching, stage by stage |
| AdminPanel.HistorySorted | components/AdminPanel.tsx:74-76 | the history is ordered newest-processed first, a missing time counting as 0 |
| AdminPanel.HistorySoundAndComplete | components/AdminPanel.tsx:73-97 | the history is a permutation of the processed, matching tickets: every entry matches, and every matching ticket is listed |
| AdminPanel.HistoryUnfilteredIsAllProcessed | components/AdminPanel.tsx:73-97 | with no search and both filters on 'all', the history is every processed ticket |
| AdminPanel.UniqueAdmins | components/AdminPanel.tsx:65-71 | the admin list has no repeats, lists only non-empty processing admins, and lists every one of them |
| AdminPanel.HandleStatus | components/AdminPanel.tsx:35-39 | records the decision under the admin identifier and returns the refreshed list |
| AdminPanel.DeclareButtonOnlyForProcessed | components/AdminPanel.tsx:189 | a ticket offered for declaration is approved and listed in the history; once it is declared, the first stored ticket with its id (the one the store marks) is no longer offered, though a duplicate-id ticket still can be |
| AdminPanel.HandleDeclareWinner | components/AdminPanel.tsx:41-47 | without confirmation nothing changes; with it, the ticket is marked, a winner record appended, and the breaking winner text becomes the current announcement at the head of the archive |
| AdminPanel.HandleBroadcast | components/AdminPanel.tsx:49-55 | an empty message changes nothing; any other one becomes the current non-breaking announcement |
| App.ValidateForm | App.tsx:130-156 | the form passes exactly when all four checks hold; otherwise it reports the first failing check, in the order name, mobile, prize, receipt |
| App.IsMobileNumber | App.tsx:139-140 | `/^03[0-9]{9}$/`: exactly eleven characters, "03" then nine ASCII digits |
| App.NameOk | App.tsx:134 | the trimmed name has at least three UTF-16 code units |
| App.WarningText | App.tsx:134-153 | the warning toast text of each failed check, in the source's wording |
| App.MobileFormatExamples | App.tsx:139-140 | a well-formed number is accepted; numbers that are too short or too long, or have the wrong prefix or a non-digit, are refused |
| App.CleanEntry | App.tsx:130-134 | a form whose fields carry no edge white space is judged on the fields as typed, and the ticket keeps them unchanged |
| App.AliKhanAccepted | App.tsx:130-156 | a concrete well-formed entry passes validation |
| App.TicketNumber | App.tsx:166 | the ticket number is "VIP-" followed by five digits, with no leading zero, whose value is 10000 plus the draw |
| App.ReferralCodeFor | App.tsx:182 | the user's own non-empty code wins; otherwise the last four characters of the mobile number |
| App.NewTicket | App.tsx:170-185 | the new ticket is pending, carries the trimmed name and mobile, the receipt as a data URL, the referral code and the trimmed referrer, and the device class |
| App.FallbackReferralCodeIsFourDigits | App.tsx:182 | for an accepted form without a user code, the referral code is the last four digits of the mobile number |
| App.SubmitToast | App.tsx:130-198 | a refused form shows the warning of its failed check; the success toast appears exactly when the ticket is secured |
| App.WarningNamesTheCheck | App.tsx:134-153 | the four validation warnings are pairwise distinct, so each names its check |
| App.HandleBuyTicket | App.tsx:158-202 | a refused form or a failed encoding saves nothing; otherwise the new ticket is appended (renamed if its id is taken) |
| Collections.FilterSnoc | App.tsx:67-71 | one more element adds its own count to a filtered count |
| App.ComputeStats | App.tsx:62-71 | each prize and device counter equals the number of such tickets, and each group adds up to the total |
| App.StatsStep | App.tsx:67-71 | processing one ticket raises exactly its prize counter and its device counter |
| App.VerifiedReferralCount | App.tsx:82-85 | there is a count exactly when the user has a code, and it never exceeds the number of tickets |
| App.ReferralCountAfterReview | App.tsx:83 | a decision on any ticket with the id removes that ticket's old contribution to the count and adds its new one: approving a referred ticket counts it, and re-rejecting an approved referred ticket takes one away |
| App.ReferralCountAfterFirstReview | App.tsx:83 | on a pending ticket, approving one referred with the code raises the count by one; any other decision on a pending ticket leaves it |
| App.CountsForReferral | App.tsx:83 | a ticket counts for a code when it was referred with that code and is approved |
| App.MostPopular | App.tsx:91 | "Fun Mobile" exactly when Mobile strictly leads Bike, otherwise "Motorbike" |
| App.NewsItems | App.tsx:87-94 | four fixed items, then one RECENT item for each of the last (at most five) tickets, oldest first |
| App.RecentItem | App.tsx:93 | one RECENT line: the entrant's first word and the device class the ticket was filed from |
| App.AdminLogin | App.tsx:118-128 | login succeeds exactly when both the email and the key match the configuration |
| App.DefaultCredentials | App.tsx:120 | with the default configuration, the default pair logs in and no other key does |
| App.AddToast | App.tsx:45-48 | appends one toast with the given id, message, kind and time and keeps the others |
| App.RemoveToast | App.tsx:50-52 | drops every toast with the id and keeps all the others |
| App.RemoveUndoesAdd | App.tsx:45-52 | removing a toast just added restores the list without it, and removing twice equals removing once |

## Left out

- The rendered views (JSX, styles, tabs, modals, the Toaster's timers), the `StatsBoard` and `WinnerWall` components and the AI service are outside the model. The AI calls catch their own errors, so they never change the outcome of a submission.
- `localStorage` and JSON: each stored record is a field of `Store`. A missing record is `None` or the empty list. The read-parse-write-back cycle is taken as exact, and a corrupt record (a parse error) is not modelled.
- A failing `localStorage.setItem` (for example a full quota, likely since receipts are stored inline as base64) is not modelled. In the source it saves nothing and `handleBuyTicket` reports the transmission warning; in the model every write succeeds.
- Polling, the `isHealthy` flag and the random walk of `activeVisitors` are left out. So is the lost-update hazard of two tabs writing the same key, since the model has a single store and no interleaving.
- `fileToBase64` is the parameter `encoded` of `App.HandleBuyTicket`. A rejected read is `None`; the part after the comma of the data URL is `Some`.
- The `Math.random` values, `Date.now`, the user-agent test and `toLocaleString` are parameters: `id`, `draw`, `suffix`, `winnerId`, `now`, `device` and `formatCount`. The base-36 shape of the random ids is not modelled.
- `window.confirm` is the `confirmed` parameter of `AdminPanel.HandleDeclareWinner`. The `alert` calls, `onAnnounce`, clearing the message box and the lucky-mantra text have no effect on the store and are left out.
- `handleConfigSave` only calls `saveConfig` and is covered by `MockStore.Store.SaveConfig`. Editing the configuration form is UI state.
- Optional fields: `isWinner`, `isReferralFree` and `isBreaking` are `bool`, with "absent" read as `false` because the code only tests them for truth. `processedBy`, `processedAt`, `referralCode`, `referredBy` and `celebrationPhoto` are `Option`.
- MockStore.Store.GetAnnouncement: the default announcement has no `isBreaking` field in the source; the model gives it `false`.
- MockStore.Store.DeclareWinner: the winner's timestamp and the announcement's timestamp come from two clock reads in the source; the model uses one instant `now` for both.
- Strings.Lower: only the ASCII letters are lowercased; Unicode case mapping beyond them is not modelled.
- Strings.LowerChar: leaves every non-ASCII character unchanged, where `toLowerCase` maps non-ASCII capitals too.
- Collections.SortDesc: it is a stable sort, like the engine's `Array.prototype.sort`, but stability is not proved; its contract states ordering and permutation only.
- AdminPanel.UniqueAdmins: the result is in first-occurrence order like the source's `Set`, but the contract does not state that order.
- App.NewTicket: the source leaves `isWinner`, `isReferralFree`, `processedBy` and `processedAt` undefined on a new ticket; the model gives them `false` and `None`.
- App.ValidateForm: the prize check takes the raw selection string. In the page the selection is typed as a prize, so this check cannot fail there.
- Concrete examples that build a whole ticket from literal strings are not stated. The literal unfolding they need is too costly for the verifier. `App.CleanEntry` and `App.FallbackReferralCodeIsFourDigits` state the same facts for all inputs.
