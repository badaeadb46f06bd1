# sae-crm business rules in Dafny

sae-crm is the administrative dashboard of a membership organisation.
It manages companies, executives, memberships, projects and presentations.
Its largest feature is the macro-event: a group of events with invitation lists, e-mail campaigns, QR check-in and attendance reports.
The dashboard reads rows from a hosted database and computes its views inside React components.
This project models those computations as pure Dafny functions over immutable rows and proves what they guarantee.

Every database table is a `seq` of row datatypes (`Tables`).
A read that can fail is a `Fetch` value (`Basics`).
A write that can fail is named in a set of failing steps, or by a boolean flag.
Clocks, the camera, the spreadsheet and CSV parsers, and the mail and QR libraries are not modelled.
What they hand to the modelled code is a parameter instead: parsed rows, the scanned text, the send outcome of each batch.

The modules follow the components:

- `Basics`, `Seqs`, `Text`, `Paging`, `Batching`, `Tables`, `Dates`: the shared pieces.
  - Nullable columns, read outcomes, JavaScript truthiness, and the all-or-nothing result of a loop that stops at its first failure.
  - `filter`, counting, `slice`, de-duplication, sums, checkbox toggles, and a sort under an abstract `localeCompare`.
  - `toLowerCase`, `trim`, `includes`, `split`, `join`, `${n}` and `parseInt`.
  - Page counts, `slice` with JavaScript index rules and server row ranges.
  - The 1000-recipient batches.
  - `convertDateFormat`.
- `Attendance`, `Consolidation`, `EmailTable`: the campaign table of a list (`src/components/EmailTable.tsx`).
  - The attendance dictionary and the merge of internal and external guests.
  - The greeting fields and the last e-mail sent for macro-event 5.
  - The visible list, the selection, and the batched send with its log rows.
- `GuestTable`, `Qr`: the guest table of a list inside a macro-event (`src/components/macroEvent/EventGuestTable.tsx`), and the check-in payloads.
- `EventGuestTable2`: the server-paged guest table of one event.
- `ScanGuests`: the check-in scanner.
- `ReportList`, `MacroReport`, `EventTypeReport`: the attendance report, the macro-event statistics and the per-modality table.
- `ImportExternals`: the spreadsheet import of external guests.
- `MacroEvents`: the macro-event page, with its expand toggle and delete cascades.
- `EventForm`, `PresentationForm`: the two forms with logic.
- `Memberships`, `Projects`: the membership and project lists.
- `LoadEmails`: the CSV mail-out page.
- `CompanySearch`: the company-or-guest filter.

Several behaviours of the code are kept as they are, and lemmas state them:

- The confirm dialog of a campaign only offers the `"registro"` type. That type has no template id, so a confirmed campaign always stops before sending (`EmailTable.ConfirmDialogNeverSends`).
- The list view puts a `guest` id after `E-`, while the event view and the scanner read the number after `E-` as an `event_guest` id. Only the text round trip of a payload is proved: the scanner reads the number back, not the row the payload was made for.
- The recipients of a campaign are a fixed list in the code, not the selection. The batching is modelled over any recipient sequence.
- A failed CSV batch is only logged. The later batches are still sent, and the final status counts every loaded e-mail.
- A copied event whose own insert failed crashes when it reads the new event's id, provided the copied event has guests.
- Deleting a list that has no guests keeps its `event_list` rows. Deleting a list or an event does not reload the page's lists, so the item comes back when the macro-event is expanded again.
- Deleting a macro-event deletes only its own row.
- The membership search does not reset the current page, and the initial load shows every membership.
- The membership pager disables "Anterior" on page 1 and "Siguiente" on the last page. A press of a disabled button is modelled as asking for the current page, which changes nothing.

## Model

| member | source | states |
|---|---|---|
| Attendance.LastWins | src/components/EmailTable.tsx:139-147 | every guest with a row for the event has an entry, and it carries the id and flags of that guest's last row |
| Attendance.LastWinsStep | src/components/EmailTable.tsx:140-146 | one assignment `map[guest_id] = {...}` keeps "one entry per guest, from its last row" true for the longer prefix |
| Attendance.OrMerge | src/components/EmailTable.tsx:171-186 | in list-wide mode every guest has one entry, holding the id of its first row; its assisted and registered flags are set exactly when some row of that guest has them set |
| Attendance.OrMergeStep | src/components/EmailTable.tsx:172-184 | one step of the OR-reduction keeps the keys, the first-row id and both flag equivalences for the longer prefix |
| Attendance.OrMergeIds | src/components/EmailTable.tsx:172-184 | a row of a guest already in the map leaves its id untouched; a new guest gets its entry from this row |
| Attendance.OrMergeFlags | src/components/EmailTable.tsx:174-176 | ORing a row's flags into its guest's entry keeps "flag set iff some row of the guest has it" |
| Attendance.AttendanceMap | src/components/EmailTable.tsx:128-189 | with a truthy eventId, the last-wins map of that event's rows; otherwise the OR-merge of the rows of all events linked to the list; a failed read leaves the map empty |
| Attendance.ListEventIds | src/components/EmailTable.tsx:150-155 | the ids are exactly the event ids of the list's `event_list` links |
| Consolidation.Consolidate | src/components/EmailTable.tsx:236-252 | internal guests take position, user type and membership type from their executive; external guests take them from their own columns; client companies take the joined razon_social; anything missing becomes `''`; the flags and the `event_guest` are those of the guest's attendance entry, or unset when it has none |
| Consolidation.NoEntryNoAttendance | src/components/EmailTable.tsx:251-252 | a guest with no attendance entry shows neither assisted nor registered and has no event_guest |
| Consolidation.ListWideAttendance | src/components/EmailTable.tsx:171-186 | in list-wide mode a guest shows assisted (registered) exactly when one of its rows for a linked event is assisted (registered) |
| Consolidation.SingleEventAttendance | src/components/EmailTable.tsx:139-147 | in single-event mode a guest shows the flags and the entry of its last row for the event |
| Batching.PlanBatches | src/components/EmailTable.tsx:768-774 | the loop over `Math.ceil(n / 1000)` batches produces exactly the chunking of the recipients: the right number of batches, none empty or above the size, and their concatenation is the input |
| Batching.BatchIsChunk | src/components/EmailTable.tsx:771-773 | the slice `[i * size, min((i + 1) * size, n))` is the i-th chunk |
| EmailTable.FirstTypeByEmail | src/components/EmailTable.tsx:204-213 | the map has a key for each address in the logs, and it holds the type of that address's first log in query order |
| EmailTable.FirstTypeStep | src/components/EmailTable.tsx:207-211 | putting a log in front keeps "first log of each address wins" |
| EmailTable.LastEmailSent | src/components/EmailTable.tsx:192-217 | never empty; `'ninguno'` when the log read failed, when the address has no log of macro-event 5, or when its first such log's type is empty; otherwise the type of its first log of macro-event 5 |
| EmailTable.OtherMacroEventLogIgnored | src/components/EmailTable.tsx:192-198 | inserting a log of another macro-event anywhere in the logs never changes the reported type |
| EmailTable.LastEmailIsNewest | src/components/EmailTable.tsx:192-217 | with the logs of macro-event 5 ordered newest first, the reported type is that of a log of the address for macro-event 5 that no other such log is newer than |
| EmailTable.FirstIndexOf | src/components/EmailTable.tsx:207-209 | the index of the first log of an address: no earlier log has that address |
| EmailTable.ConsolidateForCampaign | src/components/EmailTable.tsx:215-259 | the campaign row: the shared columns, the last e-mail type and its label (falling back to "Invitación no enviada"), and apodo/estimado/tareco from the executive's trimmed non-blank values with fallbacks name/"Estimado(a)"/"-" |
| EmailTable.GreetingFields | src/components/EmailTable.tsx:223-234 | estimado and tareco are never empty; apodo is empty only when the name is; each is a trimmed executive value or its fallback |
| EmailTable.NoLogNotInvited | src/components/EmailTable.tsx:192-218 | a guest with no log for macro-event 5, whatever other macro-events sent it, is shown as "Invitación no enviada" |
| EmailTable.FetchCampaignGuests | src/components/EmailTable.tsx:94-260 | a failed guest read leaves the table empty; otherwise one consolidated row per guest of the list, in query order, each carrying the last e-mail type of macro-event 5 sent to its address |
| EmailTable.VisibleGuests | src/components/EmailTable.tsx:63-92 | the visible rows are sorted by company; they are exactly the non-free-trial guests (that match the last-e-mail filter unless it is `'todos'`), and none is added or duplicated |
| EmailTable.Shown | src/components/EmailTable.tsx:70-76 | the two filters keep exactly the non-free-trial guests matching the e-mail filter, without adding rows |
| EmailTable.UserTypeOptions | src/components/EmailTable.tsx:269-275 | `'Todos'` comes first, no option repeats, and the other options are exactly the guests' non-empty user types other than `'Todos'` |
| EmailTable.UserTypeOfSomeGuest | src/components/EmailTable.tsx:269-275 | a user type is offered iff it is non-empty, not `'Todos'`, and some guest has it |
| EmailTable.FilterKeepsDistinct | src/components/EmailTable.tsx:272-274 | filtering a duplicate-free list (the `Set`) keeps it duplicate-free |
| EmailTable.SelectGuest | src/components/EmailTable.tsx:280-286 | the clicked guest's checkbox flips and no other guest's does |
| EmailTable.SelectAll | src/components/EmailTable.tsx:288-300 | with the flag off, the selection gains every visible id without duplicates; with it on, it loses exactly the visible ids; the flag flips |
| EmailTable.SelectAllTwice | src/components/EmailTable.tsx:288-300 | two clicks restore the flag and leave the earlier selection minus the visible guests |
| EmailTable.SendCampaign | src/components/EmailTable.tsx:302-326 | nothing happens with no guest selected or a type without a template; otherwise one request per batch of at most 1000, with the type's template, every personalization blind-copied to the fixed address and linking to the registration page of its own encoded e-mail, and every log row has the type and macro-event 5 |
| EmailTable.CampaignLogs | src/components/EmailTable.tsx:777-819 | log rows carry the e-mail type and macro-event 5, and there are never more than recipients |
| EmailTable.RequestsCoverRecipients | src/components/EmailTable.tsx:774-788 | the requests, concatenated, hold one personalization per recipient, in order, each with the recipient's address, name, greeting and nickname |
| EmailTable.AllDeliveredAllLogged | src/components/EmailTable.tsx:790-816 | when every batch is delivered and logged there is one log row per recipient, in order |
| EmailTable.NoneDeliveredNoneLogged | src/components/EmailTable.tsx:798-800 | when every send fails nothing is logged, since the throw skips the insert |
| EmailTable.DeliveredAt | src/components/EmailTable.tsx:804-816 | a recipient of a batch that was sent and whose insert succeeded counts as delivered |
| EmailTable.DeliveredLater | src/components/EmailTable.tsx:770-822 | a recipient delivered by a later batch is delivered by the whole loop |
| EmailTable.LogsOnlyForDelivered | src/components/EmailTable.tsx:798-816 | every log row names a recipient of a batch whose send succeeded and whose insert succeeded |
| EmailTable.ConfirmDialogNeverSends | src/components/EmailModal.tsx:14-36 | the dialog's only type, `"registro"`, has no template id, so confirming it never sends (see EmailTable.tsx:315-326) |
| GuestTable.FetchListGuests | src/components/macroEvent/EventGuestTable.tsx:150-274 | a failed guest read leaves the table empty; otherwise one consolidated row per guest of the list, in query order, with the attendance dictionary of the list or event |
| GuestTable.ListGuestName | src/components/macroEvent/EventGuestTable.tsx:247-249 | an external guest's name is its `name` or `''`; an internal guest's has no surrounding blanks and is never empty when the executive's name is missing |
| GuestTable.MissingExecutiveName | src/components/macroEvent/EventGuestTable.tsx:247-249 | an internal guest without an executive is named `"undefined"` |
| GuestTable.Search | src/components/macroEvent/EventGuestTable.tsx:98-114 | an empty query keeps every guest; otherwise exactly the guests whose normalised lower-cased name or company contains the normalised lower-cased query |
| GuestTable.TriFilter | src/components/macroEvent/EventGuestTable.tsx:115-125 | `'todos'` keeps everyone; `'si'`/`'no'` keep exactly the guests whose flag is set/unset |
| GuestTable.Filtered | src/components/macroEvent/EventGuestTable.tsx:96-125 | a guest survives the filters iff it matches the search and both flag filters, and none is added |
| GuestTable.NoFilterNoEffect | src/components/macroEvent/EventGuestTable.tsx:96-125 | with every filter off the filtered list is the whole list |
| GuestTable.ShowPage | src/components/macroEvent/EventGuestTable.tsx:139-147 | the visible rows are the rows of the current page of the filtered list, sorted by company within the page, at most 100 of them, and the page count is `ceil(filtered / 100)` |
| GuestTable.VisibleIsSlice | src/components/macroEvent/EventGuestTable.tsx:139-142 | the visible rows are the slice `[(page - 1) * 100, page * 100)` of the filtered list |
| GuestTable.PageButton | src/components/macroEvent/EventGuestTable.tsx:291-318 | "previous" asks for page - 1 and is disabled only on page 1; "next" asks for page + 1 and is disabled only on page totalPages |
| GuestTable.NextPastTheEnd | src/components/macroEvent/EventGuestTable.tsx:147 | with no matching guest the page count is 0, the "next" button stays enabled on page 1 and leads to an empty page |
| GuestTable.QrPayload | src/components/macroEvent/EventGuestTable.tsx:348-350 | the payload is `I-<executive id>` for internal guests and `E-<guest id>` for external ones, and it parses back to that kind and id; an internal guest without executive or company breaks the generation |
| GuestTable.QrTargets | src/components/macroEvent/EventGuestTable.tsx:322-332 | the guests of the list, or only the one asked for |
| GuestTable.QrBatch | src/components/macroEvent/EventGuestTable.tsx:321-410 | a failed read produces nothing; otherwise the payloads of every target in order, unless one target breaks the whole batch |
| Qr.ParsePayload | src/components/ScanGuests.tsx:58 | the prefix is the text before the first dash; there is an id part exactly when the text holds a dash, and neither part holds one |
| Qr.SplitPrefix | src/components/ScanGuests.tsx:58 | the first part of `split('-')` is a prefix of the text, and there are several parts exactly when the text holds a dash |
| Qr.PayloadRoundTrip | src/components/ScanGuests.tsx:58 | splitting a generated `` `${prefix}-${id}` `` (see EventGuestTable.tsx:348-350) gives back the prefix and the decimal text of the id, which reads back as the id |
| Qr.Payload | src/components/macroEvent/EventGuestTable.tsx:348-350 | the payload is the prefix, a dash, and text that reads back as the id |
| ScanGuests.MarkAssisted | src/components/ScanGuests.tsx:73-77 | `update({ assisted: true })` sets the flag on exactly the selected rows and leaves every other row as it was |
| ScanGuests.GuestIdsOf | src/components/ScanGuests.tsx:61-72 | the ids are exactly those of the guests of the executive, from any list |
| ScanGuests.ExternalEmail | src/components/ScanGuests.tsx:85-100 | `.single()` succeeds only when exactly one row has the id; the scan goes on only when that row's e-mail is neither null nor empty |
| ScanGuests.Dispatch | src/components/ScanGuests.tsx:58-115 | a scan only ever sets `assisted`, only on rows of the scanner's event, and a prefix other than `I` or `E` changes nothing |
| ScanGuests.HandleScan | src/components/ScanGuests.tsx:51-57 | with no detected code nothing changes; otherwise only the first detected code is used: scanning stops, its text is kept for display, and the table becomes what that one text dispatches to |
| ScanGuests.ScanId | src/components/ScanGuests.tsx:58-64 | the scanned id is a number exactly when the text after the dash is a non-empty run of digits |
| ScanGuests.ScanIdOfPayload | src/components/ScanGuests.tsx:58-64 | scanning a generated payload reads back the id it was generated from |
| ScanGuests.OnlyAssistedWritten | src/components/ScanGuests.tsx:73-77 | every column except `assisted` is kept, and no set flag is cleared |
| ScanGuests.InternalScan | src/components/ScanGuests.tsx:59-83 | an `I-<id>` code sets `assisted` on exactly the event's rows whose guest belongs to executive id, and on no other row |
| ScanGuests.ExternalScan | src/components/ScanGuests.tsx:84-110 | an `E-<id>` code sets `assisted` on exactly the event's rows with that row's e-mail; a missing row or e-mail changes nothing |
| ScanGuests.UnreadableIdNoChange | src/components/ScanGuests.tsx:58-64 | a code whose id does not read as a number changes nothing |
| ScanGuests.ScanIdempotent | src/components/ScanGuests.tsx:51-115 | scanning the same code twice leaves the table as scanning it once |
| ScanGuests.MarkTwice | src/components/ScanGuests.tsx:73-77 | marking the same rows again changes nothing |
| ScanGuests.SameEmailAfterMarking | src/components/ScanGuests.tsx:85-89 | setting flags does not change the e-mail the lookup of an id finds |
| ScanGuests.SameIdsSameHits | src/components/ScanGuests.tsx:85-89 | rows that differ only in their flags are found by the same id lookups, at the same positions |
| ScanGuests.EventViewCodeChecksIn | src/components/EventGuestTable2.tsx:171-173 | a code the event view generates for an external row with a unique id and a non-empty e-mail checks that row in when scanned (see ScanGuests.tsx:84-110) |
| ScanGuests.OnlyHit | src/components/ScanGuests.tsx:85-89 | a lookup of a unique id finds only its row |
| EventGuestTable2.Matching | src/components/EventGuestTable2.tsx:79-80 | exactly the rows of the event whose own `name` column contains the query, ignoring case |
| EventGuestTable2.FetchPage | src/components/EventGuestTable2.tsx:67-98 | a failed read keeps the previous view; otherwise the rows of the page's inclusive range of the matching rows, at most 20 and sorted by company, with `ceil(count / 20)` pages |
| EventGuestTable2.RangeArithmetic | src/components/EventGuestTable2.tsx:81 | page p asks for rows `(p - 1) * 20` to `p * 20 - 1`, which is 20 rows, and page p + 1 starts right after |
| EventGuestTable2.PagesCoverMatches | src/components/EventGuestTable2.tsx:81 | the range of page k + 1 is the k-th chunk of 20 of the matching rows, so the pages show every match exactly once |
| EventGuestTable2.YesNo | src/components/EventGuestTable2.tsx:306-307 | `"Sí"` exactly for a set flag |
| EventGuestTable2.DisplayAgreesWithListView | src/components/EventGuestTable2.tsx:284-305 | the event view shows the same name, company, position, e-mail and user type as the list view consolidates, but always the guest's own membership column |
| EventGuestTable2.DisplayRow | src/components/EventGuestTable2.tsx:284-308 | the flag cells say `"Sí"` exactly when the flag is set; the session-time cell is `"N/A"` exactly when the time is missing or zero, and otherwise reads back as the time |
| EventGuestTable2.QrPayload | src/components/EventGuestTable2.tsx:171-173 | `I-<executive id>` for internal rows, `E-<event_guest id>` for external ones, parsing back to that kind and id; an internal row without executive or company breaks the generation |
| EventGuestTable2.QrTargets | src/components/EventGuestTable2.tsx:143-155 | the matching rows of the event, or only the one asked for |
| EventGuestTable2.QrBatch | src/components/EventGuestTable2.tsx:142-233 | a failed read produces nothing; otherwise every target's payload in order, unless one breaks the batch |
| Paging.CeilDiv | src/components/MacroEventReportList.tsx:222 | `Math.ceil(n / size)` is the least page count whose pages hold all n rows, and it is 0 exactly for no rows |
| Paging.CeilDivUnique | src/components/MacroEventReportList.tsx:222 | no other count meets both bounds, so the page count is determined by them |
| Paging.SliceIndex | src/components/MacroEventReportList.tsx:221 | `slice` clips an index into `[0, len]`, counting a negative index from the end |
| Paging.JsSlice | src/components/MacroEventReportList.tsx:221 | `slice(start, end)` never grows the list, holds at most `end - start` rows, and for ordered non-negative bounds is the clipped subsequence |
| Paging.Page | src/components/MacroEventReportList.tsx:221 | a page holds at most size rows, all from the list, and is the slice `[(page - 1) * size, page * size)` clipped to the list; page 0 is empty |
| Paging.PageIsSlice | src/components/macroEvent/EventGuestTable.tsx:139-142 | the page equals the slice with the products `(page - 1) * size` and `page * size` |
| Paging.PageNonEmptyIff | src/components/MacroEventReportList.tsx:221-222 | a page holds rows exactly when it is one of pages `1..ceil(n / size)` |
| Paging.Chunks | src/components/EmailTable.tsx:768-774 | the rows cut into `ceil(n / size)` non-empty chunks of at most size rows, whose concatenation is the list |
| Paging.ChunkIsPage | src/components/MacroEventReportList.tsx:221-222 | the k-th chunk is page k + 1, so paging through visits every row once, in order |
| Paging.PageShift | src/components/MacroEventReportList.tsx:221 | dropping the first page shifts every later page down by one |
| Paging.NextPage | src/components/MacroEventReportList.tsx:354 | `Math.min(page + 1, totalPages)`: one page further unless already at the last, and never past totalPages |
| Paging.PrevPage | src/components/MacroEventReportList.tsx:345 | `Math.max(page - 1, 1)`: one page back, never below 1 |
| Paging.ButtonsStayInRange | src/components/MacroEventReportList.tsx:345-354 | from a page in `[1, totalPages]` both buttons stay in that range, and each undoes the other away from the ends |
| Paging.RangeFor | src/components/EventGuestTable2.tsx:81 | the inclusive range of a page spans exactly size rows |
| Paging.RangesAdjacent | src/components/EventGuestTable2.tsx:81 | consecutive pages ask for adjacent ranges: nothing skipped, nothing fetched twice |
| Paging.RangeRows | src/components/EventGuestTable2.tsx:81 | the server returns the rows from `from` through `to`, as far as they exist |
| Paging.RangeIsPage | src/components/EventGuestTable2.tsx:81 | a server-side range returns the same rows as the client-side page |
| Paging.ChangePage | src/app/membresias/page.tsx:100-104 | a target page in `[1, totalPages]` is taken, any other target is ignored |
| Memberships.Search | src/app/membresias/page.tsx:81-87 | a blank query keeps every membership; otherwise exactly those whose name or company razon_social contains the lower-cased query, ignoring case |
| Memberships.ApplyFilters | src/app/membresias/page.tsx:78-98 | the page count is `ceil(matches / 10)` and the rows shown are the current page of the matches, at most 10 |
| Memberships.Load | src/app/membresias/page.tsx:61-76 | a successful load stores every membership and shows them all, with the page count of 10 per page; a failed one changes nothing |
| Memberships.SetQuery | src/app/membresias/page.tsx:56-59 | a changed query re-applies the filters and keeps the current page |
| Memberships.HandlePageChange | src/app/membresias/page.tsx:100-104 | a page outside `[1, totalPages]` is ignored; a new valid page re-applies the filters on it |
| Memberships.ApplyFiltersReads | src/app/membresias/page.tsx:78-98 | the filters depend only on the loaded rows, the query and the page |
| Memberships.MoveTo | src/app/membresias/page.tsx:100-104 | moving to another valid page keeps the page count |
| Memberships.PagerStaysInRange | src/app/membresias/page.tsx:114-136 | from a valid page the buttons move one page, stop at the ends and keep the page count |
| Memberships.Previous | src/app/membresias/page.tsx:100-123 | "Anterior" moves one page back, re-applying the filters, exactly when the page before is valid; otherwise nothing changes |
| Memberships.Next | src/app/membresias/page.tsx:100-134 | "Siguiente" moves one page on, re-applying the filters, exactly when the current page is before the last; otherwise nothing changes |
| Memberships.MoveAndBack | src/app/membresias/page.tsx:100-104 | moving to another valid page and back restores the state |
| Memberships.NextThenPrevious | src/app/membresias/page.tsx:114-136 | away from the last page, "Anterior" undoes "Siguiente" |
| Memberships.PreviousThenNext | src/app/membresias/page.tsx:114-136 | away from page 1, "Siguiente" undoes "Anterior" |
| Memberships.ValidPageNotEmpty | src/app/membresias/page.tsx:91-97 | a valid page shows some rows, all of them matches |
| Memberships.NarrowedSearchShowsEmptyPage | src/app/membresias/page.tsx:56-59 | a search with fewer pages than the current page number shows an empty page and keeps the page number |
| Memberships.LoadShowsEverything | src/app/membresias/page.tsx:71-74 | right after loading more than 10 memberships, all of them are shown at once although there are several pages |
| Memberships.RenewalLabel | src/app/membresias/page.tsx:188 | `'Sí'` exactly when the proposal is signed and the invoice sent, `'No'` otherwise |
| Memberships.AreaCell | src/app/membresias/page.tsx:183 | the area only when the membership is per area, empty otherwise |
| Memberships.RenewalDateCell | src/app/membresias/page.tsx:186 | empty exactly when the renewal date is missing or empty |
| Dates.Part | src/app/membresias/page.tsx:109 | a destructured element is present exactly when the split has that many pieces, and is then that piece |
| Dates.ConvertDate | src/app/membresias/page.tsx:106-112 | the cell is empty exactly when the date is missing or empty |
| Dates.SplitDate | src/app/membresias/page.tsx:109 | splitting `Y-M-D` on `'-'` gives the three components back |
| Dates.YearMonthDayReversed | src/app/membresias/page.tsx:106-112 | a `YYYY-MM-DD` date is shown as `DD-MM-YYYY`: the same three components, reversed |
| Dates.ConvertTwiceRestores | src/app/proyectos/page.tsx:54-60 | converting a converted date gives the original date back |
| Dates.BareYear | src/app/proyectos/page.tsx:54-60 | a date without a dash shows as `undefined-undefined-<date>` |
| Projects.Requester | src/app/proyectos/page.tsx:89-93 | the free-text requester when someone other than an executive asked; otherwise the executive's name, a blank and last name, a null part rendering as nothing |
| Projects.RequesterNamesExecutive | src/app/proyectos/page.tsx:92 | the executive's first name can be read back from the cell as the text before its first blank |
| Projects.Responsables | src/app/proyectos/page.tsx:94 | no assignee gives an empty cell; otherwise the names plus two characters per separator |
| Projects.JoinCommaSpace | src/app/proyectos/page.tsx:94 | joining with `", "` is joining with `","` names that carry a blank in front |
| Projects.ResponsablesListsAssignees | src/app/proyectos/page.tsx:94 | when no assignee has a comma, splitting the cell on `','` gives the assignees back, in order, each later one after the separator's blank |
| Projects.DateCells | src/app/proyectos/page.tsx:95-96 | each date cell is empty exactly when its date is missing or empty |
| Text.Lower | src/components/macroEvent/EventGuestTable.tsx:106-108 | `toLowerCase` keeps the length and lowers each character on its own |
| Text.LowerIdempotent | src/components/macroEvent/EventGuestTable.tsx:106-108 | lower-casing twice is lower-casing once |
| Text.Trim | src/components/EmailTable.tsx:220-234 | the trimmed text is no longer than the input, has no outer blank, and is empty exactly when the input is all blanks |
| Text.TrimUnwraps | src/components/EmailTable.tsx:220-234 | a text without outer blanks, padded with blanks, trims back to itself |
| Text.TrimIdempotent | src/components/EmailTable.tsx:225-234 | trimming twice is trimming once |
| Text.Split | src/components/ScanGuests.tsx:58 | `split` on one character gives at least one piece, and no piece holds the separator |
| Text.SplitJoin | src/app/proyectos/page.tsx:94 | splitting a join of separator-free pieces gives the pieces back |
| Text.JoinLength | src/app/proyectos/page.tsx:94 | a join is as long as its pieces plus one separator between neighbours |
| Text.Decimal | src/components/EventGuestTable2.tsx:171-173 | `${n}` is a non-empty run of decimal digits with no leading zero |
| Text.DecimalRoundTrip | src/components/ScanGuests.tsx:58-64 | reading a rendered number back gives the number |
| Text.ParseIntJs | src/app/macro-eventos/reportes/page.tsx:148 | `parseInt` gives a number only when the text holds a digit |
| Text.ParseIntJsDecimal | src/app/macro-eventos/reportes/page.tsx:148 | `parseInt` reads back a rendered id |
| Text.NonBlank | src/components/EmailTable.tsx:225-234 | `x?.trim()` used as a condition: absent exactly when the value is missing or blank, otherwise the trimmed value, which is non-empty and has no outer blank |
| Seqs.Filter | src/components/macroEvent/EventGuestTable.tsx:115-125 | `filter` keeps exactly the elements that pass, in order, without adding any |
| Seqs.FilterIdempotent | src/components/macroEvent/EventGuestTable.tsx:115-125 | applying the same filter twice is applying it once |
| Seqs.Dedup | src/components/EmailTable.tsx:272 | `[...new Set(s)]` has no duplicates and the same members as s |
| Seqs.DedupOfDistinct | src/components/EmailTable.tsx:295 | a list without duplicates is its own `new Set` |
| Seqs.Toggle | src/components/EmailTable.tsx:280-286 | the toggled element's membership flips, every other element's is kept, and an absent element is appended |
| Seqs.ToggleTwiceAbsent | src/components/EmailTable.tsx:280-286 | toggling an absent element twice restores the list |
| Seqs.InsertBy | src/components/EmailTable.tsx:81-83 | inserting into a sorted list keeps it sorted and adds exactly that element |
| Seqs.SortBy | src/components/EmailTable.tsx:81-83 | the `sort` by a `localeCompare` key is a permutation whose keys ascend |
| Seqs.TakeSorted | src/components/SearchableSelectFilterGuestCompany.tsx:54-56 | a prefix of a sorted list is sorted and holds only its elements |
| Seqs.Take | src/components/SearchableSelectFilterGuestCompany.tsx:54-56 | `limit(n)` gives a prefix of at most n rows, and n rows unless fewer exist |
| CompanySearch.CompanyQuery | src/components/SearchableSelectFilterGuestCompany.tsx:44-54 | at most five companies, fewer only when fewer match; every one matches the search ignoring case; they ascend by razon_social, and no matching company left out sorts before one kept |
| CompanySearch.GuestSuggestions | src/components/SearchableSelectFilterGuestCompany.tsx:63-65 | the first five guest names that contain the search ignoring case, in their order (all of them when fewer match) |
| CompanySearch.EmptySearchFirstFive | src/components/SearchableSelectFilterGuestCompany.tsx:63-65 | with an empty search the suggestions are the first five names |
| CompanySearch.FetchCompanies | src/components/SearchableSelectFilterGuestCompany.tsx:44-75 | on an error the options stay as they were; otherwise the returned companies come first, then the guest suggestions |
| CompanySearch.OptionsMatchSearch | src/components/SearchableSelectFilterGuestCompany.tsx:44-75 | after a successful search every option shows a name containing the search, the companies come before the guests, and there are at most ten options |
| CompanySearch.OptionsShowSearch | src/components/SearchableSelectFilterGuestCompany.tsx:71 | joining matching companies and matching names keeps their count and order, companies first |
| CompanySearch.HandleSelect | src/components/SearchableSelectFilterGuestCompany.tsx:77-81 | the choice is remembered, the dropdown closes, and the reported name is the option's label, or `'all'` for "Todos" |
| CompanySearch.SelectedOptionMatches | src/components/SearchableSelectFilterGuestCompany.tsx:77-81 | choosing an option of a search reports a name that contains the search |
| EventTypeReport.IndexOfType | src/components/EventTypeReportTable.tsx:18 | the position of the group of a type, with no earlier group of that type, or the end when there is none |
| EventTypeReport.AddTo | src/components/EventTypeReportTable.tsx:17-23 | an unseen type opens a group at the end, a seen type adds the entry's counts to its own group only, and both totals grow by the entry's counts |
| EventTypeReport.OpenGroup | src/components/EventTypeReportTable.tsx:18-20 | an entry of an unseen type opens a group with its counts at the end |
| EventTypeReport.JoinGroup | src/components/EventTypeReportTable.tsx:21-22 | an entry of a seen type adds its counts to that group and leaves the others alone |
| EventTypeReport.Grouped | src/components/EventTypeReportTable.tsx:17-24 | one group per distinct type, in first-appearance order, each holding the sums over exactly the entries of its type |
| EventTypeReport.UnseenType | src/components/EventTypeReportTable.tsx:18 | a type with no group yet has no entry among those reduced so far |
| EventTypeReport.SumsOfType | src/components/EventTypeReportTable.tsx:21-22 | adding an entry raises the sums of its own type only |
| EventTypeReport.GroupedTypes | src/components/EventTypeReportTable.tsx:17-24 | reducing one more entry keeps one group per type in first-appearance order |
| EventTypeReport.GroupedSums | src/components/EventTypeReportTable.tsx:17-24 | reducing one more entry keeps every group's sums equal to the sums over its type's entries |
| EventTypeReport.OneGroupPerType | src/components/EventTypeReportTable.tsx:38 | the table has exactly one row per event type of the input, with no repeats |
| EventTypeReport.GroupedSnoc | src/components/EventTypeReportTable.tsx:17 | the reduction handles the entries in order: the last one is added last |
| EventTypeReport.GroupTotals | src/components/EventTypeReportTable.tsx:17-24 | the group sums add up to the sums over all entries |
| EventTypeReport.NoStatsNoGroups | src/components/EventTypeReportTable.tsx:17-24 | the table is empty exactly when there are no entries |
| MacroReport.EventIds | src/app/macro-eventos/reportes/page.tsx:120 | the ids of the events, in order |
| MacroReport.EventsOf | src/app/macro-eventos/reportes/page.tsx:119 | exactly the events of the macro-event; an id that did not parse matches none |
| MacroReport.GuestsOf | src/app/macro-eventos/reportes/page.tsx:120 | exactly the rows whose event is one of the macro-event's |
| MacroReport.StatsPerEvent | src/app/macro-eventos/reportes/page.tsx:126-134 | one entry per event, in the events' order |
| MacroReport.CalculateStats | src/app/macro-eventos/reportes/page.tsx:118-140 | invited counts the rows of the macro-event's events, registered and attended count their flags and never exceed invited; one entry per event, in order, with its id, name and the registered and attended rows of that event |
| MacroReport.EventRowsAreCounted | src/app/macro-eventos/reportes/page.tsx:127 | an event's rows are all among the counted rows, so filtering first changes no per-event count |
| MacroReport.SumPerEvent | src/app/macro-eventos/reportes/page.tsx:126-134 | the per-event counts of events with distinct ids count each row exactly once |
| MacroReport.EventStatsSumToTotals | src/app/macro-eventos/reportes/page.tsx:118-140 | when the events have distinct ids, the per-event registered (attended) counts add up to the registered (attended) total |
| MacroReport.SelectedStats | src/app/macro-eventos/reportes/page.tsx:146-152 | nothing while no macro-event is selected; otherwise the statistics of `parseInt(selected, 10)` |
| MacroReport.SelectedById | src/app/macro-eventos/reportes/page.tsx:146-152 | selecting a macro-event by its decimal id reports on that id |
| ReportList.FloorDiv | src/components/MacroEventReportList.tsx:182 | `Math.floor(n / d)`: the largest q with `q * d <= n` |
| ReportList.RoundDiv | src/components/MacroEventReportList.tsx:177 | `Math.round(t / c)`: the integer nearest to `t / c`, halves rounded up |
| ReportList.AverageMinutes | src/components/MacroEventReportList.tsx:174-178 | 0 when nobody attended; otherwise the rounded mean session time of the guests who attended |
| ReportList.AverageIgnoresAbsent | src/components/MacroEventReportList.tsx:175 | guests who did not attend do not change the average |
| ReportList.FormatTime | src/components/MacroEventReportList.tsx:181-185 | `"<h>h <min>m"` reads back as the minutes it was made from |
| ReportList.Summarize | src/components/MacroEventReportList.tsx:164-170 | invited counts every row, registered and attended count their flags and never exceed invited, and the average is the formatted mean of the attendees |
| ReportList.EventName | src/components/MacroEventReportList.tsx:106 | `eventMap.get(id)` is present exactly when some event has the id, and is then the name of such an event |
| ReportList.FormatGuest | src/components/MacroEventReportList.tsx:150-161 | a report row keeps the id and flags of its row, names its own event or nothing, shows the row's position for external rows only, and lacks a company only for internal guests |
| ReportList.MacroEvents | src/components/MacroEventReportList.tsx:82-89 | exactly the events of the macro-event |
| ReportList.RowsOfEvents | src/components/MacroEventReportList.tsx:105-133 | exactly the rows whose event is one of the macro-event's |
| ReportList.FetchEventData | src/components/MacroEventReportList.tsx:81-172 | nothing when a read fails or the macro-event has no events; otherwise the rows of its events, reordered by company with each kept exactly as often as it occurs, formatted, with totals over all of them |
| ReportList.SortedReport | src/components/MacroEventReportList.tsx:141-161 | the report rows are the selected rows, each kept exactly as often as it occurs, sorted by company and formatted |
| ReportList.FormattedCounts | src/components/MacroEventReportList.tsx:150-170 | formatting keeps the number of registered and of attended rows |
| ReportList.ReportTotals | src/components/MacroEventReportList.tsx:141-170 | the totals count the macro-event's rows, its registered rows and its attended rows, and every such row appears in the report |
| ReportList.FormatAll | src/components/MacroEventReportList.tsx:150-161 | the formatted rows, one per row, in order |
| ReportList.OnlyMacroEventGuests | src/components/MacroEventReportList.tsx:89-133 | every report row comes from a row of one of the macro-event's events |
| ReportList.ByCompany | src/components/MacroEventReportList.tsx:187-199 | `"Todas"` keeps the report; any other company keeps only its rows and recomputes every total on them |
| ReportList.ByCompanyTotals | src/components/MacroEventReportList.tsx:191-195 | a company's totals count that company's rows, and its registered (attended) rows |
| ReportList.TableFilter | src/components/MacroEventReportList.tsx:201-216 | a row is shown iff it passes the registration filter, the attendance filter and the search |
| ReportList.NoTableFilter | src/components/MacroEventReportList.tsx:201-216 | `"Todos"`, `"Todos"` and an empty search show every row |
| ReportList.ReportPage | src/components/MacroEventReportList.tsx:221-222 | the page is the slice `[(page - 1) * 10, page * 10)` with `ceil(n / 10)` pages, and a page holds rows exactly when it is one of pages `1..totalPages` |
| ReportList.PageFacts | src/components/MacroEventReportList.tsx:221-222 | the generic page is that slice, and pages `1..ceil(n / 10)` are exactly the non-empty ones |
| MacroEvents.ToggleExpand | src/app/macro-eventos/page.tsx:209-222 | the expanded macro-event collapses and keeps what was shown; any other macro-event expands and shows exactly its events and lists |
| MacroEvents.ToggleTwice | src/app/macro-eventos/page.tsx:209-222 | expanding and then toggling the same macro-event collapses it |
| MacroEvents.ListGuestIds | src/app/macro-eventos/page.tsx:120-133 | the ids read are exactly those of the list's guests |
| MacroEvents.DeleteListRelated | src/app/macro-eventos/page.tsx:119-162 | a failed guest read or a list without guests deletes nothing; otherwise the cascade stops after its first failing statement, and it runs to the end when none fails |
| MacroEvents.DeleteList | src/app/macro-eventos/page.tsx:95-117 | a declined confirmation changes nothing; otherwise the cascade runs, and the list row leaves the database and the shown lists exactly when its own delete succeeds, whatever the cascade did |
| MacroEvents.EmptyListKeepsEventLinks | src/app/macro-eventos/page.tsx:128-131 | a list without guests loses its row but keeps its `event_list` rows |
| MacroEvents.DeletedListReappears | src/app/macro-eventos/page.tsx:111 | deletion only updates the shown lists, so expanding the macro-event again shows the deleted list |
| MacroEvents.DeleteListKeepsIntegrity | src/app/macro-eventos/page.tsx:95-162 | with no failure, deleting a list that has guests leaves every reference pointing at an existing row |
| MacroEvents.ListCascadeGuestRefs | src/app/macro-eventos/page.tsx:135-151 | after the guests' and their `event_guest` rows' deletion every `event_guest` row still has its guest and event |
| MacroEvents.ListCascadeListRefs | src/app/macro-eventos/page.tsx:145-162 | after the cascade every `event_list` row and every guest still has its list |
| MacroEvents.KeptListFound | src/app/macro-eventos/page.tsx:103-106 | deleting one list keeps every other list |
| MacroEvents.DeleteEventRelated | src/app/macro-eventos/page.tsx:188-207 | the event's `event_guest` rows, then its `event_list` rows, go; a failure stops the rest |
| MacroEvents.DeleteEvent | src/app/macro-eventos/page.tsx:164-186 | as for a list: the event row leaves the database and the shown events exactly when its delete succeeds |
| MacroEvents.DeleteEventKeepsIntegrity | src/app/macro-eventos/page.tsx:164-207 | with no failure, deleting an event leaves every reference pointing at an existing row |
| MacroEvents.DeleteMacroEvent | src/app/macro-eventos/page.tsx:74-94 | only the `macro_event` row goes, and only on success; its events and lists stay |
| ImportExternals.FindType | src/components/macroEvent/ImportExternals.tsx:76-77 | nothing exactly when no entry lower-cases to the key; otherwise the first entry that does |
| ImportExternals.MembershipOf | src/components/macroEvent/ImportExternals.tsx:77 | a membership cell is accepted iff it names a membership type up to case and surrounding blanks or is empty, and only the empty cell yields `true` |
| ImportExternals.RowErrors | src/components/macroEvent/ImportExternals.tsx:79-84 | one message per invalid field of the row |
| ImportExternals.Record | src/components/macroEvent/ImportExternals.tsx:86-96 | an external guest of the list with trimmed names, the lower-cased trimmed e-mail, and the canonical type names when they were found |
| ImportExternals.Records | src/components/macroEvent/ImportExternals.tsx:75-97 | one record per sheet row, in order |
| ImportExternals.HandleFileUpload | src/components/macroEvent/ImportExternals.tsx:48-107 | no file writes nothing; the rows are upserted exactly when every row has valid types, one record per row in order; otherwise the messages of every invalid field are shown |
| ImportExternals.ErrorCount | src/components/macroEvent/ImportExternals.tsx:74-84 | the number of messages is the number of bad user types plus the number of bad membership types |
| ImportExternals.UserTypeAccepted | src/components/macroEvent/ImportExternals.tsx:76 | a user type is accepted iff some listed type matches it up to case and surrounding blanks, and that listed type is what is stored (types listed in src/components/UserTypeSelector.tsx:4-21) |
| ImportExternals.CanonicalIsStable | src/components/macroEvent/ImportExternals.tsx:76-93 | importing again the type names an import stored accepts them and stores the same names |
| LoadEmails.HandleFileUpload | src/app/load/page.tsx:13-36 | no file changes nothing; a parse error only sets the error status; otherwise the kept e-mails replace the loaded ones and the status counts them |
| LoadEmails.TrimmedEmailOf | src/app/load/page.tsx:23-25 | a kept e-mail is non-empty and has no surrounding blanks |
| LoadEmails.KeptRowsAreNonBlank | src/app/load/page.tsx:20-25 | one e-mail is kept per row with a non-blank e-mail, each trimmed and non-empty, and every such row's e-mail is among them |
| LoadEmails.Recipients | src/app/load/page.tsx:20-25 | the kept e-mails are the trimmed e-mails of the rows that have a non-blank one, in file order |
| LoadEmails.SendEmails | src/app/load/page.tsx:39-83 | nothing is sent when nothing is loaded; otherwise `ceil(n / 1000)` requests with the fixed template and 1 to 1000 recipients each, every batch attempted whatever the others did, and the status counts all loaded e-mails |
| LoadEmails.RequestsCoverEmails | src/app/load/page.tsx:50-60 | the batches together address every loaded e-mail once, in order |
| LoadEmails.FailuresDoNotStopSending | src/app/load/page.tsx:62-81 | a failed batch changes neither the requests sent nor the final status |
| LoadEmails.UploadThenSend | src/app/load/page.tsx:13-83 | sending what a file loaded addresses each non-blank e-mail of the file once, trimmed, in file order |
| EventForm.SourceRows | src/components/EventForm.tsx:108-111 | exactly the `event_guest` rows of the copied event |
| EventForm.CopyRows | src/components/EventForm.tsx:119-122 | one copy per source row, in order, moved to the new event with every other column kept |
| EventForm.HandleSubmit | src/components/EventForm.tsx:77-139 | an existing event is only updated, navigating iff the update succeeds; a new event is inserted first, and guests are inserted only for a copy |
| EventForm.CopiedGuests | src/components/EventForm.tsx:98-135 | guests are inserted iff a new event is a copy whose source rows were read, are not empty and the new event has an id; they are then the source rows moved to the new event |
| EventForm.CopyStep | src/components/EventForm.tsx:106-135 | at most one insert, of the source rows moved to the new event, made exactly when they were read, there is one, and the new event has an id; a missing new id crashes and stops; otherwise the submit goes on iff the read worked and there was nothing to copy or the copies were stored |
| EventForm.EmptySourceNoInsert | src/components/EventForm.tsx:118 | copying an event without guests inserts only the event and goes back to the macro-event page |
| EventForm.NavigatesUnlessFailed | src/components/EventForm.tsx:95-137 | the submit navigates unless the update, the source read, the copy insert or the new event's id it needs failed; a crash writes only the event and does not navigate |
| EventForm.Stored | src/components/EventForm.tsx:124-126 | the inserted rows keep their event and data, each with a fresh id |
| EventForm.StoredCopies | src/components/EventForm.tsx:119-126 | the stored copies all belong to the new event, none to the source, and carry the source rows' data in order |
| EventForm.StoredRows | src/components/EventForm.tsx:119-126 | each stored copy belongs to the new event and has the data of the source row at its position |
| EventForm.CopyReproducesGuests | src/components/EventForm.tsx:106-135 | after a copy the new event has the source event's guests with the same data in the same order, and the source event keeps its rows |
| EventForm.ZoomShown | src/components/EventForm.tsx:184 | the Zoom field is shown for "Virtual" and "Híbrido" only, not for "Presencial" or before a modality is chosen |
| PresentationForm.ToggleElaboration | src/components/PresentationForm.tsx:115-121 | a chosen name is removed and an unchosen one appended, the other names keep their order, and nothing else in the form changes |
| PresentationForm.TogglePresentation | src/components/PresentationForm.tsx:123-129 | the same toggle on the presentation assignees |
| PresentationForm.ToggleTwiceRestores | src/components/PresentationForm.tsx:115-129 | ticking and then unticking a name that was not chosen restores the form |
| PresentationForm.TogglesCommute | src/components/PresentationForm.tsx:115-129 | toggles of the two lists applied in either order give the same form |
| PresentationForm.ChangeCompany | src/components/PresentationForm.tsx:131-135 | the company is chosen, the executive is cleared, and the executives of the parsed company id are requested |
| PresentationForm.CompanyOptionLoadsItsExecutives | src/components/PresentationForm.tsx:131-135 | choosing a company's option requests that company's executives and leaves no executive chosen |
| PresentationForm.HandleSubmit | src/components/PresentationForm.tsx:137-168 | an update exactly when the presentation id is truthy, an insert otherwise, with both assignee lists as chosen; the page navigates iff the write succeeds |
| PresentationForm.SubmitAfterCompanyChange | src/components/PresentationForm.tsx:131-141 | a submit right after a company change sends the company's id and a `NaN` executive id |

## Left out

- Database access: queries, the query builder, the ordering of asynchronous calls and error objects are not modelled. A read is a table value or a failure, and a write succeeds or fails as its step or flag says.
- `ILIKE` patterns are modelled as case-insensitive containment. Wildcard characters in the search and database collation are not modelled.
- `localeCompare` is an abstract total preorder. The sort is modelled as a stable sort under it.
- Unicode NFD normalisation and diacritic removal are a function parameter `norm`.
- `toLowerCase` covers ASCII and the Latin-1 capitals. `trim` covers the common whitespace characters, not every Unicode space.
- `parseInt` is modelled for decimal text. The hexadecimal `0x` prefix it also accepts is not modelled. Postgres parsing of ids sent as text is not modelled.
- GuestTable.Filtered, GuestTable.ShowPage: the `end_date` range filters `filterDateFrom` and `filterDateTo` of src/components/macroEvent/EventGuestTable.tsx:126-137 are not modelled, because they compare JavaScript `Date` values parsed from text. The model is the table with both date filters empty.
- Dates: the event-passed check, the date-range filters of the reports, and the `Math.random` mock data are not modelled. They depend on the clock and on random numbers.
- The random negative ids of the company search are not modelled, for the same reason.
- The percentage columns formatted with `toFixed(2)` are not modelled, because they are display-only floating point.
- `encodeURIComponent`, which builds the `register_link` of a campaign e-mail, is a function parameter `encode`.
- QR images, canvas drawing, zip files, XLSX and CSV parsing, `FileReader` and the camera library are foreign libraries. Only the payload strings and the parsed rows are modelled.
- The zip archive a QR batch is packed into and its download are not modelled. The batch is modelled up to its payloads, which are all produced or none is.
- The SendGrid and Zoom API routes are thin wrappers over external services.
- The hard-coded recipient list of a campaign is not reproduced. Batching is modelled over any recipient sequence.
- Modal, loading and open/closed UI state beyond what the rules read is not modelled. This includes clicking outside the dropdown and the macro-event select list of the forms.
- The report page title and the form loaders that fill a form for editing (`fetchEvent`, `fetchPresentation`) are not modelled.
- The re-fetch of executives by the presentation form's effect on `companyId` (src/components/PresentationForm.tsx:109-113) is not modelled. It requests the same executives as `handleCompanyChange`.
- `deleteGuest` of the guest tables is plain CRUD and is not modelled.
- The report's crash on a guest whose name is null is not modelled. Names are strings.
- The `tarifa` cell of the membership list is not modelled.
- Projects.Requester: a project whose `executive` join is null makes the page throw at src/app/proyectos/page.tsx:92. The model reads the executive's name parts as nullable fields, so such a project gets a cell of one blank.
- EventTypeReport.Grouped: the groups are listed in first-appearance order. That is the order `Object.entries` (src/components/EventTypeReportTable.tsx:38) gives for keys that are not integer-like, such as the modality names. It would list integer-like keys first, in ascending order, which is not modelled.
- Plain CRUD forms and lists without rules are not modelled: ListForm, MacroEventForm, EditGuestForm, EmailModal, and the user, assistant and event-list pages.
- CompanySearch.CompanyQuery: does not pin which of several companies with equal `razon_social` are kept at the limit, because the database's tie order is not specified.
