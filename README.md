# ChatGPT history tracker: the conversation store and its rules, in Dafny

The extension has three parts:

- a **content script** on chat pages scrapes each conversation and the sidebar's conversation links, and sends them to the worker;
- a **background worker** keeps them in `chrome.storage.local`;
- a **popup** lists, searches, exports and clears them.

This project models the parts of each that decide what is stored and shown, and proves what they promise.

- `common.dfy` (module `Common`): the JavaScript built-ins the code relies on, with their contracts.
  - Array built-ins: `filter`, `map`, `findIndex`, `slice(0, n)`, and a forEach loop that pushes.
  - String built-ins: `trim` (ECMAScript whitespace), `indexOf`, `includes`, `startsWith` and `replace` (first occurrence).
  - ASCII `toLowerCase`, and decimal rendering of counts.
- `records.dfy` (module `Records`): the shared entities and the message protocol.
  - The entities are conversations, index entries and projects.
  - The command messages and their replies.
  - The storage layout: `chat_<id>`, `chat_index` and `project_index` over a `map<string, Value>`.
- `background.dfy` (module `Background`): the worker.
  - Each operation is first a function `...Op` from the old storage to the new storage and the reply.
  - The lemmas are stated about those functions.
  - The class `ChromeStore` holds the storage as a field. Its methods do the same reads and writes step by step, with the two loops of the source. Each method is proved to end in the state its `...Op` gives.
  - A storage invariant, `Consistent`, is proved to be kept by every message whose conversation ids are not "index". A save of a conversation with id "index" breaks it, as `SaveConversationIndexIdClobbersIndex` shows.
- `content.dfy` (module `Content`): the scraper rules over an abstract page.
  - The page is given as a path, a location, a navigation text, a document title, message elements and sidebar links.
  - The class `ContentScript` holds the change-detection state and collects the messages sent in an outbox.
- `popup.dfy` (module `Popup`): the pure helpers of the popup.
  - Search, export of the record keys, relative date labels, the stats line and the role label.
  - The class `PopupView` holds the loaded list.

Timestamps are integers (milliseconds). The current time is a parameter `now` of every operation that reads the clock. The page, the storage and the messages received are parameters; the messages sent are an outbox sequence.

## Model

| member | source | states |
|---|---|---|
| Records.RecordKey | background.js:53 | a record's key is `chat_` followed by the id |
| Records.RecordKeyCollisions | background.js:53-65 | record keys never equal `project_index`; they equal `chat_index` exactly for id "index"; distinct ids give distinct keys |
| Background.FindEntry | background.js:67 | the first index position holding the id; none exactly when the id is not indexed |
| Background.ToEntry | background.js:69-76 | the entry written is the projection (id, title, messageCount, lastUpdated, firstSaved, url) of the saved record |
| Background.UpsertEntryReplaces | background.js:78-79 | an indexed id's entry is replaced where it stands; the length and every other position are unchanged |
| Background.UpsertEntryPrepends | background.js:80-81 | an id not indexed puts the new entry at position 0, in front of the old index |
| Background.UpsertEntryIds | background.js:65-84 | the ids afterwards are the old ids plus the new one; no id repeats if none did |
| Background.SaveConversationOp | background.js:51-90 | the reply is a done/failed reply; the record is always written, and a failure leaves the storage holding only that write (the lemmas below give the rest) |
| Background.SaveConversationStoresRecord | background.js:53-63 | after a save, `chat_<id>` holds the record; its firstSaved is the earlier record's when there was one, `now` when the key was free |
| Background.SaveConversationUpdatesIndex | background.js:63-88 | a save succeeds exactly when the index is readable; the index becomes the old index with the projection upserted; on failure only the record was written |
| Background.SaveConversationFrame | background.js:51-90 | a save changes no key other than the record's and the index's |
| Background.SaveConversationIndexIdClobbersIndex | background.js:53-67 | a conversation with id "index" overwrites `chat_index`, and the save fails |
| Background.ResaveKeepsFirstSaved | background.js:51-90 | saving a conversation again with more messages keeps one entry and the first save's stamp |
| Background.InsertByRecency | background.js:96 | inserting into a sorted list keeps it sorted and adds exactly the element |
| Background.SortByRecency | background.js:96 | the sorted index is ordered by lastUpdated, most recent first, and is a permutation of the index |
| Background.SortIsStable | background.js:96 | entries with equal lastUpdated keep their relative order |
| Background.GetAllOp | background.js:92-101 | success exactly when the index is readable, with as many entries as the index; a failure replies with an empty list |
| Background.GetRecentOp | background.js:103-112 | success exactly when the index is readable, with at most `limit` entries; a failure replies with an empty list |
| Background.GetAllIsSortedPermutation | background.js:92-97 | get-all returns a sorted permutation of the index |
| Background.GetRecentIsSortedPrefix | background.js:103-108 | get-recent returns min(limit, size of index) entries, which are the first ones of the sorted index |
| Background.ListingFailsOnlyOnBadIndex | background.js:92-112 | both listings fail, each with an empty list, exactly when the index key holds another value |
| Background.RecentLimit | background.js:16 | an absent or zero limit becomes 5; any other limit is kept |
| Background.SidebarEntry | background.js:128-135 | a sidebar entry copies the stub's fields, with the message count defaulting to 0 |
| Background.SidebarFoldIds | background.js:118-139 | after a batch the indexed ids are the old ids plus the batch's ids; no id repeats, even when the batch repeats an id |
| Background.SidebarFoldSuffix | background.js:121-139 | the count of added entries is exactly how much the index grew, and the old index is its unchanged tail |
| Background.NewStubsFacts | background.js:121-137 | the stubs a batch adds are, in batch order, the first stub of each batch id not indexed before: they come from the batch, their ids are distinct and are exactly the batch ids that were not indexed |
| Background.SidebarFoldContents | background.js:121-139 | after the loop the index is the new stubs' entries, stamped `now`, in reverse batch order, followed by the old index; `added` is the number of new stubs |
| Background.SidebarFoldRecords | background.js:124-126 | each new stub itself is stored under its record key, with firstSaved `now` |
| Background.SidebarFoldStore | background.js:121-127 | only the record keys of ids not indexed before are written; each new stub is stored there, stamped `now` |
| Background.SaveSidebarOp | background.js:114-150 | an unreadable index gives a failed reply and writes nothing; otherwise the reply is the added count (the lemmas below give the storage) |
| Background.SaveSidebarSkipsIndexed | background.js:122 | an indexed conversation's record is left as it was, whatever the batch says about it |
| Background.SaveSidebarFrame | background.js:114-150 | a sidebar save changes no key but the index and the record keys of the ids it adds; the project list and every other record keep their values |
| Background.SaveSidebarCountsNewIds | background.js:119-145 | `added` is the number of distinct batch ids that were not indexed; a batch that adds nothing leaves the storage unchanged |
| Background.SaveSidebarPrependsNewEntries | background.js:128-143 | a batch that adds entries writes the index as the new entries followed by the old index, with ids unique |
| Background.SaveSidebarWritesNewStubs | background.js:114-145 | the reply counts the new stubs; with none the storage is unchanged; otherwise the written index is their stamped entries, in reverse batch order, before the old index, and each new stub (other than id "index") is stored stamped `now` |
| Background.SaveSidebarNewestFirst | background.js:128 | position i of the written index holds the entry of the i-th new stub counted from the end of the batch, so a later new stub comes first |
| Background.MergeProject | background.js:161 | `{ ...existing, ...incoming, lastSeen }`: title, url, kind and firstSaved are the incoming ones where the incoming project has them and the stored ones otherwise; the id is the incoming one; lastSeen is now |
| Background.UpsertProjectStep | background.js:159-164 | one project is merged into the first stored entry with its id, in place (its fields over the stored ones, lastSeen now), or is appended as itself with firstSaved and lastSeen now; no other entry changes |
| Background.UpsertProjectsPositions | background.js:158-165 | after a batch every stored entry keeps its position and id; entries whose id is not in the batch are unchanged; appended entries are new ids with lastSeen now |
| Background.UpsertProjectsMerges | background.js:158-165 | with unique stored ids, each stored entry ends as every batch entry with its id merged into it, in batch order |
| Background.UpsertProjectsAppends | background.js:158-165 | with unique stored ids, each appended entry has an id that was not stored, and is the batch's first entry with that id stamped firstSaved and lastSeen now, with the later ones merged into it |
| Background.UpsertProjectsStampsSeen | background.js:160-161 | with unique stored ids, every stored entry named by the batch ends with lastSeen now |
| Background.UpsertProjectsIds | background.js:158-165 | the project ids become the stored ids plus the batch's; unique ids stay unique, since a repeated batch id meets the entry appended for it |
| Background.SaveProjectsOp | background.js:152-173 | success exactly when the project list is readable; a failure writes nothing; no key but the project list changes |
| Background.GetProjectsOp | background.js:175-183 | success exactly when the project list is readable; a failure replies with an empty list |
| Background.SaveProjectsThenGet | background.js:152-179 | a project save succeeds exactly when the list is readable; get-projects then returns the upserted list; the index is untouched |
| Background.ProjectRenameScenario | background.js:152-179 | saving a project twice under one id gives one entry with the new title, the first save's firstSaved and the second save's lastSeen |
| Background.RemoveIdFacts | background.js:191 | filtering keeps exactly the entries with another id, in their order; unique ids stay unique |
| Background.DeleteOp | background.js:185-198 | the reply is a done/failed reply; the record is removed first, so a failure leaves the storage with only that removal; the record key of an id other than "index" is gone |
| Background.DeleteRemovesConversation | background.js:185-194 | delete removes `chat_<id>` and every index entry with the id; the rest keep their relative order; it fails only when the index key holds another value |
| Background.DeleteFrame | background.js:185-194 | delete changes no key other than the record's and the index's |
| Background.DeletedIdNotListed | background.js:185-194 | after a delete the listing never shows the deleted id |
| Background.DeleteIndexIdEmptiesIndex | background.js:187-192 | deleting id "index" removes the index's own key, and an empty index is written |
| Background.ClearOp | background.js:30-33 | a success reply, after which no key is stored and both lists read as empty |
| Background.ClearAllEmptiesStore | background.js:30-33 | after CLEAR_ALL the storage is empty; get-all, get-recent and get-projects all return empty lists |
| Background.EmptyIsConsistent | background.js:30-33 | an empty storage satisfies the storage invariant |
| Background.SavePreservesConsistent | background.js:51-90 | a save of an id other than "index" keeps the invariant: both lists readable, index ids and project ids unique, every indexed id backed by its record |
| Background.SidebarPreservesConsistent | background.js:114-150 | a sidebar batch keeps the storage invariant |
| Background.SaveProjectsPreservesConsistent | background.js:152-173 | a project save keeps the storage invariant |
| Background.DeletePreservesConsistent | background.js:185-198 | a delete keeps the storage invariant |
| Background.HandleOp | background.js:4-49 | the listener replies to every message type it handles, and gives no reply exactly for an unknown type |
| Background.HandlePreservesConsistent | background.js:4-49 | every message whose ids are not "index" keeps the storage invariant |
| Background.ListedConversationsAreBacked | background.js:10-28 | on a consistent storage, listing succeeds; every listed conversation's record is stored |
| Background.ExportAllListsLikeGetAll | background.js:25-28 | EXPORT_ALL gives the same storage and reply as GET_ALL, on every storage, and writes nothing |
| Background.ReadsDoNotWrite | background.js:10-48 | the get and export messages, and an unknown message type, leave the storage unchanged; only an unknown type gets no reply |
| Background.ChromeStore.SaveConversation | background.js:51-90 | the step-by-step save ends in the storage and reply of the save operation |
| Background.ChromeStore.GetAllConversations | background.js:92-101 | the reply is the get-all reply; it succeeds exactly when the index is readable; it is then sorted and a permutation of the index |
| Background.ChromeStore.GetRecentConversations | background.js:103-112 | the reply is the get-recent reply for `limit \|\| 5`; when it succeeds it is sorted and drawn from the index |
| Background.ChromeStore.SaveSidebarConversations | background.js:114-150 | the loop over the batch ends in the storage and reply of the sidebar operation |
| Background.ChromeStore.SaveProjects | background.js:152-173 | the loop over the projects ends in the storage and reply of the project operation |
| Background.ChromeStore.GetProjects | background.js:175-183 | the reply is the stored project list; it succeeds exactly when the list is readable; on failure the list is empty |
| Background.ChromeStore.DeleteConversation | background.js:185-198 | the removal and rewrite end in the storage and reply of the delete operation; the record key is gone |
| Background.ChromeStore.ClearAll | background.js:30-33 | the storage becomes empty and the reply is success |
| Background.ChromeStore.Handle | background.js:4-49 | the listener dispatches every message type to its operation; the invariant is kept |
| Content.GetConversationId | content.js:30-34 | the id is the greedy run of `[A-Za-z0-9-]` after the first "/c/" that an id character follows; none when no position matches |
| Content.ConversationIdOfPath | content.js:30-34 | "/c/" followed by an id and then a non-id character or nothing yields that id |
| Content.NoConversationIdWithoutMarker | content.js:30-34 | a path without "/c/" has no id |
| Common.Trim | content.js:41 | `String.prototype.trim`: the result is the piece of the input left after removing whitespace at both ends and nothing else; it is empty exactly when the input is all whitespace |
| Content.ConversationTitle | content.js:36-47 | the non-blank trimmed navigation text; else the cleaned document title; else "Untitled Chat" |
| Content.CleanDocumentTitle | content.js:45 | the document title with the first " \| ChatGPT" and then the first "ChatGPT" cut out, and trimmed |
| Content.TitleIsTrimmedAndNonEmpty | content.js:36-47 | every computed title is non-empty and trimmed |
| Content.BareBrandTitleIsUntitled | content.js:45-46 | a page titled "ChatGPT" with no navigation text is "Untitled Chat" |
| Content.BrandSuffixRemoved | content.js:40-46 | a blank navigation text falls back to the document title; "Trip plan \| ChatGPT" becomes "Trip plan" |
| Content.ElementRole | content.js:54-60 | an absent or empty role attribute becomes "unknown"; any other value is kept |
| Content.ParseIsFilterThenMap | content.js:49-67 | parsing keeps exactly the elements with non-blank text, in document order, each turned into its message |
| Content.ParsedMessagesAreNonBlank | content.js:53-63 | every parsed message has a non-empty role and non-empty, trimmed content |
| Content.ParseAppend | content.js:53-64 | parsing two runs of elements concatenates their messages |
| Content.ParseMessages | content.js:49-67 | the forEach loop yields the specified messages; there are at most as many as elements |
| Content.StubsMatchLinks | content.js:94-118 | one stub per link whose href starts with "/c/" and carries an id, in order; its id, title (or "Untitled Chat"), url, messages, count and flags are as written |
| Content.StubsAreNamed | content.js:99-117 | every stub has a well-formed id, a non-empty title and no messages |
| Content.PendingSave | content.js:69-91 | a save is sent exactly when the path has an id, there are messages, and they differ from the last sent ones |
| Content.LastAfter | content.js:77-78 | the change-detection state takes the sent messages, and is unchanged when nothing is sent |
| Content.SentRecordShape | content.js:80-88 | the sent record has the page's id, title and location, the messages with their count, and no firstSaved |
| Content.SaveTwiceSendsOnce | content.js:76-78 | two saves of an unchanged page send at most once, and the second leaves the state alone |
| Content.ResetForcesSave | content.js:158-162 | after a reset, any page with an id and messages is sent |
| Content.ContentScript.SaveConversation | content.js:69-91 | a tick appends exactly the pending save, if any, to the outbox and updates the change-detection state |
| Content.ContentScript.OnMutation | content.js:158-165 | a new location is recorded and the change-detection state is reset; the same location changes nothing |
| Content.ContentScript.ScrapeSidebar | content.js:94-128 | the loop builds the stubs; one SAVE_SIDEBAR_CONVERSATIONS message is sent only when there are stubs |
| Content.SaveAcrossNavigation | content.js:157-173 | on an unchanged page, a save, a second save, a navigation away and back, and a third save send exactly two SAVE messages |
| Popup.SearchFilter | popup.js:107-117 | an empty query shows the whole list; no search shows more than the list |
| Popup.SearchKeepsExactlyMatches | popup.js:113-115 | the result is a subsequence of the list; it holds exactly the conversations whose lower-cased title contains the lower-cased query |
| Popup.SearchIgnoresQueryCase | popup.js:108 | searching for the lower-cased query gives the same result |
| Popup.ExportSpec | popup.js:121-127 | the export holds exactly the `chat_` keys other than `chat_index`, with their values unchanged |
| Popup.ExportConversations | popup.js:122-127 | the loop over the storage's entries builds exactly that export |
| Popup.ExportHoldsRecordsOnly | popup.js:124 | `project_index` and `chat_index` are never exported; every record key is exported exactly when stored |
| Popup.ExportOfConsistentStore | popup.js:121-127 | on a consistent storage every exported key is a record key, and every indexed conversation's record is exported |
| Popup.FormatDate | popup.js:149-163 | missing timestamp gives Unknown; otherwise the buckets are: under a minute (or in the future) "Just now", then minutes < 60, hours < 24, days < 7, each the floor of the difference; a locale date beyond that |
| Popup.FutureIsJustNow | popup.js:153-158 | a timestamp after `now` reads "Just now" |
| Popup.MinutesTextShowsMinutes | popup.js:154-159 | the "<n>m ago" text leads with the decimal digits of the whole minutes elapsed |
| Popup.StatsText | popup.js:20 | the count followed by " conversation saved" exactly when the count is 1, " conversations saved" otherwise |
| Popup.StatsTextShowsCount | popup.js:20 | the stats line leads with the count in decimal |
| Popup.RoleLabel | popup.js:91 | "You" exactly for the role "user", "ChatGPT" for every other role |
| Popup.PopupView.LoadConversations | popup.js:16-24 | a successful listing replaces the list and sets the stats line; anything else changes nothing |
| Popup.PopupView.OnSearchInput | popup.js:107-117 | the list rendered is the search result, a subsequence of the loaded list |

## Left out

- Chrome messaging: `chrome.runtime.sendMessage`, the `onMessage` plumbing and `safeSendMessage`'s swallowing of errors are not modelled. The content script's sending is its outbox; the worker's listener is `Handle`.
- Storage failures: the only failure modelled is a list key holding something other than a list. For `chat_index` this happens after a save of id "index". Other storage errors (quota, an invalidated extension context) are not modelled.
- Timing and concurrency: timers, `setInterval`/`setTimeout` and both `MutationObserver`s are left out. Their effects are explicit method calls, `ContentScript.SaveConversation` and `ContentScript.ScrapeSidebar`. Asynchronous storage calls are treated as sequential and atomic, so the non-atomic read-modify-write of the index under interleaving is not modelled.
- Clock: `new Date()` is read several times within one operation of the source. The model uses one `now` per operation.
- Dates: ISO date strings, `toISOString`, `new Date(string)` and invalid dates (NaN) are left out; timestamps are integers. `toLocaleDateString` is the label `OnDate(ts)`, not rendered text.
- Popup.LabelText: the locale date is not rendered, so it has no text for `OnDate`.
- Lower: it folds ASCII letters only, where the source's `toLowerCase` folds all of Unicode. The search contracts are stated with it.
- JSON: `JSON.stringify` is not modelled. Change detection compares message sequences; distinct message lists have distinct serialisations, so this agrees. The export file (Blob, download link, file name) is not modelled.
- DOM: querying, `textContent`/`innerText`, `renderList`, `openDetail`, show/hide, `escapeHtml` and confirm dialogs are not modelled. The content script's DOM is abstracted to `Page`, `Element` and `Link` values.
- Sidebar observer: `waitForSidebar` and the unused `sidebarScraped` flag are left out, as is the unused `existingIds` set in `saveProjects` (background.js:156).
- Background.MergeProject: spread semantics are modelled on present or absent fields. A field the incoming object carries explicitly as `null` or `undefined` would override in JavaScript, but is indistinguishable from an absent one here.
- Conversation ids follow how the regular expression `/\/c\/([a-zA-Z0-9-]+)/` matches. It matches at the first position where "/c/" is followed by an id character, which is not always the first "/c/" in the path.
- Projects' timestamps: the source writes the field `firstSaved` for a new project, and that is what is modelled.
- server.js: the static preview server is not part of this model.
