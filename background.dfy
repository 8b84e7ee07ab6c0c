/**
 * The background worker: the conversation store kept in chrome.storage.local.
 *
 * Every conversation is stored under its own key `chat_<id>`; `chat_index`
 * holds the list of index entries that the popup lists, and `project_index`
 * the list of projects. Each operation of the worker is given first as a
 * function from the storage before the operation to the storage after it and
 * the reply (`...Op`), about which the lemmas speak, and then as a method of
 * `ChromeStore` that performs the same reads and writes step by step.
 *
 * An operation that finds a list key holding something that is not a list
 * (the JavaScript then throws on `findIndex`, `map`, `filter` or `sort`)
 * replies with failure and keeps the writes it already made.
 */
module Background {
  import opened Common
  import opened Records

  /** The storage after an operation, and the operation's reply. */
  datatype Outcome = Outcome(store: Storage, response: Response)

  // ---------------------------------------------------------------------
  // Reading the list keys (`result.chat_index || []`)
  // ---------------------------------------------------------------------

  /** The conversation index, or None when the key holds some other value. */
  function ReadIndex(s: Storage): Option<seq<IndexEntry>> {
    if IndexKey !in s then Some([])
    else match s[IndexKey]
      case Index(entries) => Some(entries)
      case _ => None
  }

  /** The project list, or None when the key holds some other value. */
  function ReadProjects(s: Storage): Option<seq<Project>> {
    if ProjectKey !in s then Some([])
    else match s[ProjectKey]
      case ProjectIndex(projects) => Some(projects)
      case _ => None
  }

  /** Writing a key other than the index's leaves the index as read. */
  lemma ReadIndexFrame(s: Storage, k: string, v: Value)
    requires k != IndexKey
    ensures ReadIndex(s[k := v]) == ReadIndex(s)
    ensures ReadIndex(s - {k}) == ReadIndex(s)
  {
  }

  /** Writing a key other than the project list's leaves the project list as read. */
  lemma ReadProjectsFrame(s: Storage, k: string, v: Value)
    requires k != ProjectKey
    ensures ReadProjects(s[k := v]) == ReadProjects(s)
    ensures ReadProjects(s - {k}) == ReadProjects(s)
  {
  }

  // ---------------------------------------------------------------------
  // Index entries and their ids
  // ---------------------------------------------------------------------

  function EntryIds(index: seq<IndexEntry>): set<string> {
    set e | e in index :: e.id
  }

  predicate UniqueIds(index: seq<IndexEntry>) {
    forall i, j :: 0 <= i < j < |index| ==> index[i].id != index[j].id
  }

  function HasId(id: string): IndexEntry -> bool {
    (e: IndexEntry) => e.id == id
  }

  /** `index.findIndex((item) => item.id === id)`. */
  function FindEntry(index: seq<IndexEntry>, id: string): (r: Option<nat>)
    ensures r.Some? ==> r.value < |index| && index[r.value].id == id
    ensures r.Some? ==> forall j :: 0 <= j < r.value ==> index[j].id != id
    ensures r.None? <==> id !in EntryIds(index)
  {
    var r := FindIndex(index, HasId(id));
    assert r.Some? ==> HasId(id)(index[r.value]);
    assert r.Some? ==> forall j :: 0 <= j < r.value ==> !HasId(id)(index[j]);
    assert r.None? ==> forall j :: 0 <= j < |index| ==> !HasId(id)(index[j]);
    r
  }

  lemma {:induction false} EntryIdsPrepend(e: IndexEntry, index: seq<IndexEntry>)
    ensures EntryIds([e] + index) == {e.id} + EntryIds(index)
  {
    assert forall x :: x in [e] + index <==> x == e || x in index;
  }

  /** Without repeated ids, the index has as many entries as ids. */
  lemma {:induction false} UniqueIdsCount(index: seq<IndexEntry>)
    requires UniqueIds(index)
    ensures |EntryIds(index)| == |index|
  {
    if index != [] {
      assert index == [index[0]] + index[1..];
      EntryIdsPrepend(index[0], index[1..]);
      UniqueIdsCount(index[1..]);
      assert index[0].id !in EntryIds(index[1..]);
    }
  }

  /** The index entry written for a saved conversation: its projection. */
  function ToEntry(c: Conversation): (e: IndexEntry)
    ensures e.id == c.id && e.title == c.title && e.messageCount == c.messageCount
    ensures e.lastUpdated == c.lastUpdated && e.firstSaved == c.firstSaved && e.url == c.url
  {
    IndexEntry(c.id, c.title, c.messageCount, c.lastUpdated, c.firstSaved, c.url)
  }

  /**
   * The index after saving entry `e`: an entry with the same id is replaced
   * where it stands, otherwise `e` goes in front.
   */
  function UpsertEntry(index: seq<IndexEntry>, e: IndexEntry): (r: seq<IndexEntry>)
    ensures e.id in EntryIds(index) ==> |r| == |index|
  {
    match FindEntry(index, e.id)
    case Some(i) => index[i := e]
    case None => [e] + index
  }

  /**
   * Saving an entry whose id is indexed replaces the first entry with that id
   * in place: same length, that position holds the new entry, every other
   * position is untouched.
   */
  lemma UpsertEntryReplaces(index: seq<IndexEntry>, e: IndexEntry)
    requires e.id in EntryIds(index)
    ensures var i := FindEntry(index, e.id).value;
      var r := UpsertEntry(index, e);
      && |r| == |index| && index[i].id == e.id && r[i] == e
      && (forall j :: 0 <= j < |index| && j != i ==> r[j] == index[j])
  {
  }

  /** Saving an entry whose id is not indexed puts it in front of the old index. */
  lemma UpsertEntryPrepends(index: seq<IndexEntry>, e: IndexEntry)
    requires e.id !in EntryIds(index)
    ensures var r := UpsertEntry(index, e);
      |r| == |index| + 1 && r[0] == e && r[1..] == index
  {
  }

  /**
   * The ids after an upsert are the old ids and the new one; an index
   * without repeated ids keeps that property, and then every entry is the
   * new one or an old entry with another id.
   */
  lemma UpsertEntryIds(index: seq<IndexEntry>, e: IndexEntry)
    ensures EntryIds(UpsertEntry(index, e)) == EntryIds(index) + {e.id}
    ensures UniqueIds(index) ==> UniqueIds(UpsertEntry(index, e))
    ensures UniqueIds(index) ==>
      forall x :: x in UpsertEntry(index, e) ==> x == e || (x in index && x.id != e.id)
  {
    var r := UpsertEntry(index, e);
    match FindEntry(index, e.id)
    case Some(i) =>
      if UniqueIds(index) {
        forall x | x in r ensures x == e || (x in index && x.id != e.id) {
          var j :| 0 <= j < |r| && r[j] == x;
          if j != i {
            assert index[j].id != index[i].id;
          }
        }
      }
      forall id | id in EntryIds(index) ensures id in EntryIds(r) {
        var x :| x in index && x.id == id;
        var j :| 0 <= j < |index| && index[j] == x;
        if j == i { assert r[i].id == id; } else { assert r[j] == x; }
      }
      assert r[i] == e;
    case None =>
      EntryIdsPrepend(e, index);
      if UniqueIds(index) {
        forall j | 1 <= j < |r| ensures r[j].id != e.id {
          assert r[j] in index;
        }
      }
  }

  // ---------------------------------------------------------------------
  // saveConversation
  // ---------------------------------------------------------------------

  /**
   * The `firstSaved` a saved conversation gets: the stored record's when the
   * key already holds one, `now` when the key is free. A key holding a list
   * has no `firstSaved` field.
   */
  function FirstSavedFor(s: Storage, id: string, now: int): Option<int> {
    var key := RecordKey(id);
    if key !in s then Some(now)
    else match s[key]
      case Record(existing) => existing.firstSaved
      case _ => None
  }

  /** The conversation as written: the sender's record with `firstSaved` decided. */
  function Stamped(s: Storage, c: Conversation, now: int): Conversation {
    c.(firstSaved := FirstSavedFor(s, c.id, now))
  }

  /**
   * `saveConversation`: the record is written first, so it is stored even
   * when the index then cannot be read and the reply is a failure.
   */
  function SaveConversationOp(s: Storage, c: Conversation, now: int): (r: Outcome)
    ensures r.response.Done?
    ensures RecordKey(c.id) in r.store && r.store[RecordKey(c.id)].Record?
    ensures !r.response.success ==> r.store == s[RecordKey(c.id) := Record(Stamped(s, c, now))]
  {
    var saved := Stamped(s, c, now);
    var s1 := s[RecordKey(c.id) := Record(saved)];
    match ReadIndex(s1)
    case None => Outcome(s1, Done(false))
    case Some(index) => Outcome(s1[IndexKey := Index(UpsertEntry(index, ToEntry(saved)))], Done(true))
  }

  /**
   * After a save the record is stored under `chat_<id>`, with the earlier
   * record's `firstSaved` when there was one and `now` otherwise.
   */
  lemma SaveConversationStoresRecord(s: Storage, c: Conversation, now: int)
    ensures var out := SaveConversationOp(s, c, now);
      && RecordKey(c.id) in out.store
      && out.store[RecordKey(c.id)] == Record(c.(firstSaved := out.store[RecordKey(c.id)].conversation.firstSaved))
      && (RecordKey(c.id) in s && s[RecordKey(c.id)].Record? ==>
            out.store[RecordKey(c.id)].conversation.firstSaved == s[RecordKey(c.id)].conversation.firstSaved)
      && (RecordKey(c.id) !in s ==> out.store[RecordKey(c.id)].conversation.firstSaved == Some(now))
  {
    RecordKeyCollisions(c.id, c.id);
  }

  /**
   * When the index is readable a save succeeds and the index becomes the old
   * index with the record's projection upserted; when it is not, the save
   * fails after the record has been written.
   */
  lemma SaveConversationUpdatesIndex(s: Storage, c: Conversation, now: int)
    requires c.id != "index"
    ensures var out := SaveConversationOp(s, c, now);
      && (out.response == Done(true) <==> ReadIndex(s).Some?)
      && (ReadIndex(s).Some? ==>
            ReadIndex(out.store) == Some(UpsertEntry(ReadIndex(s).value, ToEntry(Stamped(s, c, now)))))
      && (ReadIndex(s).None? ==> out.store == s[RecordKey(c.id) := Record(Stamped(s, c, now))])
  {
    RecordKeyCollisions(c.id, c.id);
    ReadIndexFrame(s, RecordKey(c.id), Record(Stamped(s, c, now)));
  }

  /** A save touches the record's key and the index's key and nothing else. */
  lemma SaveConversationFrame(s: Storage, c: Conversation, now: int, k: string)
    requires k != RecordKey(c.id) && k != IndexKey
    ensures var out := SaveConversationOp(s, c, now);
      (k in out.store <==> k in s) && (k in s ==> out.store[k] == s[k])
  {
  }

  /**
   * A conversation whose id is "index" is written under the index's own
   * key: the index is overwritten by the record and the save reports failure.
   */
  lemma SaveConversationIndexIdClobbersIndex(s: Storage, c: Conversation, now: int)
    requires c.id == "index"
    ensures var out := SaveConversationOp(s, c, now);
      out.response == Done(false) && ReadIndex(out.store).None? && out.store[IndexKey].Record?
  {
    RecordKeyCollisions(c.id, c.id);
  }

  // ---------------------------------------------------------------------
  // getAllConversations / getRecentConversations
  // ---------------------------------------------------------------------

  /** Most recently updated first. */
  predicate SortedByRecency(s: seq<IndexEntry>) {
    forall i, j :: 0 <= i < j < |s| ==> s[i].lastUpdated >= s[j].lastUpdated
  }

  lemma SortedCons(x: IndexEntry, s: seq<IndexEntry>)
    requires SortedByRecency(s)
    requires forall y :: y in s ==> x.lastUpdated >= y.lastUpdated
    ensures SortedByRecency([x] + s)
  {
    forall i, j | 0 <= i < j < |[x] + s| ensures ([x] + s)[i].lastUpdated >= ([x] + s)[j].lastUpdated {
      if i > 0 {
        assert ([x] + s)[i] == s[i - 1];
      }
      assert ([x] + s)[j] == s[j - 1];
      assert s[j - 1] in s;
    }
  }

  /** Puts `e` before the first entry that is not more recent than it. */
  function InsertByRecency(e: IndexEntry, s: seq<IndexEntry>): (r: seq<IndexEntry>)
    requires SortedByRecency(s)
    ensures SortedByRecency(r)
    ensures multiset(r) == multiset(s) + multiset{e}
  {
    if s == [] || s[0].lastUpdated <= e.lastUpdated then
      SortedCons(e, s);
      [e] + s
    else
      var rest := InsertByRecency(e, s[1..]);
      assert s == [s[0]] + s[1..];
      InsertedBelowHead(e, s, rest);
      SortedCons(s[0], rest);
      [s[0]] + rest
  }

  /** What is inserted behind the head of a sorted list stays no more recent than that head. */
  lemma InsertedBelowHead(e: IndexEntry, s: seq<IndexEntry>, rest: seq<IndexEntry>)
    requires SortedByRecency(s) && s != [] && e.lastUpdated < s[0].lastUpdated
    requires multiset(rest) == multiset(s[1..]) + multiset{e}
    ensures forall x :: x in rest ==> x.lastUpdated <= s[0].lastUpdated
  {
    forall x | x in rest ensures x.lastUpdated <= s[0].lastUpdated {
      assert x in multiset(rest);
      if x != e {
        assert x in multiset(s[1..]);
        var k :| 0 <= k < |s[1..]| && s[1..][k] == x;
        assert s[k + 1] == x;
      }
    }
  }

  /**
   * `index.sort((a, b) => new Date(b.lastUpdated) - new Date(a.lastUpdated))`:
   * the runtime's sort is stable, as insertion sort is.
   */
  function SortByRecency(s: seq<IndexEntry>): (r: seq<IndexEntry>)
    ensures SortedByRecency(r)
    ensures multiset(r) == multiset(s) && |r| == |s|
  {
    if s == [] then []
    else
      assert s == [s[0]] + s[1..];
      InsertByRecency(s[0], SortByRecency(s[1..]))
  }

  function UpdatedAt(t: int): IndexEntry -> bool {
    (e: IndexEntry) => e.lastUpdated == t
  }

  lemma {:induction false} InsertKeepsTies(e: IndexEntry, s: seq<IndexEntry>, t: int)
    requires SortedByRecency(s)
    ensures Filter(InsertByRecency(e, s), UpdatedAt(t)) ==
            (if e.lastUpdated == t then [e] else []) + Filter(s, UpdatedAt(t))
  {
    if s == [] || s[0].lastUpdated <= e.lastUpdated {
      assert InsertByRecency(e, s) == [e] + s;
      FilterCons(e, s, UpdatedAt(t));
    } else {
      var p := UpdatedAt(t);
      var rest := InsertByRecency(e, s[1..]);
      InsertKeepsTies(e, s[1..], t);
      assert InsertByRecency(e, s) == [s[0]] + rest;
      FilterCons(s[0], rest, p);
      assert s == [s[0]] + s[1..];
      FilterCons(s[0], s[1..], p);
      var head: seq<IndexEntry> := if p(s[0]) then [s[0]] else [];
      var mine: seq<IndexEntry> := if p(e) then [e] else [];
      assert Filter(InsertByRecency(e, s), p) == head + (mine + Filter(s[1..], p));
      assert Filter(s, p) == head + Filter(s[1..], p);
      if p(e) {
        assert head == [];
        assert Filter(InsertByRecency(e, s), p) == mine + Filter(s[1..], p);
        assert Filter(s, p) == Filter(s[1..], p);
      } else {
        assert mine == [];
        assert mine + Filter(s[1..], p) == Filter(s[1..], p);
        assert Filter(InsertByRecency(e, s), p) == Filter(s, p);
        assert mine + Filter(s, p) == Filter(s, p);
      }
    }
  }

  /**
   * The sort is stable: the entries updated at any one instant come out in
   * the order they had in the index.
   */
  lemma {:induction false} SortIsStable(s: seq<IndexEntry>, t: int)
    ensures Filter(SortByRecency(s), UpdatedAt(t)) == Filter(s, UpdatedAt(t))
  {
    if s != [] {
      SortIsStable(s[1..], t);
      InsertKeepsTies(s[0], SortByRecency(s[1..]), t);
    }
  }

  /** `getAllConversations`: a failure replies with an empty list. */
  function GetAllOp(s: Storage): (r: Response)
    ensures r.Conversations? && (r.success <==> ReadIndex(s).Some?)
    ensures !r.success ==> r.conversations == []
    ensures r.success ==> |r.conversations| == |ReadIndex(s).value|
  {
    match ReadIndex(s)
    case None => Conversations(false, [])
    case Some(index) => Conversations(true, SortByRecency(index))
  }

  /** `getRecentConversations` at an already defaulted limit: a failure replies with an empty list. */
  function GetRecentOp(s: Storage, limit: int): (r: Response)
    ensures r.Conversations? && (r.success <==> ReadIndex(s).Some?)
    ensures !r.success ==> r.conversations == []
    ensures r.success && 0 <= limit ==> |r.conversations| <= limit
  {
    match ReadIndex(s)
    case None => Conversations(false, [])
    case Some(index) => Conversations(true, SlicePrefix(SortByRecency(index), limit))
  }

  /** `message.limit || 5`: an absent or zero limit becomes 5. */
  function RecentLimit(limit: Option<int>): (r: int)
    ensures r == 5 <==> limit == None || limit == Some(0) || limit == Some(5)
    ensures limit.Some? && limit.value != 0 ==> r == limit.value
    ensures r != 0
  {
    match limit
    case None => 5
    case Some(n) => if n == 0 then 5 else n
  }

  /** Listing all conversations gives the index, reordered most recent first. */
  lemma GetAllIsSortedPermutation(s: Storage)
    requires ReadIndex(s).Some?
    ensures var r := GetAllOp(s);
      r.Conversations? && r.success && SortedByRecency(r.conversations)
      && multiset(r.conversations) == multiset(ReadIndex(s).value)
  {
  }

  /**
   * The recent list has min(limit, |index|) entries for a non-negative
   * limit; they are the most recent ones, sorted, and all come from the index.
   */
  lemma {:induction false} GetRecentIsSortedPrefix(s: Storage, limit: int)
    requires ReadIndex(s).Some? && limit >= 0
    ensures var r := GetRecentOp(s, limit);
      var n := |ReadIndex(s).value|;
      && r.Conversations? && r.success
      && |r.conversations| == (if limit < n then limit else n)
      && SortedByRecency(r.conversations)
      && r.conversations == SortByRecency(ReadIndex(s).value)[..|r.conversations|]
      && multiset(r.conversations) <= multiset(ReadIndex(s).value)
  {
    var sorted := SortByRecency(ReadIndex(s).value);
    var r := SlicePrefix(sorted, limit);
    assert GetRecentOp(s, limit) == Conversations(true, r);
    SortedPrefix(sorted, |r|);
  }

  /** A prefix of a sorted list is sorted and drawn from the list. */
  lemma SortedPrefix(s: seq<IndexEntry>, n: nat)
    requires SortedByRecency(s) && n <= |s|
    ensures SortedByRecency(s[..n]) && multiset(s[..n]) <= multiset(s)
  {
    assert s == s[..n] + s[n..];
    assert multiset(s) == multiset(s[..n]) + multiset(s[n..]);
  }

  /** A listing fails, with an empty list, exactly when the index key holds another value. */
  lemma ListingFailsOnlyOnBadIndex(s: Storage, limit: int)
    ensures GetAllOp(s).success <==> ReadIndex(s).Some?
    ensures GetRecentOp(s, limit).success <==> ReadIndex(s).Some?
    ensures !GetAllOp(s).success ==> GetAllOp(s).conversations == []
    ensures !GetRecentOp(s, limit).success ==> GetRecentOp(s, limit).conversations == []
  {
  }

  // ---------------------------------------------------------------------
  // saveSidebarConversations
  // ---------------------------------------------------------------------

  /** The index entry of a sidebar stub: `messageCount || 0`. */
  function SidebarEntry(c: Conversation): (e: IndexEntry)
    ensures e.id == c.id && e.title == c.title && e.lastUpdated == c.lastUpdated
    ensures e.firstSaved == c.firstSaved && e.url == c.url
    ensures e.messageCount == Some(if c.messageCount == None then 0 else c.messageCount.value)
  {
    IndexEntry(c.id, c.title, Some(c.messageCount.GetOr(0)), c.lastUpdated, c.firstSaved, c.url)
  }

  /** The loop state of a sidebar batch: the storage, the index, the count. */
  datatype SidebarState = SidebarState(store: Storage, index: seq<IndexEntry>, added: nat)

  /** One stub of the batch: skipped when its id is indexed, else stored and prepended. */
  function SidebarStep(st: SidebarState, c: Conversation, now: int): SidebarState {
    if c.id in EntryIds(st.index) then st
    else
      var stamped := c.(firstSaved := Some(now));
      SidebarState(st.store[RecordKey(c.id) := Record(stamped)], [SidebarEntry(stamped)] + st.index, st.added + 1)
  }

  /** The stubs taken in order. */
  function SidebarFold(st: SidebarState, cs: seq<Conversation>, now: int): SidebarState
    decreases |cs|
  {
    if cs == [] then st else SidebarStep(SidebarFold(st, cs[..|cs| - 1], now), cs[|cs| - 1], now)
  }

  /** `saveSidebarConversations`: an unreadable index fails before anything is written. */
  function SaveSidebarOp(s: Storage, cs: seq<Conversation>, now: int): (r: Outcome)
    ensures r.response == Done(false) <==> ReadIndex(s).None?
    ensures r.response.SidebarSaved? <==> ReadIndex(s).Some?
    ensures ReadIndex(s).None? ==> r.store == s
  {
    match ReadIndex(s)
    case None => Outcome(s, Done(false))
    case Some(index) =>
      var st := SidebarFold(SidebarState(s, index, 0), cs, now);
      Outcome(if st.added > 0 then st.store[IndexKey := Index(st.index)] else st.store, SidebarSaved(st.added))
  }

  function BatchIds(cs: seq<Conversation>): set<string> {
    set c | c in cs :: c.id
  }

  /** The keys of the records a batch writes, given the ids already indexed. */
  function NewRecordKeys(known: set<string>, cs: seq<Conversation>): set<string> {
    set c | c in cs && c.id !in known :: RecordKey(c.id)
  }

  /** An entry a sidebar batch adds: stamped now, with a message count. */
  predicate SidebarAdded(e: IndexEntry, now: int) {
    e.firstSaved == Some(now) && e.messageCount.Some?
  }

  lemma BatchIdsSnoc(cs: seq<Conversation>, known: set<string>)
    requires cs != []
    ensures var init := cs[..|cs| - 1]; var c := cs[|cs| - 1];
      && BatchIds(cs) == BatchIds(init) + {c.id}
      && NewRecordKeys(known, cs) == NewRecordKeys(known, init) + (if c.id in known then {} else {RecordKey(c.id)})
  {
    assert cs == cs[..|cs| - 1] + [cs[|cs| - 1]];
    assert forall x :: x in cs <==> x in cs[..|cs| - 1] || x == cs[|cs| - 1];
  }

  lemma UniqueCons(e: IndexEntry, index: seq<IndexEntry>)
    requires UniqueIds(index) && e.id !in EntryIds(index)
    ensures UniqueIds([e] + index)
  {
    forall i, j | 0 <= i < j < |[e] + index| ensures ([e] + index)[i].id != ([e] + index)[j].id {
      assert ([e] + index)[j] == index[j - 1];
      assert index[j - 1] in index;
      if i > 0 {
        assert ([e] + index)[i] == index[i - 1];
      }
    }
  }

  /**
   * The ids a batch leaves indexed are the old ids and the batch's ids; an
   * index without repeated ids keeps that property.
   */
  lemma {:induction false} SidebarFoldIds(st: SidebarState, cs: seq<Conversation>, now: int)
    ensures var r := SidebarFold(st, cs, now);
      && EntryIds(r.index) == EntryIds(st.index) + BatchIds(cs)
      && (UniqueIds(st.index) ==> UniqueIds(r.index))
    decreases |cs|
  {
    if cs == [] {
      assert BatchIds(cs) == {};
    } else {
      var init, c := cs[..|cs| - 1], cs[|cs| - 1];
      SidebarFoldIds(st, init, now);
      BatchIdsSnoc(cs, EntryIds(st.index));
      var r0 := SidebarFold(st, init, now);
      if c.id !in EntryIds(r0.index) {
        var e := SidebarEntry(c.(firstSaved := Some(now)));
        EntryIdsPrepend(e, r0.index);
        if UniqueIds(st.index) {
          UniqueCons(e, r0.index);
        }
      }
    }
  }

  /**
   * What a batch does to the index's order: the old index stays, untouched,
   * at the end, and the count grows by the number of entries put in front.
   */
  lemma {:induction false} SidebarFoldSuffix(st: SidebarState, cs: seq<Conversation>, now: int)
    ensures var r := SidebarFold(st, cs, now);
      && r.added >= st.added
      && |r.index| == |st.index| + (r.added - st.added)
      && r.index[r.added - st.added..] == st.index
    decreases |cs|
  {
    if cs != [] {
      var init, c := cs[..|cs| - 1], cs[|cs| - 1];
      SidebarFoldSuffix(st, init, now);
      var r0 := SidebarFold(st, init, now);
      var r := SidebarFold(st, cs, now);
      assert r == SidebarStep(r0, c, now);
      if c.id !in EntryIds(r0.index) {
        var e := SidebarEntry(c.(firstSaved := Some(now)));
        assert r.index == [e] + r0.index && r.added == r0.added + 1;
        assert r.index[r.added - st.added..] == r0.index[r0.added - st.added..];
      }
    }
  }

  /** The entries in front of the old index are new, stamped entries. */
  lemma SidebarFoldFront(st: SidebarState, cs: seq<Conversation>, now: int)
    ensures var r := SidebarFold(st, cs, now);
      r.added - st.added <= |r.index| &&
      forall i :: 0 <= i < r.added - st.added ==>
        SidebarAdded(r.index[i], now) && r.index[i].id !in EntryIds(st.index)
  {
    SidebarFoldContents(st, cs, now);
    NewStubsIn(EntryIds(st.index), cs);
    StampedFront(NewStubs(EntryIds(st.index), cs), st.index, EntryIds(st.index), now);
  }

  lemma StampedFront(ns: seq<Conversation>, base: seq<IndexEntry>, known: set<string>, now: int)
    requires forall c :: c in ns ==> c.id !in known
    ensures var index := Reverse(Map(ns, StampedEntry(now))) + base;
      forall i :: 0 <= i < |ns| ==> SidebarAdded(index[i], now) && index[i].id !in known
  {
    var f := StampedEntry(now);
    var index := Reverse(Map(ns, f)) + base;
    ReverseIndex(Map(ns, f));
    forall i | 0 <= i < |ns| ensures SidebarAdded(index[i], now) && index[i].id !in known {
      var c := ns[|ns| - 1 - i];
      assert c in ns;
      assert index[i] == f(c);
    }
  }

  /**
   * What a batch does to the storage: only the keys of the records of ids
   * not indexed before change, and each such key then holds a record with
   * that id, stamped `now`: the new stub itself.
   */
  lemma SidebarFoldStore(st: SidebarState, cs: seq<Conversation>, now: int)
    ensures var r := SidebarFold(st, cs, now);
      && (forall k :: k !in NewRecordKeys(EntryIds(st.index), cs) ==>
            (k in r.store <==> k in st.store) && (k in st.store ==> r.store[k] == st.store[k]))
      && (forall id :: id in BatchIds(cs) && id !in EntryIds(st.index) ==>
            && RecordKey(id) in r.store && r.store[RecordKey(id)].Record?
            && r.store[RecordKey(id)].conversation.id == id
            && r.store[RecordKey(id)].conversation.firstSaved == Some(now))
      && (forall c :: c in NewStubs(EntryIds(st.index), cs) ==>
            RecordKey(c.id) in r.store && r.store[RecordKey(c.id)] == Record(c.(firstSaved := Some(now))))
  {
    SidebarFoldKeys(st, cs, now);
    SidebarFoldRecords(st, cs, now);
  }

  /** The keys a batch writes, and the id and stamp of the record each then holds. */
  lemma {:induction false} SidebarFoldKeys(st: SidebarState, cs: seq<Conversation>, now: int)
    ensures var r := SidebarFold(st, cs, now);
      && (forall k :: k !in NewRecordKeys(EntryIds(st.index), cs) ==>
            (k in r.store <==> k in st.store) && (k in st.store ==> r.store[k] == st.store[k]))
      && (forall id :: id in BatchIds(cs) && id !in EntryIds(st.index) ==>
            && RecordKey(id) in r.store && r.store[RecordKey(id)].Record?
            && r.store[RecordKey(id)].conversation.id == id
            && r.store[RecordKey(id)].conversation.firstSaved == Some(now))
    decreases |cs|
  {
    if cs == [] {
      assert BatchIds(cs) == {};
    } else {
      var init, c := cs[..|cs| - 1], cs[|cs| - 1];
      SidebarFoldKeys(st, init, now);
      SidebarFoldIds(st, init, now);
      BatchIdsSnoc(cs, EntryIds(st.index));
      var r0 := SidebarFold(st, init, now);
      var r := SidebarFold(st, cs, now);
      if c.id !in EntryIds(r0.index) {
        forall id | id in BatchIds(cs) && id !in EntryIds(st.index)
          ensures && RecordKey(id) in r.store && r.store[RecordKey(id)].Record?
                  && r.store[RecordKey(id)].conversation.id == id
                  && r.store[RecordKey(id)].conversation.firstSaved == Some(now)
        {
          RecordKeyCollisions(id, c.id);
        }
      }
    }
  }

  /**
   * The stubs a batch adds, in batch order: each stub whose id is neither
   * indexed already (`known`) nor carried by an earlier stub of the batch.
   */
  function NewStubs(known: set<string>, cs: seq<Conversation>): seq<Conversation>
    decreases |cs|
  {
    if cs == [] then []
    else
      var init, c := cs[..|cs| - 1], cs[|cs| - 1];
      NewStubs(known, init) + (if c.id in known || c.id in BatchIds(init) then [] else [c])
  }

  /** The index entry of a new stub: its projection, stamped `now`. */
  function StampedEntry(now: int): Conversation -> IndexEntry {
    (c: Conversation) => SidebarEntry(c.(firstSaved := Some(now)))
  }

  /**
   * The new stubs are stubs of the batch, each the first of the batch with
   * its id; their ids are distinct and are exactly the batch's ids that were
   * not known.
   */
  lemma NewStubsFacts(known: set<string>, cs: seq<Conversation>)
    ensures var ns := NewStubs(known, cs);
      && (forall i :: 0 <= i < |ns| ==> ns[i] in cs && ns[i].id !in known)
      && (forall i, j :: 0 <= i < j < |ns| ==> ns[i].id != ns[j].id)
      && BatchIds(ns) == BatchIds(cs) - known
      && (forall c :: c in ns ==>
            exists j :: 0 <= j < |cs| && cs[j] == c && forall k :: 0 <= k < j ==> cs[k].id != c.id)
  {
    NewStubsMembers(known, cs);
    NewStubsDistinct(known, cs);
    NewStubsFirst(known, cs);
  }

  lemma NewStubsMembers(known: set<string>, cs: seq<Conversation>)
    ensures var ns := NewStubs(known, cs);
      && (forall i :: 0 <= i < |ns| ==> ns[i] in cs && ns[i].id !in known)
      && BatchIds(ns) == BatchIds(cs) - known
  {
    NewStubsIn(known, cs);
    NewStubsIds(known, cs);
    var ns := NewStubs(known, cs);
    assert forall i :: 0 <= i < |ns| ==> ns[i] in ns;
  }

  lemma {:induction false} NewStubsIn(known: set<string>, cs: seq<Conversation>)
    ensures forall c :: c in NewStubs(known, cs) ==> c in cs && c.id !in known
    decreases |cs|
  {
    if cs != [] {
      var init, c := cs[..|cs| - 1], cs[|cs| - 1];
      NewStubsIn(known, init);
      var ns0 := NewStubs(known, init);
      assert forall x :: x in init ==> x in cs;
      if c.id in known || c.id in BatchIds(init) {
        assert NewStubs(known, cs) == ns0;
      } else {
        assert NewStubs(known, cs) == ns0 + [c];
      }
    }
  }

  lemma {:induction false} NewStubsIds(known: set<string>, cs: seq<Conversation>)
    ensures BatchIds(NewStubs(known, cs)) == BatchIds(cs) - known
    decreases |cs|
  {
    var ns := NewStubs(known, cs);
    if cs == [] {
      assert BatchIds(cs) == {};
      assert BatchIds(ns) == {};
    } else {
      var init, c := cs[..|cs| - 1], cs[|cs| - 1];
      NewStubsIds(known, init);
      BatchIdsSnoc(cs, known);
      var ns0 := NewStubs(known, init);
      if c.id in known || c.id in BatchIds(init) {
        assert ns == ns0;
      } else {
        assert ns == ns0 + [c];
        BatchIdsSnoc(ns, {});
        assert ns[..|ns| - 1] == ns0;
      }
    }
  }

  lemma {:induction false} NewStubsDistinct(known: set<string>, cs: seq<Conversation>)
    ensures var ns := NewStubs(known, cs);
      forall i, j :: 0 <= i < j < |ns| ==> ns[i].id != ns[j].id
    decreases |cs|
  {
    if cs != [] {
      var init, c := cs[..|cs| - 1], cs[|cs| - 1];
      NewStubsDistinct(known, init);
      NewStubsMembers(known, init);
      var ns0 := NewStubs(known, init);
      if !(c.id in known || c.id in BatchIds(init)) {
        var ns := NewStubs(known, cs);
        assert ns == ns0 + [c];
        forall i | 0 <= i < |ns0| ensures ns0[i].id != c.id {
          assert ns0[i] in init;
        }
      }
    }
  }

  lemma {:induction false} NewStubsFirst(known: set<string>, cs: seq<Conversation>)
    ensures forall c :: c in NewStubs(known, cs) ==>
      exists j :: 0 <= j < |cs| && cs[j] == c && forall k :: 0 <= k < j ==> cs[k].id != c.id
    decreases |cs|
  {
    if cs != [] {
      var init, c := cs[..|cs| - 1], cs[|cs| - 1];
      NewStubsFirst(known, init);
      var ns0 := NewStubs(known, init);
      forall x | x in ns0
        ensures exists j :: 0 <= j < |cs| && cs[j] == x && forall k :: 0 <= k < j ==> cs[k].id != x.id
      {
        var j :| 0 <= j < |init| && init[j] == x && forall k :: 0 <= k < j ==> init[k].id != x.id;
        assert cs[j] == x;
        assert forall k :: 0 <= k < j ==> cs[k] == init[k];
      }
      if !(c.id in known || c.id in BatchIds(init)) {
        assert NewStubs(known, cs) == ns0 + [c];
        var j := |cs| - 1;
        forall k | 0 <= k < j ensures cs[k].id != c.id {
          assert cs[k] == init[k];
          assert init[k] in init;
        }
        assert cs[j] == c;
      } else {
        assert NewStubs(known, cs) == ns0;
      }
    }
  }

  /**
   * The index after a batch: the new stubs' entries, stamped `now`, the
   * last new stub first, in front of the old index; `added` counts them.
   */
  lemma {:induction false} SidebarFoldContents(st: SidebarState, cs: seq<Conversation>, now: int)
    ensures var r := SidebarFold(st, cs, now);
      var ns := NewStubs(EntryIds(st.index), cs);
      && r.added == st.added + |ns|
      && r.index == Reverse(Map(ns, StampedEntry(now))) + st.index
    decreases |cs|
  {
    if cs != [] {
      var init, c := cs[..|cs| - 1], cs[|cs| - 1];
      var known := EntryIds(st.index);
      var r0 := SidebarFold(st, init, now);
      var ns0 := NewStubs(known, init);
      var f := StampedEntry(now);
      SidebarFoldContents(st, init, now);
      assert c.id in EntryIds(r0.index) <==> c.id in known || c.id in BatchIds(init) by {
        SidebarFoldIds(st, init, now);
      }
      assert SidebarFold(st, cs, now) == SidebarStep(r0, c, now);
      if c.id !in EntryIds(r0.index) {
        assert NewStubs(known, cs) == ns0 + [c];
        SidebarContentsStep(r0, c, ns0, st.index, now);
      } else {
        assert NewStubs(known, cs) == ns0;
      }
    }
  }

  lemma SidebarContentsStep(r0: SidebarState, c: Conversation, ns0: seq<Conversation>,
                            base: seq<IndexEntry>, now: int)
    requires r0.index == Reverse(Map(ns0, StampedEntry(now))) + base
    requires c.id !in EntryIds(r0.index)
    ensures var r := SidebarStep(r0, c, now);
      r.added == r0.added + 1 && r.index == Reverse(Map(ns0 + [c], StampedEntry(now))) + base
  {
    var f := StampedEntry(now);
    assert SidebarStep(r0, c, now).index == [f(c)] + r0.index;
    ReverseMapSnoc(ns0, c, f);
  }

  lemma ReverseMapSnoc<T, U>(s: seq<T>, x: T, f: T -> U)
    ensures Reverse(Map(s + [x], f)) == [f(x)] + Reverse(Map(s, f))
  {
    assert Map(s + [x], f) == Map(s, f) + [f(x)];
    ReverseSnoc(Map(s, f), f(x));
  }

  /** Each new stub is stored, stamped `now`, under its record key. */
  lemma {:induction false} SidebarFoldRecords(st: SidebarState, cs: seq<Conversation>, now: int)
    ensures var r := SidebarFold(st, cs, now);
      forall c :: c in NewStubs(EntryIds(st.index), cs) ==>
        RecordKey(c.id) in r.store && r.store[RecordKey(c.id)] == Record(c.(firstSaved := Some(now)))
    decreases |cs|
  {
    if cs != [] {
      var init, c := cs[..|cs| - 1], cs[|cs| - 1];
      SidebarFoldRecords(st, init, now);
      SidebarFoldIds(st, init, now);
      var known := EntryIds(st.index);
      NewStubsFacts(known, init);
      var r0 := SidebarFold(st, init, now);
      var ns0 := NewStubs(known, init);
      var r := SidebarFold(st, cs, now);
      assert r == SidebarStep(r0, c, now);
      if c.id !in EntryIds(r0.index) {
        assert NewStubs(known, cs) == ns0 + [c];
        forall x | x in NewStubs(known, cs)
          ensures RecordKey(x.id) in r.store && r.store[RecordKey(x.id)] == Record(x.(firstSaved := Some(now)))
        {
          if x != c {
            var i :| 0 <= i < |ns0| && ns0[i] == x;
            assert x.id in BatchIds(init);
            RecordKeyCollisions(x.id, c.id);
          }
        }
      } else {
        assert NewStubs(known, cs) == ns0;
      }
    }
  }

  /**
   * A batch never touches an indexed conversation: its record is unchanged,
   * whatever the incoming stub says.
   */
  lemma SaveSidebarSkipsIndexed(s: Storage, cs: seq<Conversation>, now: int, id: string)
    requires ReadIndex(s).Some? && id in EntryIds(ReadIndex(s).value) && id != "index"
    ensures var out := SaveSidebarOp(s, cs, now);
      && out.response.SidebarSaved?
      && (RecordKey(id) in out.store <==> RecordKey(id) in s)
      && (RecordKey(id) in s ==> out.store[RecordKey(id)] == s[RecordKey(id)])
  {
    var index := ReadIndex(s).value;
    SidebarFoldStore(SidebarState(s, index, 0), cs, now);
    RecordKeyCollisions(id, id);
    forall c | c in cs && c.id !in EntryIds(index) ensures RecordKey(c.id) != RecordKey(id) {
      RecordKeyCollisions(c.id, id);
    }
  }

  /** A batch whose ids are all indexed changes nothing. */
  lemma {:induction false} SidebarFoldSkipsAll(st: SidebarState, cs: seq<Conversation>, now: int)
    requires BatchIds(cs) <= EntryIds(st.index)
    ensures SidebarFold(st, cs, now) == st
    decreases |cs|
  {
    if cs != [] {
      BatchIdsSnoc(cs, {});
      SidebarFoldSkipsAll(st, cs[..|cs| - 1], now);
    }
  }

  lemma CountNewIds(before: seq<IndexEntry>, after: seq<IndexEntry>, batch: set<string>)
    requires UniqueIds(before) && UniqueIds(after)
    requires EntryIds(after) == EntryIds(before) + batch
    ensures |after| - |before| == |batch - EntryIds(before)|
  {
    UniqueIdsCount(before);
    UniqueIdsCount(after);
    assert EntryIds(after) == EntryIds(before) + (batch - EntryIds(before));
  }

  /**
   * A sidebar batch writes only the index key and the record keys of the ids
   * it adds: every other key, the project list's included, keeps its value.
   */
  lemma SaveSidebarFrame(s: Storage, cs: seq<Conversation>, now: int, k: string)
    requires ReadIndex(s).Some? && k != IndexKey && k !in NewRecordKeys(EntryIds(ReadIndex(s).value), cs)
    ensures var out := SaveSidebarOp(s, cs, now);
      (k in out.store <==> k in s) && (k in s ==> out.store[k] == s[k])
  {
    SidebarFoldStore(SidebarState(s, ReadIndex(s).value, 0), cs, now);
  }

  /**
   * With a readable index the batch succeeds and reports `added`, the number
   * of its distinct ids that were not indexed; a batch that adds nothing
   * leaves the storage as it was (the index is not rewritten).
   */
  lemma SaveSidebarCountsNewIds(s: Storage, cs: seq<Conversation>, now: int)
    requires ReadIndex(s).Some? && UniqueIds(ReadIndex(s).value)
    ensures var out := SaveSidebarOp(s, cs, now);
      && out.response.SidebarSaved?
      && out.response.added == |BatchIds(cs) - EntryIds(ReadIndex(s).value)|
      && (out.response.added == 0 ==> out.store == s)
  {
    var index := ReadIndex(s).value;
    var st := SidebarState(s, index, 0);
    var r := SidebarFold(st, cs, now);
    assert SaveSidebarOp(s, cs, now).response == SidebarSaved(r.added);
    SidebarFoldSuffix(st, cs, now);
    SidebarFoldFront(st, cs, now);
    SidebarFoldIds(st, cs, now);
    CountNewIds(index, r.index, BatchIds(cs));
    if r.added == 0 {
      assert BatchIds(cs) <= EntryIds(index);
      SidebarFoldSkipsAll(st, cs, now);
    }
  }

  /**
   * A batch that adds entries writes the index as those new entries, each
   * stamped `now` and with a message count, in front of the old index, which
   * is kept whole; the ids are the old ones and the batch's, none repeated.
   */
  lemma SaveSidebarPrependsNewEntries(s: Storage, cs: seq<Conversation>, now: int)
    requires ReadIndex(s).Some? && UniqueIds(ReadIndex(s).value)
    requires SaveSidebarOp(s, cs, now).response.added > 0
    ensures var out := SaveSidebarOp(s, cs, now);
      var index := ReadIndex(s).value;
      && ReadIndex(out.store).Some?
      && var r := ReadIndex(out.store).value;
      && |r| == |index| + out.response.added
      && r[out.response.added..] == index
      && UniqueIds(r)
      && EntryIds(r) == EntryIds(index) + BatchIds(cs)
      && forall i :: 0 <= i < out.response.added ==> SidebarAdded(r[i], now)
  {
    var index := ReadIndex(s).value;
    var st := SidebarState(s, index, 0);
    var r := SidebarFold(st, cs, now);
    SidebarFoldSuffix(st, cs, now);
    SidebarFoldFront(st, cs, now);
    SidebarFoldIds(st, cs, now);
    var out := SaveSidebarOp(s, cs, now);
    assert out.response == SidebarSaved(r.added);
    assert out.store == r.store[IndexKey := Index(r.index)];
    assert ReadIndex(out.store) == Some(r.index);
  }

  /**
   * What a batch writes, stub by stub: its new stubs (the first stub of each
   * id that was not indexed), each stored stamped `now` under its record
   * key, and their entries in front of the old index, the stub that comes
   * last in the batch first.
   */
  lemma SaveSidebarWritesNewStubs(s: Storage, cs: seq<Conversation>, now: int)
    requires ReadIndex(s).Some?
    ensures var out := SaveSidebarOp(s, cs, now);
      var index := ReadIndex(s).value;
      var ns := NewStubs(EntryIds(index), cs);
      && out.response == SidebarSaved(|ns|)
      && (ns == [] ==> out.store == s)
      && (ns != [] ==> ReadIndex(out.store) == Some(Reverse(Map(ns, StampedEntry(now))) + index))
      && (forall c :: c in ns && c.id != "index" ==>
            RecordKey(c.id) in out.store && out.store[RecordKey(c.id)] == Record(c.(firstSaved := Some(now))))
  {
    var index := ReadIndex(s).value;
    var st := SidebarState(s, index, 0);
    var r := SidebarFold(st, cs, now);
    var ns := NewStubs(EntryIds(index), cs);
    SidebarFoldContents(st, cs, now);
    SidebarFoldRecords(st, cs, now);
    var out := SaveSidebarOp(s, cs, now);
    assert out.response == SidebarSaved(r.added);
    if ns == [] {
      SidebarFoldSkipsNone(st, cs, now);
    } else {
      assert out.store == r.store[IndexKey := Index(r.index)];
      assert ReadIndex(out.store) == Some(r.index);
      forall c | c in ns && c.id != "index" ensures RecordKey(c.id) != IndexKey {
        RecordKeyCollisions(c.id, c.id);
      }
    }
  }

  /** A batch with no new stubs leaves the storage as it was. */
  lemma SidebarFoldSkipsNone(st: SidebarState, cs: seq<Conversation>, now: int)
    requires NewStubs(EntryIds(st.index), cs) == []
    ensures SidebarFold(st, cs, now).store == st.store
  {
    var known := EntryIds(st.index);
    NewStubsIds(known, cs);
    var ns := NewStubs(known, cs);
    assert BatchIds(ns) == {};
    assert BatchIds(cs) - known == {};
    forall id | id in BatchIds(cs) ensures id in known {
      assert id !in BatchIds(cs) - known;
    }
    SidebarFoldSkipsAll(st, cs, now);
  }

  /** Position `i` of the written index holds the entry of the `i`-th new stub from the end. */
  lemma SaveSidebarNewestFirst(s: Storage, cs: seq<Conversation>, now: int)
    requires ReadIndex(s).Some?
    requires SaveSidebarOp(s, cs, now).response.added > 0
    ensures var out := SaveSidebarOp(s, cs, now);
      var ns := NewStubs(EntryIds(ReadIndex(s).value), cs);
      && ReadIndex(out.store).Some? && |ReadIndex(out.store).value| >= |ns|
      && forall i :: 0 <= i < |ns| ==>
           ReadIndex(out.store).value[i] == SidebarEntry(ns[|ns| - 1 - i].(firstSaved := Some(now)))
  {
    var ns := NewStubs(EntryIds(ReadIndex(s).value), cs);
    SaveSidebarWritesNewStubs(s, cs, now);
    ReverseIndex(Map(ns, StampedEntry(now)));
  }

  // ---------------------------------------------------------------------
  // saveProjects / getProjects
  // ---------------------------------------------------------------------

  function ProjectIds(ps: seq<Project>): set<string> {
    set p | p in ps :: p.id
  }

  predicate UniqueProjectIds(ps: seq<Project>) {
    forall i, j :: 0 <= i < j < |ps| ==> ps[i].id != ps[j].id
  }

  function ProjectHasId(id: string): Project -> bool {
    (p: Project) => p.id == id
  }

  /** A field of `{ ...existing, ...incoming }`: the incoming one when present. */
  function Override<T>(existing: Option<T>, incoming: Option<T>): (r: Option<T>)
    ensures r == (if incoming.Some? then incoming else existing)
  {
    if incoming.Some? then incoming else existing
  }

  /**
   * `{ ...existing, ...incoming, lastSeen: now }`: every field the incoming
   * entry carries replaces the stored one, the others stay, `lastSeen` is now.
   */
  function MergeProject(existing: Project, incoming: Project, now: int): (r: Project)
    ensures r.id == incoming.id && r.lastSeen == Some(now)
    ensures r.title == Override(existing.title, incoming.title)
    ensures r.url == Override(existing.url, incoming.url)
    ensures r.kind == Override(existing.kind, incoming.kind)
    ensures r.firstSaved == Override(existing.firstSaved, incoming.firstSaved)
  {
    Project(incoming.id,
            Override(existing.title, incoming.title),
            Override(existing.url, incoming.url),
            Override(existing.kind, incoming.kind),
            Override(existing.firstSaved, incoming.firstSaved),
            Some(now))
  }

  /** `{ ...incoming, firstSaved: now, lastSeen: now }`. */
  function NewProject(incoming: Project, now: int): Project {
    incoming.(firstSaved := Some(now), lastSeen := Some(now))
  }

  function UpsertProject(ps: seq<Project>, p: Project, now: int): seq<Project> {
    match FindIndex(ps, ProjectHasId(p.id))
    case Some(i) => ps[i := MergeProject(ps[i], p, now)]
    case None => ps + [NewProject(p, now)]
  }

  /** The incoming entries taken in order, each against the list as updated so far. */
  function UpsertProjects(ps: seq<Project>, incoming: seq<Project>, now: int): seq<Project>
    decreases |incoming|
  {
    if incoming == [] then ps
    else UpsertProject(UpsertProjects(ps, incoming[..|incoming| - 1], now), incoming[|incoming| - 1], now)
  }

  /** `saveProjects`: only the project list's key is ever written. */
  function SaveProjectsOp(s: Storage, incoming: seq<Project>, now: int): (r: Outcome)
    ensures r.response == Done(ReadProjects(s).Some?)
    ensures ReadProjects(s).None? ==> r.store == s
    ensures forall k :: k != ProjectKey ==> (k in r.store <==> k in s) && (k in s ==> r.store[k] == s[k])
  {
    match ReadProjects(s)
    case None => Outcome(s, Done(false))
    case Some(ps) => Outcome(s[ProjectKey := ProjectIndex(UpsertProjects(ps, incoming, now))], Done(true))
  }

  /** `getProjects`: a failure replies with an empty list. */
  function GetProjectsOp(s: Storage): (r: Response)
    ensures r.Projects? && (r.success <==> ReadProjects(s).Some?)
    ensures !r.success ==> r.projects == []
  {
    match ReadProjects(s)
    case None => Projects(false, [])
    case Some(ps) => Projects(true, ps)
  }

  function IncomingIds(incoming: seq<Project>): set<string> {
    set p | p in incoming :: p.id
  }

  /**
   * One incoming entry: merged into the first stored entry with its id, in
   * place, or appended; no other position changes.
   */
  lemma UpsertProjectStep(ps: seq<Project>, p: Project, now: int)
    ensures var r := UpsertProject(ps, p, now);
      && |r| >= |ps|
      && (forall i :: 0 <= i < |ps| ==> r[i].id == ps[i].id)
      && (forall i :: 0 <= i < |ps| && ps[i].id != p.id ==> r[i] == ps[i])
      && (forall i :: 0 <= i < |ps| && ps[i].id == p.id && (forall j :: 0 <= j < i ==> ps[j].id != p.id) ==>
            r[i] == MergeProject(ps[i], p, now))
      && (UniqueProjectIds(ps) ==> forall i :: 0 <= i < |r| && r[i].id == p.id ==> r[i].lastSeen == Some(now))
      && (forall i :: |ps| <= i < |r| ==> r[i] == NewProject(p, now) && p.id !in ProjectIds(ps))
      && (p.id in ProjectIds(ps) ==> |r| == |ps|)
      && ProjectIds(r) == ProjectIds(ps) + {p.id}
      && (UniqueProjectIds(ps) ==> UniqueProjectIds(r))
  {
    UpsertProjectPlaces(ps, p, now);
    UpsertProjectIdSet(ps, p, now);
  }

  lemma UpsertProjectPlaces(ps: seq<Project>, p: Project, now: int)
    ensures var r := UpsertProject(ps, p, now);
      && |r| >= |ps|
      && (forall i :: 0 <= i < |ps| ==> r[i].id == ps[i].id)
      && (forall i :: 0 <= i < |ps| && ps[i].id != p.id ==> r[i] == ps[i])
      && (forall i :: 0 <= i < |ps| && ps[i].id == p.id && (forall j :: 0 <= j < i ==> ps[j].id != p.id) ==>
            r[i] == MergeProject(ps[i], p, now))
      && (forall i :: |ps| <= i < |r| ==> r[i] == NewProject(p, now) && p.id !in ProjectIds(ps))
  {
    match FindIndex(ps, ProjectHasId(p.id))
    case Some(k) =>
      assert ps[k].id == p.id by { assert ProjectHasId(p.id)(ps[k]); }
      assert forall j :: 0 <= j < k ==> ps[j].id != p.id by {
        assert forall j :: 0 <= j < k ==> !ProjectHasId(p.id)(ps[j]);
      }
    case None =>
      assert forall j :: 0 <= j < |ps| ==> !ProjectHasId(p.id)(ps[j]);
      assert p.id !in ProjectIds(ps);
  }

  lemma UpsertProjectIdSet(ps: seq<Project>, p: Project, now: int)
    ensures var r := UpsertProject(ps, p, now);
      && (UniqueProjectIds(ps) ==> forall i :: 0 <= i < |r| && r[i].id == p.id ==> r[i].lastSeen == Some(now))
      && (p.id in ProjectIds(ps) ==> |r| == |ps|)
      && ProjectIds(r) == ProjectIds(ps) + {p.id}
      && (UniqueProjectIds(ps) ==> UniqueProjectIds(r))
  {
    var r := UpsertProject(ps, p, now);
    match FindIndex(ps, ProjectHasId(p.id))
    case Some(k) =>
      assert ps[k].id == p.id by { assert ProjectHasId(p.id)(ps[k]); }
      assert forall i :: 0 <= i < |ps| && ps[i].id != p.id ==> i != k;
      forall id | id in ProjectIds(ps) ensures id in ProjectIds(r) {
        var x :| x in ps && x.id == id;
        var j :| 0 <= j < |ps| && ps[j] == x;
        assert r[j].id == id;
      }
      forall id | id in ProjectIds(r) ensures id in ProjectIds(ps) {
        var x :| x in r && x.id == id;
        var j :| 0 <= j < |r| && r[j] == x;
        assert ps[j].id == id;
      }
    case None =>
      assert forall j :: 0 <= j < |ps| ==> !ProjectHasId(p.id)(ps[j]);
      assert p.id !in ProjectIds(ps);
      assert forall x :: x in r <==> x in ps || x == NewProject(p, now);
  }

  lemma IncomingIdsSnoc(incoming: seq<Project>)
    requires incoming != []
    ensures IncomingIds(incoming) == IncomingIds(incoming[..|incoming| - 1]) + {incoming[|incoming| - 1].id}
  {
    assert incoming == incoming[..|incoming| - 1] + [incoming[|incoming| - 1]];
    assert forall x :: x in incoming <==> x in incoming[..|incoming| - 1] || x == incoming[|incoming| - 1];
  }

  /** The ids of a project batch's result: the stored ids and the batch's, still unique. */
  lemma {:induction false} UpsertProjectsIds(ps: seq<Project>, incoming: seq<Project>, now: int)
    ensures var r := UpsertProjects(ps, incoming, now);
      && ProjectIds(r) == ProjectIds(ps) + IncomingIds(incoming)
      && (UniqueProjectIds(ps) ==> UniqueProjectIds(r))
    decreases |incoming|
  {
    if incoming == [] {
      assert IncomingIds(incoming) == {};
    } else {
      var init, p := incoming[..|incoming| - 1], incoming[|incoming| - 1];
      UpsertProjectsIds(ps, init, now);
      IncomingIdsSnoc(incoming);
      UpsertProjectStep(UpsertProjects(ps, init, now), p, now);
    }
  }

  /**
   * A project batch keeps every stored entry at its position with its id and
   * leaves those whose id the batch does not mention untouched; every entry
   * it appends has `lastSeen = now` and an id that was not stored.
   */
  lemma {:induction false} UpsertProjectsPositions(ps: seq<Project>, incoming: seq<Project>, now: int)
    ensures var r := UpsertProjects(ps, incoming, now);
      && |r| >= |ps|
      && (forall i :: 0 <= i < |ps| ==> r[i].id == ps[i].id)
      && (forall i :: 0 <= i < |ps| && ps[i].id !in IncomingIds(incoming) ==> r[i] == ps[i])
      && (forall i :: |ps| <= i < |r| ==> r[i].lastSeen == Some(now) && r[i].id !in ProjectIds(ps))
    decreases |incoming|
  {
    if incoming != [] {
      var init, p := incoming[..|incoming| - 1], incoming[|incoming| - 1];
      UpsertProjectsPositions(ps, init, now);
      IncomingIdsSnoc(incoming);
      var r0 := UpsertProjects(ps, init, now);
      UpsertProjectStep(r0, p, now);
      var r := UpsertProjects(ps, incoming, now);
      forall i | |ps| <= i < |r| ensures r[i].lastSeen == Some(now) && r[i].id !in ProjectIds(ps) {
        if i < |r0| && r0[i].id != p.id {
          assert r[i] == r0[i];
        }
      }
    }
  }

  /**
   * With unique stored ids, every stored entry the batch mentions ends with
   * `lastSeen = now`.
   */
  lemma {:induction false} UpsertProjectsStampsSeen(ps: seq<Project>, incoming: seq<Project>, now: int)
    requires UniqueProjectIds(ps)
    ensures var r := UpsertProjects(ps, incoming, now);
      |r| >= |ps| && forall i :: 0 <= i < |ps| && ps[i].id in IncomingIds(incoming) ==> r[i].lastSeen == Some(now)
    decreases |incoming|
  {
    if incoming != [] {
      var init, p := incoming[..|incoming| - 1], incoming[|incoming| - 1];
      UpsertProjectsStampsSeen(ps, init, now);
      UpsertProjectsPositions(ps, init, now);
      UpsertProjectsIds(ps, init, now);
      IncomingIdsSnoc(incoming);
      var r0 := UpsertProjects(ps, init, now);
      UpsertProjectStep(r0, p, now);
      var r := UpsertProjects(ps, incoming, now);
      forall i | 0 <= i < |ps| && ps[i].id in IncomingIds(incoming) ensures r[i].lastSeen == Some(now) {
        if ps[i].id != p.id {
          assert r[i] == r0[i];
        }
      }
    }
  }

  /**
   * A stored entry after a batch: each incoming entry with its id merged
   * into it in turn, in batch order.
   */
  function MergeAll(e: Project, incoming: seq<Project>, now: int): (r: Project)
    ensures r.id == e.id
    decreases |incoming|
  {
    if incoming == [] then e
    else
      var e0 := MergeAll(e, incoming[..|incoming| - 1], now);
      var p := incoming[|incoming| - 1];
      if p.id == e.id then MergeProject(e0, p, now) else e0
  }

  /**
   * An entry a batch appends: made from the first incoming entry with its id
   * (stamped `firstSaved` and `lastSeen` now), the later ones merged into it.
   */
  predicate AppendedFrom(q: Project, incoming: seq<Project>, now: int) {
    exists j :: 0 <= j < |incoming| && incoming[j].id == q.id
      && (forall k :: 0 <= k < j ==> incoming[k].id != q.id)
      && q == MergeAll(NewProject(incoming[j], now), incoming[j + 1..], now)
  }

  /**
   * With unique stored ids, each stored entry ends as every incoming entry
   * with its id merged into it, in order (an entry the batch does not
   * mention stays as it was).
   */
  lemma {:induction false} UpsertProjectsMerges(ps: seq<Project>, incoming: seq<Project>, now: int)
    requires UniqueProjectIds(ps)
    ensures var r := UpsertProjects(ps, incoming, now);
      |r| >= |ps| && forall i :: 0 <= i < |ps| ==> r[i] == MergeAll(ps[i], incoming, now)
    decreases |incoming|
  {
    if incoming != [] {
      var init, p := incoming[..|incoming| - 1], incoming[|incoming| - 1];
      UpsertProjectsMerges(ps, init, now);
      UpsertProjectsPositions(ps, init, now);
      UpsertProjectsIds(ps, init, now);
      var r0 := UpsertProjects(ps, init, now);
      UpsertProjectStep(r0, p, now);
      var r := UpsertProjects(ps, incoming, now);
      forall i | 0 <= i < |ps| ensures r[i] == MergeAll(ps[i], incoming, now) {
        if p.id == ps[i].id {
          assert forall j :: 0 <= j < i ==> r0[j].id != p.id;
        }
      }
    }
  }

  /**
   * With unique stored ids, every entry a batch appends has an id that was
   * not stored, and is made from the batch's first entry with that id.
   */
  lemma {:induction false} UpsertProjectsAppends(ps: seq<Project>, incoming: seq<Project>, now: int)
    requires UniqueProjectIds(ps)
    ensures var r := UpsertProjects(ps, incoming, now);
      forall i :: |ps| <= i < |r| ==> r[i].id !in ProjectIds(ps) && AppendedFrom(r[i], incoming, now)
    decreases |incoming|
  {
    if incoming != [] {
      var init, p := incoming[..|incoming| - 1], incoming[|incoming| - 1];
      UpsertProjectsAppends(ps, init, now);
      UpsertProjectsPositions(ps, init, now);
      UpsertProjectsIds(ps, init, now);
      var r0 := UpsertProjects(ps, init, now);
      var r := UpsertProjects(ps, incoming, now);
      assert r == UpsertProject(r0, p, now);
      assert incoming == init + [p];
      forall i | |ps| <= i < |r| ensures r[i].id !in ProjectIds(ps) && AppendedFrom(r[i], init + [p], now) {
        AppendedStep(r0, ps, init, p, now, i);
      }
    }
  }

  /** Merging one more incoming entry into an appended entry keeps its shape. */
  lemma AppendedStepOld(q: Project, init: seq<Project>, p: Project, now: int)
    requires AppendedFrom(q, init, now)
    ensures AppendedFrom(if p.id == q.id then MergeProject(q, p, now) else q, init + [p], now)
  {
    var j :| 0 <= j < |init| && init[j].id == q.id
      && (forall k :: 0 <= k < j ==> init[k].id != q.id)
      && q == MergeAll(NewProject(init[j], now), init[j + 1..], now);
    MergeAllSnoc(NewProject(init[j], now), init[j + 1..], p, now);
    AppendedAt(if p.id == q.id then MergeProject(q, p, now) else q, init, p, now, j);
  }

  /** One more step of `MergeAll`, applied to a batch that ends in `p`. */
  lemma MergeAllSnoc(e: Project, init: seq<Project>, p: Project, now: int)
    ensures var q := MergeAll(e, init, now);
      MergeAll(e, init + [p], now) == if p.id == e.id then MergeProject(q, p, now) else q
  {
    assert (init + [p])[..|init|] == init;
  }

  /** The witness `j` of `AppendedFrom`, carried from `init` over to `init + [p]`. */
  lemma AppendedAt(q: Project, init: seq<Project>, p: Project, now: int, j: int)
    requires 0 <= j < |init| && init[j].id == q.id
    requires forall k :: 0 <= k < j ==> init[k].id != q.id
    requires q == MergeAll(NewProject(init[j], now), init[j + 1..] + [p], now)
    ensures AppendedFrom(q, init + [p], now)
  {
    var incoming := init + [p];
    assert incoming[j + 1..] == init[j + 1..] + [p];
    assert forall k :: 0 <= k <= j ==> incoming[k] == init[k];
  }

  /** The entry appended for an incoming entry whose id is neither stored nor earlier in the batch. */
  lemma AppendedStepNew(init: seq<Project>, p: Project, now: int)
    requires p.id !in IncomingIds(init)
    ensures AppendedFrom(NewProject(p, now), init + [p], now)
  {
    var incoming := init + [p];
    var j := |incoming| - 1;
    assert incoming[j + 1..] == [];
    forall k | 0 <= k < j ensures incoming[k].id != p.id {
      assert incoming[k] == init[k] && init[k] in init;
    }
    assert incoming[j] == p;
  }

  /** One incoming entry keeps (or, for its own new entry, makes) an appended entry's shape. */
  lemma AppendedStep(r0: seq<Project>, ps: seq<Project>, init: seq<Project>, p: Project, now: int, i: int)
    requires UniqueProjectIds(r0) && |ps| <= |r0|
    requires ProjectIds(r0) == ProjectIds(ps) + IncomingIds(init)
    requires forall i :: |ps| <= i < |r0| ==> r0[i].id !in ProjectIds(ps) && AppendedFrom(r0[i], init, now)
    requires |ps| <= i < |UpsertProject(r0, p, now)|
    ensures var r := UpsertProject(r0, p, now);
      r[i].id !in ProjectIds(ps) && AppendedFrom(r[i], init + [p], now)
  {
    UpsertProjectStep(r0, p, now);
    var r := UpsertProject(r0, p, now);
    if i < |r0| {
      var q := r0[i];
      AppendedStepOld(q, init, p, now);
      if p.id == q.id {
        assert forall k :: 0 <= k < i ==> r0[k].id != p.id;
        assert r[i] == MergeProject(q, p, now);
      } else {
        assert r[i] == q;
      }
    } else {
      assert r[i] == NewProject(p, now) && p.id !in ProjectIds(r0);
      AppendedStepNew(init, p, now);
    }
  }

  /**
   * A project save succeeds exactly when the project list is readable; the
   * list then read back is the upserted one, and the conversation index is
   * untouched.
   */
  lemma SaveProjectsThenGet(s: Storage, incoming: seq<Project>, now: int)
    ensures SaveProjectsOp(s, incoming, now).response == Done(ReadProjects(s).Some?)
    ensures var out := SaveProjectsOp(s, incoming, now);
      && ReadIndex(out.store) == ReadIndex(s)
      && (ReadProjects(s).Some? ==>
            GetProjectsOp(out.store) == Projects(true, UpsertProjects(ReadProjects(s).value, incoming, now)))
  {
    ReadIndexFrame(s, ProjectKey, ProjectIndex(UpsertProjects(ReadProjects(s).GetOr([]), incoming, now)));
  }

  /**
   * Saving a project twice under one id, the second time with a new title,
   * leaves one entry with the new title and the second call's `lastSeen`,
   * first saved at the first call.
   */
  lemma ProjectRenameScenario(t1: int, t2: int)
    ensures var first := Project("/g/1", Some("Tool"), None, None, None, None);
      var renamed := Project("/g/1", Some("Tool Renamed"), None, None, None, None);
      var s1 := SaveProjectsOp(map[], [first], t1).store;
      var s2 := SaveProjectsOp(s1, [renamed], t2).store;
      GetProjectsOp(s2) == Projects(true, [Project("/g/1", Some("Tool Renamed"), None, None, Some(t1), Some(t2))])
  {
    var first := Project("/g/1", Some("Tool"), None, None, None, None);
    var renamed := Project("/g/1", Some("Tool Renamed"), None, None, None, None);
    assert [first][..0] == [];
    assert [renamed][..0] == [];
    var stored := NewProject(first, t1);
    assert UpsertProjects([], [first], t1) == [stored];
    assert ProjectHasId(renamed.id)(stored);
    assert UpsertProjects([stored], [renamed], t2) == [MergeProject(stored, renamed, t2)];
  }

  // ---------------------------------------------------------------------
  // deleteConversation and CLEAR_ALL
  // ---------------------------------------------------------------------

  function OtherId(id: string): IndexEntry -> bool {
    (e: IndexEntry) => e.id != id
  }

  /** `index.filter((item) => item.id !== id)`. */
  function RemoveId(index: seq<IndexEntry>, id: string): seq<IndexEntry> {
    Filter(index, OtherId(id))
  }

  /**
   * `deleteConversation`: the record is removed first, so it is gone even
   * when the index then cannot be read and the reply is a failure.
   */
  function DeleteOp(s: Storage, id: string): (r: Outcome)
    ensures r.response.Done?
    ensures !r.response.success ==> r.store == s - {RecordKey(id)}
    ensures id != "index" ==> RecordKey(id) !in r.store
  {
    var s1 := s - {RecordKey(id)};
    match ReadIndex(s1)
    case None => Outcome(s1, Done(false))
    case Some(index) => Outcome(s1[IndexKey := Index(RemoveId(index, id))], Done(true))
  }

  /** `clearAll`: afterwards both lists read as empty. */
  function ClearOp(s: Storage): (r: Outcome)
    ensures r.response == Done(true)
    ensures ReadIndex(r.store) == Some([]) && ReadProjects(r.store) == Some([])
    ensures forall k :: k !in r.store
  {
    Outcome(map[], Done(true))
  }

  /**
   * Removing an id from the index drops exactly the entries with that id and
   * keeps the others in their relative order; ids stay unique.
   */
  lemma {:induction false} RemoveIdFacts(index: seq<IndexEntry>, id: string)
    ensures var r := RemoveId(index, id);
      && (forall e :: e in r <==> e in index && e.id != id)
      && IsSubsequence(r, index)
      && (UniqueIds(index) ==> UniqueIds(r))
  {
    var r := RemoveId(index, id);
    FilterSound(index, OtherId(id));
    FilterIsSubsequence(index, OtherId(id));
    forall e | e in index && e.id != id ensures e in r {
      FilterComplete(index, OtherId(id), e);
    }
    if UniqueIds(index) {
      FilterKeepsUniqueIds(index, id);
    }
  }

  lemma {:induction false} FilterKeepsUniqueIds(index: seq<IndexEntry>, id: string)
    requires UniqueIds(index)
    ensures UniqueIds(RemoveId(index, id))
  {
    if index != [] {
      var tail := RemoveId(index[1..], id);
      FilterKeepsUniqueIds(index[1..], id);
      assert index == [index[0]] + index[1..];
      FilterCons(index[0], index[1..], OtherId(id));
      if index[0].id != id {
        assert RemoveId(index, id) == [index[0]] + tail;
        FilterSound(index[1..], OtherId(id));
        assert index[0].id !in EntryIds(tail) by {
          forall x | x in tail ensures x.id != index[0].id {
            assert x in index[1..];
          }
        }
        UniqueCons(index[0], tail);
      } else {
        assert RemoveId(index, id) == tail;
      }
    }
  }

  /**
   * Deleting removes the record's key and every index entry with the id;
   * the remaining entries keep their relative order. The delete fails, after
   * removing the record, only when the index key holds another value.
   */
  lemma DeleteRemovesConversation(s: Storage, id: string)
    requires id != "index"
    ensures var out := DeleteOp(s, id);
      && RecordKey(id) !in out.store
      && (out.response == Done(true) <==> ReadIndex(s).Some?)
      && (ReadIndex(s).Some? ==>
            && ReadIndex(out.store) == Some(RemoveId(ReadIndex(s).value, id))
            && (forall e :: e in ReadIndex(out.store).value <==> e in ReadIndex(s).value && e.id != id)
            && IsSubsequence(ReadIndex(out.store).value, ReadIndex(s).value))
  {
    RecordKeyCollisions(id, id);
    ReadIndexFrame(s, RecordKey(id), Index([]));
    if ReadIndex(s).Some? {
      RemoveIdFacts(ReadIndex(s).value, id);
    }
  }

  /** Deleting touches the record's key and the index's key and nothing else. */
  lemma DeleteFrame(s: Storage, id: string, k: string)
    requires k != RecordKey(id) && k != IndexKey
    ensures var out := DeleteOp(s, id);
      (k in out.store <==> k in s) && (k in s ==> out.store[k] == s[k])
  {
  }

  /** After a delete, listing the conversations never shows the deleted id. */
  lemma DeletedIdNotListed(s: Storage, id: string)
    ensures forall e :: e in GetAllOp(DeleteOp(s, id).store).conversations ==> e.id != id
  {
    var out := DeleteOp(s, id);
    var s1 := s - {RecordKey(id)};
    if ReadIndex(out.store).Some? {
      var listed := SortByRecency(ReadIndex(out.store).value);
      forall e | e in listed ensures e.id != id {
        assert e in multiset(listed);
        assert e in ReadIndex(out.store).value;
        if ReadIndex(s1).Some? {
          FilterSound(ReadIndex(s1).value, OtherId(id));
        } else {
          assert false;
        }
      }
    }
  }

  /**
   * Deleting the id "index" removes the index's own key: the index that is
   * written back is empty.
   */
  lemma DeleteIndexIdEmptiesIndex(s: Storage)
    ensures DeleteOp(s, "index").response == Done(true)
    ensures ReadIndex(DeleteOp(s, "index").store) == Some([])
  {
    RecordKeyCollisions("index", "index");
  }

  /** After CLEAR_ALL the store is empty and every listing is empty. */
  lemma ClearAllEmptiesStore(s: Storage, limit: int)
    ensures var out := ClearOp(s);
      && out.store == map[] && out.response == Done(true)
      && GetAllOp(out.store) == Conversations(true, [])
      && GetRecentOp(out.store, limit) == Conversations(true, [])
      && GetProjectsOp(out.store) == Projects(true, [])
  {
  }

  // ---------------------------------------------------------------------
  // The storage invariant
  // ---------------------------------------------------------------------

  /** A record with that id is stored under `chat_<id>`. */
  predicate Backed(s: Storage, id: string) {
    RecordKey(id) in s && s[RecordKey(id)].Record? && s[RecordKey(id)].conversation.id == id
  }

  /**
   * The shape the worker's operations keep: both lists are readable, neither
   * list repeats an id, and every indexed conversation has its record
   * (and an id other than "index", whose record key is the index's own key).
   */
  predicate Consistent(s: Storage) {
    && ReadIndex(s).Some? && ReadProjects(s).Some?
    && UniqueIds(ReadIndex(s).value)
    && UniqueProjectIds(ReadProjects(s).value)
    && forall e :: e in ReadIndex(s).value ==> e.id != "index" && Backed(s, e.id)
  }

  /** The ids a command carries that become record keys. */
  predicate ValidIds(cmd: Command) {
    match cmd
    case SaveConversation(c) => c.id != "index"
    case SaveSidebarConversations(cs) => forall c :: c in cs ==> c.id != "index"
    case _ => true
  }

  /** An empty store, as after installation or CLEAR_ALL, is consistent. */
  lemma EmptyIsConsistent()
    ensures Consistent(map[])
  {
  }

  lemma SavePreservesConsistent(s: Storage, c: Conversation, now: int)
    requires Consistent(s) && c.id != "index"
    ensures Consistent(SaveConversationOp(s, c, now).store)
  {
    var out := SaveConversationOp(s, c, now);
    var index := ReadIndex(s).value;
    var e := ToEntry(Stamped(s, c, now));
    SaveConversationUpdatesIndex(s, c, now);
    SaveConversationStoresRecord(s, c, now);
    UpsertEntryIds(index, e);
    RecordKeyCollisions(c.id, c.id);
    ReadProjectsFrame(s, RecordKey(c.id), Record(Stamped(s, c, now)));
    forall x | x in ReadIndex(out.store).value ensures x.id != "index" && Backed(out.store, x.id) {
      if x != e {
        RecordKeyCollisions(x.id, c.id);
        SaveConversationFrame(s, c, now, RecordKey(x.id));
      }
    }
  }

  lemma DeletePreservesConsistent(s: Storage, id: string)
    requires Consistent(s)
    ensures Consistent(DeleteOp(s, id).store)
  {
    var out := DeleteOp(s, id);
    var s1 := s - {RecordKey(id)};
    RecordKeyCollisions(id, id);
    ReadProjectsFrame(s, RecordKey(id), Index([]));
    var index := ReadIndex(s1).value;
    RemoveIdFacts(index, id);
    if id != "index" {
      ReadIndexFrame(s, RecordKey(id), Index([]));
      forall x | x in ReadIndex(out.store).value ensures x.id != "index" && Backed(out.store, x.id) {
        RecordKeyCollisions(x.id, id);
      }
    } else {
      assert index == [];
      assert RemoveId(index, id) == [] by { assert |RemoveId(index, id)| <= |index|; }
    }
  }

  lemma SaveProjectsPreservesConsistent(s: Storage, incoming: seq<Project>, now: int)
    requires Consistent(s)
    ensures Consistent(SaveProjectsOp(s, incoming, now).store)
  {
    var out := SaveProjectsOp(s, incoming, now);
    ReadIndexFrame(s, ProjectKey, ProjectIndex([]));
    UpsertProjectsIds(ReadProjects(s).value, incoming, now);
    forall x | x in ReadIndex(out.store).value ensures Backed(out.store, x.id) {
      RecordKeyCollisions(x.id, x.id);
    }
  }

  /** A key that a sidebar batch writes belongs to an id it newly indexes. */
  lemma NewRecordKeysHaveNewIds(known: set<string>, cs: seq<Conversation>, id: string)
    requires RecordKey(id) in NewRecordKeys(known, cs)
    ensures id !in known && id in BatchIds(cs)
  {
    var c :| c in cs && c.id !in known && RecordKey(c.id) == RecordKey(id);
    RecordKeyCollisions(c.id, id);
  }

  /** A batch whose ids are not "index" leaves both lists' keys alone. */
  lemma SidebarFoldKeepsLists(st: SidebarState, cs: seq<Conversation>, now: int)
    requires forall c :: c in cs ==> c.id != "index"
    ensures var r := SidebarFold(st, cs, now);
      ReadIndex(r.store) == ReadIndex(st.store) && ReadProjects(r.store) == ReadProjects(st.store)
  {
    var known := EntryIds(st.index);
    var r := SidebarFold(st, cs, now);
    SidebarFoldStore(st, cs, now);
    RecordKeyCollisions("index", "index");
    if IndexKey in NewRecordKeys(known, cs) {
      NewRecordKeysHaveNewIds(known, cs, "index");
    }
    if ProjectKey in NewRecordKeys(known, cs) {
      var c :| c in cs && c.id !in known && RecordKey(c.id) == ProjectKey;
      RecordKeyCollisions(c.id, c.id);
    }
  }

  /** Every entry a batch leaves indexed has its record stored. */
  lemma SidebarFoldBacksEntries(st: SidebarState, cs: seq<Conversation>, now: int)
    requires forall e :: e in st.index ==> Backed(st.store, e.id)
    ensures var r := SidebarFold(st, cs, now);
      forall e :: e in r.index ==> Backed(r.store, e.id)
  {
    var known := EntryIds(st.index);
    var r := SidebarFold(st, cs, now);
    SidebarFoldStore(st, cs, now);
    SidebarFoldIds(st, cs, now);
    forall x | x in r.index ensures Backed(r.store, x.id) {
      assert x.id in EntryIds(r.index);
      if x.id in known {
        var y :| y in st.index && y.id == x.id;
        assert Backed(st.store, y.id);
        if RecordKey(x.id) in NewRecordKeys(known, cs) {
          NewRecordKeysHaveNewIds(known, cs, x.id);
        }
      }
    }
  }

  lemma SidebarPreservesConsistent(s: Storage, cs: seq<Conversation>, now: int)
    requires Consistent(s) && forall c :: c in cs ==> c.id != "index"
    ensures Consistent(SaveSidebarOp(s, cs, now).store)
  {
    var index := ReadIndex(s).value;
    var st := SidebarState(s, index, 0);
    var r := SidebarFold(st, cs, now);
    var out := SaveSidebarOp(s, cs, now);
    SidebarFoldKeepsLists(st, cs, now);
    SidebarFoldBacksEntries(st, cs, now);
    SidebarFoldIds(st, cs, now);
    SidebarFoldSuffix(st, cs, now);
    SidebarFoldFront(st, cs, now);
    if r.added == 0 {
      assert r.index == index;
      assert out.store == r.store;
    } else {
      assert out.store == r.store[IndexKey := Index(r.index)];
      ReadProjectsFrame(r.store, IndexKey, Index(r.index));
      forall x | x in r.index ensures x.id != "index" && Backed(out.store, x.id) {
        assert x.id in EntryIds(r.index);
        RecordKeyCollisions(x.id, x.id);
      }
    }
  }

  // ---------------------------------------------------------------------
  // The message listener
  // ---------------------------------------------------------------------

  /** What the listener does with one message, at time `now`: every handled type gets a reply. */
  function HandleOp(s: Storage, cmd: Command, now: int): (r: Outcome)
    ensures r.response == NoReply <==> cmd.Unhandled?
  {
    match cmd
    case SaveConversation(c) => SaveConversationOp(s, c, now)
    case GetAllConversations => Outcome(s, GetAllOp(s))
    case GetRecentConversations(limit) => Outcome(s, GetRecentOp(s, RecentLimit(limit)))
    case DeleteConversation(id) => DeleteOp(s, id)
    case ExportAll => Outcome(s, GetAllOp(s))
    case ClearAll => ClearOp(s)
    case SaveSidebarConversations(cs) => SaveSidebarOp(s, cs, now)
    case SaveProjects(ps) => SaveProjectsOp(s, ps, now)
    case GetProjects => Outcome(s, GetProjectsOp(s))
    case Unhandled(_) => Outcome(s, NoReply)
  }

  /** Every message whose ids are not "index" keeps the storage consistent. */
  lemma HandlePreservesConsistent(s: Storage, cmd: Command, now: int)
    requires Consistent(s) && ValidIds(cmd)
    ensures Consistent(HandleOp(s, cmd, now).store)
  {
    match cmd
    case SaveConversation(c) => SavePreservesConsistent(s, c, now);
    case DeleteConversation(id) => DeletePreservesConsistent(s, id);
    case SaveSidebarConversations(cs) => SidebarPreservesConsistent(s, cs, now);
    case SaveProjects(ps) => SaveProjectsPreservesConsistent(s, ps, now);
    case _ =>
  }

  /**
   * In a consistent store every listed conversation can be opened: its
   * record is stored, and listing succeeds.
   */
  lemma ListedConversationsAreBacked(s: Storage, cmd: Command, now: int)
    requires Consistent(s) && (cmd.GetAllConversations? || cmd.ExportAll? || cmd.GetRecentConversations?)
    ensures var r := HandleOp(s, cmd, now).response;
      r.Conversations? && r.success && forall e :: e in r.conversations ==> Backed(s, e.id)
  {
    var sorted := SortByRecency(ReadIndex(s).value);
    SortedIndexBacked(s);
    if cmd.GetRecentConversations? {
      var r := SlicePrefix(sorted, RecentLimit(cmd.limit));
      assert HandleOp(s, cmd, now).response == Conversations(true, r);
      forall e | e in r ensures e in sorted {
        var i :| 0 <= i < |r| && r[i] == e;
        assert sorted[i] == e;
      }
    } else {
      assert HandleOp(s, cmd, now).response == Conversations(true, sorted);
    }
  }

  /** EXPORT_ALL is answered by the same call as GET_ALL, on every storage. */
  lemma ExportAllListsLikeGetAll(s: Storage, now: int)
    ensures HandleOp(s, ExportAll, now) == HandleOp(s, GetAllConversations, now)
    ensures HandleOp(s, ExportAll, now).store == s
  {
  }

  lemma SortedIndexBacked(s: Storage)
    requires Consistent(s)
    ensures forall e :: e in SortByRecency(ReadIndex(s).value) ==> Backed(s, e.id)
  {
    var index := ReadIndex(s).value;
    var sorted := SortByRecency(index);
    forall e | e in sorted ensures Backed(s, e.id) {
      assert e in multiset(sorted);
      assert e in index;
    }
  }

  /** The read-only messages, and an unknown type, leave the storage as it was. */
  lemma ReadsDoNotWrite(s: Storage, cmd: Command, now: int)
    requires cmd.GetAllConversations? || cmd.GetRecentConversations? || cmd.ExportAll?
          || cmd.GetProjects? || cmd.Unhandled?
    ensures HandleOp(s, cmd, now).store == s
    ensures cmd.Unhandled? <==> HandleOp(s, cmd, now).response == NoReply
  {
  }

  /**
   * A first save of a conversation, then a second save of it with more
   * messages: one index entry, the first save's stamp kept.
   */
  lemma ResaveKeepsFirstSaved(c: Conversation, more: seq<Message>, t1: int, t2: int)
    requires c.id != "index" && c.firstSaved == None
    ensures var s1 := HandleOp(map[], SaveConversation(c), t1).store;
      var c2 := c.(messages := c.messages + more, messageCount := Some(|c.messages| + |more|), lastUpdated := t2);
      var s2 := HandleOp(s1, SaveConversation(c2), t2).store;
      && s2[RecordKey(c.id)] == Record(c2.(firstSaved := Some(t1)))
      && GetAllOp(s2) == Conversations(true, [ToEntry(c2.(firstSaved := Some(t1)))])
  {
    RecordKeyCollisions(c.id, c.id);
    var s1 := HandleOp(map[], SaveConversation(c), t1).store;
    var e1 := ToEntry(c.(firstSaved := Some(t1)));
    var s0 := map[RecordKey(c.id) := Record(c.(firstSaved := Some(t1)))];
    assert ReadIndex(s0) == Some([]);
    assert FindEntry([], c.id) == None;
    assert UpsertEntry([], e1) == [e1];
    assert s1 == s0[IndexKey := Index([e1])];
    assert ReadIndex(s1) == Some([e1]);
    var c2 := c.(messages := c.messages + more, messageCount := Some(|c.messages| + |more|), lastUpdated := t2);
    assert FindEntry([e1], c.id) == Some(0) by { assert HasId(c.id)(e1); }
  }

  // ---------------------------------------------------------------------
  // The worker over chrome.storage.local
  // ---------------------------------------------------------------------

  /**
   * The background worker's view of its storage area. Each method performs
   * one message's reads and writes in the order the worker does, and is
   * proved to end in the state, with the reply, that the matching `...Op`
   * describes.
   */
  class ChromeStore {
    var data: Storage

    /** A freshly installed extension: nothing stored. */
    constructor()
      ensures data == map[] && Consistent(data)
    {
      data := map[];
    }

    method SaveConversation(conversation: Conversation, now: int) returns (response: Response)
      modifies this
      ensures data == SaveConversationOp(old(data), conversation, now).store
      ensures response == SaveConversationOp(old(data), conversation, now).response
    {
      var key := RecordKey(conversation.id);
      var firstSaved: Option<int>;
      if key in data {
        firstSaved := if data[key].Record? then data[key].conversation.firstSaved else None;
      } else {
        firstSaved := Some(now);
      }
      var saved := conversation.(firstSaved := firstSaved);
      data := data[key := Record(saved)];
      var read := ReadIndex(data);
      if read.None? {
        return Done(false);
      }
      var index := read.value;
      var entry := ToEntry(saved);
      match FindEntry(index, conversation.id) {
        case Some(i) => index := index[i := entry];
        case None => index := [entry] + index;
      }
      data := data[IndexKey := Index(index)];
      response := Done(true);
    }

    method GetAllConversations() returns (response: Response)
      ensures response == GetAllOp(data)
      ensures response.success <==> ReadIndex(data).Some?
      ensures response.success ==>
        SortedByRecency(response.conversations)
        && multiset(response.conversations) == multiset(ReadIndex(data).value)
    {
      var read := ReadIndex(data);
      if read.None? {
        return Conversations(false, []);
      }
      response := Conversations(true, SortByRecency(read.value));
    }

    method GetRecentConversations(limit: Option<int>) returns (response: Response)
      ensures response == GetRecentOp(data, RecentLimit(limit))
      ensures response.success <==> ReadIndex(data).Some?
      ensures response.success ==>
        SortedByRecency(response.conversations)
        && multiset(response.conversations) <= multiset(ReadIndex(data).value)
    {
      var read := ReadIndex(data);
      if read.None? {
        return Conversations(false, []);
      }
      var n := RecentLimit(limit);
      var sorted := SortByRecency(read.value);
      response := Conversations(true, SlicePrefix(sorted, n));
      if n >= 0 {
        GetRecentIsSortedPrefix(data, n);
      } else {
        GetRecentIsSortedPrefix(data, if |sorted| + n < 0 then 0 else |sorted| + n);
      }
    }

    method SaveSidebarConversations(conversations: seq<Conversation>, now: int) returns (response: Response)
      modifies this
      ensures data == SaveSidebarOp(old(data), conversations, now).store
      ensures response == SaveSidebarOp(old(data), conversations, now).response
    {
      var read := ReadIndex(data);
      if read.None? {
        return Done(false);
      }
      var index := read.value;
      ghost var start := SidebarState(data, index, 0);
      var existingIds := EntryIds(index);
      var added: nat := 0;
      var i := 0;
      while i < |conversations|
        invariant 0 <= i <= |conversations|
        invariant SidebarFold(start, conversations[..i], now) == SidebarState(data, index, added)
        invariant existingIds == EntryIds(index)
      {
        var conv := conversations[i];
        assert conversations[..i + 1][..i] == conversations[..i];
        if conv.id !in existingIds {
          var stamped := conv.(firstSaved := Some(now));
          data := data[RecordKey(conv.id) := Record(stamped)];
          var entry := SidebarEntry(stamped);
          EntryIdsPrepend(entry, index);
          index := [entry] + index;
          existingIds := existingIds + {conv.id};
          added := added + 1;
        }
        i := i + 1;
      }
      assert conversations[..i] == conversations;
      if added > 0 {
        data := data[IndexKey := Index(index)];
      }
      response := SidebarSaved(added);
    }

    method SaveProjects(projects: seq<Project>, now: int) returns (response: Response)
      modifies this
      ensures data == SaveProjectsOp(old(data), projects, now).store
      ensures response == SaveProjectsOp(old(data), projects, now).response
    {
      var read := ReadProjects(data);
      if read.None? {
        return Done(false);
      }
      var existing := read.value;
      var i := 0;
      while i < |projects|
        invariant 0 <= i <= |projects|
        invariant existing == UpsertProjects(read.value, projects[..i], now)
      {
        var proj := projects[i];
        assert projects[..i + 1][..i] == projects[..i];
        match FindIndex(existing, ProjectHasId(proj.id)) {
          case Some(idx) => existing := existing[idx := MergeProject(existing[idx], proj, now)];
          case None => existing := existing + [NewProject(proj, now)];
        }
        i := i + 1;
      }
      assert projects[..i] == projects;
      data := data[ProjectKey := ProjectIndex(existing)];
      response := Done(true);
    }

    method GetProjects() returns (response: Response)
      ensures response == GetProjectsOp(data)
      ensures response.Projects? && (response.success <==> ReadProjects(data).Some?)
      ensures !response.success ==> response.projects == []
    {
      var read := ReadProjects(data);
      if read.None? {
        return Projects(false, []);
      }
      response := Projects(true, read.value);
    }

    method DeleteConversation(id: string) returns (response: Response)
      modifies this
      ensures data == DeleteOp(old(data), id).store
      ensures response == DeleteOp(old(data), id).response
      ensures id != "index" ==> RecordKey(id) !in data
    {
      data := data - {RecordKey(id)};
      var read := ReadIndex(data);
      if read.None? {
        return Done(false);
      }
      data := data[IndexKey := Index(RemoveId(read.value, id))];
      response := Done(true);
      RecordKeyCollisions(id, id);
    }

    method ClearAll() returns (response: Response)
      modifies this
      ensures data == map[] && response == Done(true)
    {
      data := map[];
      response := Done(true);
    }

    /** The message listener: dispatch on the message's type. */
    method Handle(cmd: Command, now: int) returns (response: Response)
      modifies this
      ensures data == HandleOp(old(data), cmd, now).store
      ensures response == HandleOp(old(data), cmd, now).response
      ensures Consistent(old(data)) && ValidIds(cmd) ==> Consistent(data)
    {
      if Consistent(data) && ValidIds(cmd) {
        HandlePreservesConsistent(data, cmd, now);
      }
      match cmd
      case SaveConversation(c) => response := SaveConversation(c, now);
      case GetAllConversations => response := GetAllConversations();
      case GetRecentConversations(limit) => response := GetRecentConversations(limit);
      case DeleteConversation(id) => response := DeleteConversation(id);
      case ExportAll => response := GetAllConversations();
      case ClearAll => response := ClearAll();
      case SaveSidebarConversations(cs) => response := SaveSidebarConversations(cs, now);
      case SaveProjects(ps) => response := SaveProjects(ps, now);
      case GetProjects => response := GetProjects();
      case Unhandled(_) => response := NoReply;
    }
  }
}
