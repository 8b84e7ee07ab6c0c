/**
 * The popup's logic with its DOM rendering abstracted away: the title
 * search, the export key selection, the relative date labels, the stats
 * line and the role label of the detail view, and the popup's list of
 * conversations.
 */
module Popup {
  import opened Common
  import opened Records
  import Background

  // ---------------------------------------------------------------------
  // Search
  // ---------------------------------------------------------------------

  /** `c.title.toLowerCase().includes(query)`, with the query already lower-cased. */
  function TitleMatches(query: string): IndexEntry -> bool {
    (c: IndexEntry) => Contains(Lower(c.title), query)
  }

  /**
   * The list the search box shows: the whole list for an empty query,
   * otherwise the conversations whose lower-cased title contains the
   * lower-cased query, in list order.
   */
  function SearchFilter(all: seq<IndexEntry>, input: string): (r: seq<IndexEntry>)
    ensures input == [] ==> r == all
    ensures |r| <= |all|
  {
    var query := Lower(input);
    if query == [] then all else Filter(all, TitleMatches(query))
  }

  /**
   * A search keeps exactly the matching conversations, each of them, in the
   * order of the list.
   */
  lemma SearchKeepsExactlyMatches(all: seq<IndexEntry>, input: string)
    requires input != []
    ensures var r := SearchFilter(all, input);
      && IsSubsequence(r, all)
      && forall c :: c in r <==> c in all && Contains(Lower(c.title), Lower(input))
  {
    var p := TitleMatches(Lower(input));
    FilterIsSubsequence(all, p);
    FilterSound(all, p);
    forall c | c in all && p(c) ensures c in Filter(all, p) {
      FilterComplete(all, p, c);
    }
  }

  /** Searching is insensitive to ASCII case in the query. */
  lemma SearchIgnoresQueryCase(all: seq<IndexEntry>, input: string)
    ensures SearchFilter(all, Lower(input)) == SearchFilter(all, input)
  {
    LowerIdempotent(input);
  }

  // ---------------------------------------------------------------------
  // Export
  // ---------------------------------------------------------------------

  /** The keys the export keeps: `chat_` keys other than the index's. */
  predicate IsExportKey(key: string) {
    StartsWith(key, RecordPrefix) && key != IndexKey
  }

  /** The exported object: the chosen keys with their stored values. */
  function ExportSpec(allData: Storage): (r: map<string, Value>)
    ensures forall k :: k in r <==> k in allData && IsExportKey(k)
    ensures forall k :: k in r ==> r[k] == allData[k]
  {
    map k | k in allData && IsExportKey(k) :: allData[k]
  }

  /** The export's `for…of` loop over the storage's entries. */
  method ExportConversations(allData: Storage) returns (conversations: map<string, Value>)
    ensures conversations == ExportSpec(allData)
  {
    conversations := map[];
    var remaining := allData.Keys;
    while remaining != {}
      invariant remaining <= allData.Keys
      invariant conversations == map k | k in allData.Keys - remaining && IsExportKey(k) :: allData[k]
      decreases |remaining|
    {
      var key :| key in remaining;
      if StartsWith(key, RecordPrefix) && key != IndexKey {
        conversations := conversations[key := allData[key]];
      }
      remaining := remaining - {key};
    }
  }

  /**
   * The export holds every conversation record and neither list: the
   * project list's key is never exported, nor is the index's.
   */
  lemma ExportHoldsRecordsOnly(allData: Storage, id: string)
    requires id != "index"
    ensures var r := ExportSpec(allData);
      && ProjectKey !in r && IndexKey !in r
      && (RecordKey(id) in r <==> RecordKey(id) in allData)
      && (RecordKey(id) in r ==> r[RecordKey(id)] == allData[RecordKey(id)])
  {
    RecordKeyCollisions(id, id);
    assert !StartsWith(ProjectKey, RecordPrefix) by { assert ProjectKey[..5][0] == 'p'; }
  }

  /**
   * Every exported key is a record key, so exporting a consistent store
   * gives the records of all indexed conversations.
   */
  lemma ExportOfConsistentStore(allData: Storage)
    requires Background.Consistent(allData)
    ensures var r := ExportSpec(allData);
      && (forall k :: k in r ==> exists id :: k == RecordKey(id) && id != "index")
      && forall e :: e in Background.ReadIndex(allData).value ==>
           RecordKey(e.id) in r && r[RecordKey(e.id)].Record? && r[RecordKey(e.id)].conversation.id == e.id
  {
    var r := ExportSpec(allData);
    forall k | k in r ensures exists id :: k == RecordKey(id) && id != "index" {
      var id := k[|RecordPrefix|..];
      assert k == RecordPrefix + id;
      RecordKeyCollisions(id, id);
    }
    forall e | e in Background.ReadIndex(allData).value
      ensures RecordKey(e.id) in r && r[RecordKey(e.id)].Record? && r[RecordKey(e.id)].conversation.id == e.id
    {
      RecordKeyCollisions(e.id, e.id);
    }
  }

  // ---------------------------------------------------------------------
  // formatDate
  // ---------------------------------------------------------------------

  const MinuteMs: int := 60000
  const HourMs: int := 3600000
  const DayMs: int := 86400000

  /** The label of a timestamp; `OnDate` stands for the locale date string. */
  datatype DateLabel = Unknown | JustNow | MinutesAgo(n: nat) | HoursAgo(n: nat) | DaysAgo(n: nat) | OnDate(ts: int)

  /**
   * formatDate at time `now`. For a positive divisor Dafny's `/` on `int`
   * is floor division, as `Math.floor(diff / 60000)` is for integral `diff`.
   */
  function FormatDate(ts: Option<int>, now: int): (r: DateLabel)
    ensures r == Unknown <==> ts.None?
    ensures r == JustNow <==> ts.Some? && now - ts.value < MinuteMs
    ensures r.MinutesAgo? <==> ts.Some? && MinuteMs <= now - ts.value < HourMs
    ensures r.HoursAgo? <==> ts.Some? && HourMs <= now - ts.value < DayMs
    ensures r.DaysAgo? <==> ts.Some? && DayMs <= now - ts.value < 7 * DayMs
    ensures r.OnDate? <==> ts.Some? && 7 * DayMs <= now - ts.value
    ensures r.MinutesAgo? ==> 1 <= r.n < 60 && r.n * MinuteMs <= now - ts.value < (r.n + 1) * MinuteMs
    ensures r.HoursAgo? ==> 1 <= r.n < 24 && r.n * HourMs <= now - ts.value < (r.n + 1) * HourMs
    ensures r.DaysAgo? ==> 1 <= r.n < 7 && r.n * DayMs <= now - ts.value < (r.n + 1) * DayMs
    ensures r.OnDate? ==> r.ts == ts.value
  {
    match ts
    case None => Unknown
    case Some(d) =>
      var diff := now - d;
      var mins := diff / MinuteMs;
      var hours := diff / HourMs;
      var days := diff / DayMs;
      if mins < 1 then JustNow
      else if mins < 60 then MinutesAgo(mins)
      else if hours < 24 then HoursAgo(hours)
      else if days < 7 then DaysAgo(days)
      else OnDate(d)
  }

  /** A timestamp in the future reads "Just now". */
  lemma FutureIsJustNow(ts: int, now: int)
    requires ts > now
    ensures FormatDate(Some(ts), now) == JustNow
  {
  }

  /** The text shown for a label; a locale date is left as the timestamp. */
  function LabelText(dateLabel: DateLabel): (r: string)
    requires !dateLabel.OnDate?
  {
    match dateLabel
    case Unknown => "Unknown"
    case JustNow => "Just now"
    case MinutesAgo(n) => NatToString(n) + "m ago"
    case HoursAgo(n) => NatToString(n) + "h ago"
    case DaysAgo(n) => NatToString(n) + "d ago"
  }

  /**
   * A "<n>m ago" text starts with the decimal digits of the number of whole
   * minutes elapsed, with no leading zero, followed by the unit.
   */
  lemma MinutesTextShowsMinutes(ts: int, now: int)
    requires MinuteMs <= now - ts < HourMs
    ensures var dateLabel := FormatDate(Some(ts), now);
      var text := LabelText(dateLabel);
      var digits := NatToString(dateLabel.n);
      && dateLabel.MinutesAgo?
      && text == digits + "m ago"
      && DecimalValue(digits) == (now - ts) / MinuteMs
      && (|digits| > 1 ==> digits[0] != '0')
  {
    NatToStringRoundTrip(FormatDate(Some(ts), now).n);
  }

  // ---------------------------------------------------------------------
  // Stats line and role label
  // ---------------------------------------------------------------------

  /** `${n} conversation${n !== 1 ? "s" : ""} saved`. */
  function StatsText(n: nat): (r: string)
    ensures |NatToString(n)| <= |r| && r[..|NatToString(n)|] == NatToString(n)
    ensures r[|NatToString(n)|..] == " conversation saved" <==> n == 1
    ensures r[|NatToString(n)|..] == " conversations saved" <==> n != 1
  {
    var tail := if n != 1 then " conversations saved" else " conversation saved";
    assert " conversations saved" != " conversation saved" by {
      assert |" conversations saved"| != |" conversation saved"|;
    }
    NatToString(n) + tail
  }

  /** The stats line leads with the count in decimal. */
  lemma StatsTextShowsCount(n: nat)
    ensures DecimalValue(StatsText(n)[..|NatToString(n)|]) == n
  {
    NatToStringRoundTrip(n);
  }

  /** The role label in the detail view: "You" for the user, "ChatGPT" for every other role. */
  function RoleLabel(role: string): (r: string)
    ensures r == "You" <==> role == "user"
    ensures r == "ChatGPT" <==> role != "user"
  {
    if role == "user" then "You" else "ChatGPT"
  }

  // ---------------------------------------------------------------------
  // The popup's state
  // ---------------------------------------------------------------------

  /** The list the popup loaded last and its stats line. */
  class PopupView {
    var allConversations: seq<IndexEntry>
    var stats: string

    constructor()
      ensures allConversations == [] && stats == []
    {
      allConversations := [];
      stats := [];
    }

    /** loadConversations' callback: a successful listing replaces the list. */
    method LoadConversations(response: Response)
      modifies this
      ensures response.Conversations? && response.success ==>
        allConversations == response.conversations && stats == StatsText(|response.conversations|)
      ensures !(response.Conversations? && response.success) ==>
        allConversations == old(allConversations) && stats == old(stats)
    {
      if response.Conversations? && response.success {
        allConversations := response.conversations;
        stats := StatsText(|allConversations|);
      }
    }

    /** The search box's input handler: the list to render. */
    method OnSearchInput(input: string) returns (shown: seq<IndexEntry>)
      ensures shown == SearchFilter(allConversations, input)
      ensures IsSubsequence(shown, allConversations)
    {
      var query := Lower(input);
      if query == [] {
        shown := allConversations;
        SubsequenceRefl(allConversations);
        return;
      }
      shown := Filter(allConversations, TitleMatches(query));
      FilterIsSubsequence(allConversations, TitleMatches(query));
    }
  }
}
