/**
 * The entities the extension passes between its three contexts (the content
 * script on the chat page, the background worker, the popup), the tagged
 * command messages they exchange, and the layout of the extension's local
 * key-value storage. Timestamps are milliseconds since the epoch.
 */
module Records {
  import opened Common

  /** One chat turn: the author role attribute and the trimmed text. */
  datatype Message = Message(role: string, content: string)

  /**
   * A full conversation record. `messageCount` is absent when a sender
   * leaves it out; `firstSaved` is absent (null) until the background worker
   * stamps it. `fromSidebar` marks stubs built from sidebar links.
   */
  datatype Conversation = Conversation(
    id: string,
    title: string,
    url: string,
    messages: seq<Message>,
    messageCount: Option<int>,
    lastUpdated: int,
    firstSaved: Option<int>,
    fromSidebar: bool)

  /** The summary of a conversation kept in the conversation index. */
  datatype IndexEntry = IndexEntry(
    id: string,
    title: string,
    messageCount: Option<int>,
    lastUpdated: int,
    firstSaved: Option<int>,
    url: string)

  /**
   * A project, folder or custom-GPT entry. Every field but `id` may be
   * absent from an incoming entry; `kind` is the entry's `type` field.
   */
  datatype Project = Project(
    id: string,
    title: Option<string>,
    url: Option<string>,
    kind: Option<string>,
    firstSaved: Option<int>,
    lastSeen: Option<int>)

  /** What a storage key holds. */
  datatype Value =
    | Record(conversation: Conversation)
    | Index(entries: seq<IndexEntry>)
    | ProjectIndex(projects: seq<Project>)

  /** chrome.storage.local: a map from keys to stored values. */
  type Storage = map<string, Value>

  const IndexKey: string := "chat_index"
  const ProjectKey: string := "project_index"
  const RecordPrefix: string := "chat_"

  /** The key a conversation record is stored under. */
  function RecordKey(id: string): (k: string)
    ensures StartsWith(k, RecordPrefix) && k[|RecordPrefix|..] == id
  {
    RecordPrefix + id
  }

  /**
   * Record keys never meet the project list's key, and meet the index's key
   * for exactly one id, "index"; distinct ids give distinct keys.
   */
  lemma RecordKeyCollisions(id: string, other: string)
    ensures RecordKey(id) != ProjectKey
    ensures RecordKey(id) == IndexKey <==> id == "index"
    ensures RecordKey(id) == RecordKey(other) <==> id == other
  {
    assert RecordKey(id)[..5] == "chat_";
    assert ProjectKey[..5] == "proje";
    if RecordKey(id) == RecordKey(other) {
      assert id == RecordKey(id)[5..] == RecordKey(other)[5..] == other;
    }
    if RecordKey(id) == IndexKey {
      assert id == IndexKey[5..];
    }
  }

  /** The commands the background worker's message listener understands. */
  datatype Command =
    | SaveConversation(conversation: Conversation)
    | GetAllConversations
    | GetRecentConversations(limit: Option<int>)
    | DeleteConversation(id: string)
    | ExportAll
    | ClearAll
    | SaveSidebarConversations(conversations: seq<Conversation>)
    | SaveProjects(projects: seq<Project>)
    | GetProjects
    | Unhandled(tag: string)

  /**
   * The listener's replies. A failed sidebar save replies `Done(false)`; the
   * listener gives `NoReply` to a message type it does not handle.
   */
  datatype Response =
    | Done(success: bool)
    | Conversations(success: bool, conversations: seq<IndexEntry>)
    | SidebarSaved(added: nat)
    | Projects(success: bool, projects: seq<Project>)
    | NoReply
}
