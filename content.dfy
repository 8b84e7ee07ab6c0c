/**
 * The content script on a chat page, with the page abstracted to the values
 * the script reads from it: the location, the active navigation item's text,
 * the document title, the message elements and the sidebar links. What the
 * script sends to the background worker is collected in an outbox.
 */
module Content {
  import opened Common
  import opened Records

  // ---------------------------------------------------------------------
  // getConversationId: /\/c\/([a-zA-Z0-9-]+)/
  // ---------------------------------------------------------------------

  predicate IsIdChar(c: char) {
    ('a' <= c <= 'z') || ('A' <= c <= 'Z') || ('0' <= c <= '9') || c == '-'
  }

  /** The pattern can match at `i`: "/c/" there, followed by an id character. */
  predicate MatchAt(s: string, i: nat) {
    i + 4 <= |s| && s[i..i + 3] == "/c/" && IsIdChar(s[i + 3])
  }

  /** The first position at or after `from` where the pattern matches. */
  function FirstMatchFrom(s: string, from: nat): (r: Option<nat>)
    ensures r.Some? ==> from <= r.value && MatchAt(s, r.value)
    ensures r.Some? ==> forall j :: from <= j < r.value ==> !MatchAt(s, j)
    ensures r.None? <==> forall j :: from <= j ==> !MatchAt(s, j)
    decreases |s| - from
  {
    if from + 4 > |s| then None
    else if MatchAt(s, from) then Some(from)
    else FirstMatchFrom(s, from + 1)
  }

  /** The end of the greedy run of id characters starting at `from`. */
  function IdRunEnd(s: string, from: nat): (r: nat)
    requires from <= |s|
    ensures from <= r <= |s|
    ensures forall k :: from <= k < r ==> IsIdChar(s[k])
    ensures r == |s| || !IsIdChar(s[r])
    ensures from < |s| && IsIdChar(s[from]) ==> r > from
    decreases |s| - from
  {
    if from < |s| && IsIdChar(s[from]) then IdRunEnd(s, from + 1) else from
  }

  /** A non-empty run of id characters. */
  predicate IsId(id: string) {
    id != [] && forall k :: 0 <= k < |id| ==> IsIdChar(id[k])
  }

  /**
   * The conversation id in a path: the regular expression's first match is
   * at the first position where "/c/" is followed by an id character, and
   * its group is the longest run of id characters there. No match, no id.
   */
  function GetConversationId(path: string): (r: Option<string>)
    ensures r.None? <==> forall i :: !MatchAt(path, i)
    ensures r.Some? ==> IsId(r.value)
    ensures r.Some? ==> exists i: nat :: IdAt(path, i, r.value)
  {
    match FirstMatchFrom(path, 0)
    case None => None
    case Some(i) =>
      var id := path[i + 3..IdRunEnd(path, i + 3)];
      IdAtFirstMatch(path, i);
      Some(id)
  }

  /**
   * `id` is what the pattern captures when its first match is at `i`: the
   * match is the first one, and `id` is the whole run of id characters
   * after its "/c/".
   */
  predicate IdAt(path: string, i: nat, id: string) {
    && MatchAt(path, i) && (forall j :: 0 <= j < i ==> !MatchAt(path, j))
    && i + 3 + |id| <= |path| && path[i + 3..i + 3 + |id|] == id
    && (i + 3 + |id| == |path| || !IsIdChar(path[i + 3 + |id|]))
  }

  lemma IdAtFirstMatch(path: string, i: nat)
    requires FirstMatchFrom(path, 0) == Some(i)
    ensures var id := path[i + 3..IdRunEnd(path, i + 3)];
      IsId(id) && IdAt(path, i, id)
  {
    var e := IdRunEnd(path, i + 3);
    var id := path[i + 3..e];
    assert |id| == e - (i + 3) && path[i + 3..i + 3 + |id|] == id;
    assert forall k :: 0 <= k < |id| ==> id[k] == path[i + 3 + k];
  }

  /**
   * A path that starts with "/c/" and an id, followed by nothing or by a
   * character that cannot continue the id, yields that id.
   */
  lemma ConversationIdOfPath(id: string, rest: string)
    requires IsId(id) && (rest == [] || !IsIdChar(rest[0]))
    ensures GetConversationId("/c/" + id + rest) == Some(id)
  {
    var path := "/c/" + id + rest;
    assert path[0..3] == "/c/" && path[3] == id[0];
    assert MatchAt(path, 0);
    var r := GetConversationId(path).value;
    assert path[3..3 + |id|] == id;
    assert path[3 + |id|..] == rest;
  }

  /** A path without "/c/" anywhere has no conversation id. */
  lemma NoConversationIdWithoutMarker(path: string)
    requires forall i :: !OccursAt(path, "/c/", i)
    ensures GetConversationId(path) == None
  {
    forall i ensures !MatchAt(path, i) {
      if MatchAt(path, i) {
        assert OccursAt(path, "/c/", i);
      }
    }
  }

  // ---------------------------------------------------------------------
  // getConversationTitle
  // ---------------------------------------------------------------------

  const Untitled: string := "Untitled Chat"

  /** `title.replace(" | ChatGPT", "").replace("ChatGPT", "").trim()`. */
  function CleanDocumentTitle(docTitle: string): (r: string)
    ensures IsTrimmed(r)
  {
    Trim(RemoveFirst(RemoveFirst(docTitle, " | ChatGPT"), "ChatGPT"))
  }

  /**
   * The title: the active navigation item's trimmed text when there is a
   * non-blank one, else the cleaned document title, else "Untitled Chat".
   */
  function ConversationTitle(navText: Option<string>, docTitle: string): (r: string)
    ensures r != []
    ensures navText.Some? && Trim(navText.value) != [] ==> r == Trim(navText.value)
    ensures !(navText.Some? && Trim(navText.value) != []) ==>
      r == (if CleanDocumentTitle(docTitle) == [] then Untitled else CleanDocumentTitle(docTitle))
  {
    if navText.Some? && Trim(navText.value) != [] then Trim(navText.value)
    else if CleanDocumentTitle(docTitle) == [] then Untitled
    else CleanDocumentTitle(docTitle)
  }

  /** Every title the script computes is trimmed and non-empty. */
  lemma TitleIsTrimmedAndNonEmpty(navText: Option<string>, docTitle: string)
    ensures var t := ConversationTitle(navText, docTitle);
      t != [] && IsTrimmed(t)
  {
    var t := ConversationTitle(navText, docTitle);
    if navText.Some? && Trim(navText.value) != [] {
      assert t == Trim(navText.value);
    } else if CleanDocumentTitle(docTitle) == [] {
      assert t == Untitled;
      UntitledIsTrimmed();
    } else {
      assert t == CleanDocumentTitle(docTitle);
    }
  }

  lemma UntitledIsTrimmed()
    ensures Untitled != [] && IsTrimmed(Untitled)
  {
    assert |Untitled| == 13 && Untitled[0] == 'U' && Untitled[12] == 't';
  }

  /** The page title "ChatGPT" alone gives "Untitled Chat" when no nav item names the chat. */
  lemma BareBrandTitleIsUntitled()
    ensures ConversationTitle(None, "ChatGPT") == Untitled
  {
    assert OccursAt("ChatGPT", "ChatGPT", 0);
    assert IndexOf("ChatGPT", " | ChatGPT") == None;
    assert IndexOf("ChatGPT", "ChatGPT") == Some(0);
  }

  /** The brand suffix is cut from "Trip plan | ChatGPT". */
  lemma BrandSuffixRemoved()
    ensures ConversationTitle(Some(" \n"), "Trip plan | ChatGPT") == "Trip plan"
  {
    CutSuffix();
    NothingLeftToCut();
    assert Trim(" \n") == [];
  }

  lemma CutSuffix()
    ensures RemoveFirst("Trip plan | ChatGPT", " | ChatGPT") == "Trip plan"
  {
    var t := "Trip plan | ChatGPT";
    assert OccursAt(t, " | ChatGPT", 9);
    forall j | 0 <= j < 9 ensures !OccursAt(t, " | ChatGPT", j) {
      assert t[j..j + 10][1] == t[j + 1] != '|';
    }
    assert IndexOf(t, " | ChatGPT") == Some(9);
  }

  lemma NothingLeftToCut()
    ensures Trim(RemoveFirst("Trip plan", "ChatGPT")) == "Trip plan"
  {
    var u := "Trip plan";
    forall j | 0 <= j <= |u| ensures !OccursAt(u, "ChatGPT", j) {
      if j + 7 <= |u| {
        assert u[j..j + 7][0] == u[j] != 'C';
      }
    }
    assert RemoveFirst(u, "ChatGPT") == u;
    AlreadyTrimmed(u);
  }


  // ---------------------------------------------------------------------
  // parseMessages
  // ---------------------------------------------------------------------

  /**
   * An element carrying `data-message-author-role`: the attribute's value
   * (absent models null), the inner text of its `.markdown` or
   * `.whitespace-pre-wrap` descendant when it has one, and its own inner text.
   */
  datatype Element = Element(role: Option<string>, contentText: Option<string>, ownText: string)

  /** The content descendant's text when there is one, even if it is blank. */
  function ElementText(el: Element): string {
    match el.contentText
    case Some(t) => Trim(t)
    case None => Trim(el.ownText)
  }

  /** `role || "unknown"`. */
  function ElementRole(el: Element): (r: string)
    ensures r != []
    ensures el.role.Some? && el.role.value != [] ==> r == el.role.value
    ensures el.role.None? || el.role == Some([]) ==> r == "unknown"
  {
    match el.role
    case Some(r) => if r == [] then "unknown" else r
    case None => "unknown"
  }

  function HasText(el: Element): bool {
    ElementText(el) != []
  }

  function ToMessage(el: Element): Message {
    Message(ElementRole(el), ElementText(el))
  }

  /** The messages of the elements in document order. */
  function ParseSpec(els: seq<Element>): (r: seq<Message>)
    ensures |r| <= |els|
  {
    PushEach(els, HasText, ToMessage)
  }

  /**
   * Parsing keeps exactly the elements with non-blank text, in document
   * order, and turns each into its message.
   */
  lemma ParseIsFilterThenMap(els: seq<Element>)
    ensures ParseSpec(els) == Map(Filter(els, HasText), ToMessage)
  {
    PushEachIsFilterMap(els, HasText, ToMessage);
  }

  /** Every parsed message has a non-empty role and non-empty, trimmed content. */
  lemma ParsedMessagesAreNonBlank(els: seq<Element>)
    ensures forall m :: m in ParseSpec(els) ==> m.role != [] && m.content != [] && IsTrimmed(m.content)
  {
    PushEachSound(els, HasText, ToMessage);
    forall m | m in ParseSpec(els) ensures m.role != [] && m.content != [] && IsTrimmed(m.content) {
      var el :| el in els && HasText(el) && m == ToMessage(el);
    }
  }

  /** Parsing two runs of elements is parsing each and concatenating. */
  lemma ParseAppend(a: seq<Element>, b: seq<Element>)
    ensures ParseSpec(a + b) == ParseSpec(a) + ParseSpec(b)
  {
    PushEachAppend(a, b, HasText, ToMessage);
  }

  /** parseMessages with its forEach loop. */
  method ParseMessages(els: seq<Element>) returns (messages: seq<Message>)
    ensures messages == ParseSpec(els)
  {
    messages := [];
    var i := 0;
    while i < |els|
      invariant 0 <= i <= |els|
      invariant messages == ParseSpec(els[..i])
    {
      var el := els[i];
      assert els[..i + 1][..i] == els[..i];
      var text := ElementText(el);
      if text != [] {
        messages := messages + [Message(ElementRole(el), text)];
      }
      i := i + 1;
    }
    assert els[..i] == els;
  }

  // ---------------------------------------------------------------------
  // scrapeSidebar
  // ---------------------------------------------------------------------

  /** A sidebar anchor: its `href` attribute and the text of its title element. */
  datatype Link = Link(href: string, text: string)

  const SiteOrigin: string := "https://chatgpt.com"

  /** The link matches `nav a[href^="/c/"]` and its href carries an id. */
  function IsConversationLink(l: Link): bool {
    StartsWith(l.href, "/c/") && GetConversationId(l.href).Some?
  }

  /** The stub a matching link yields: no messages, never saved, from the sidebar. */
  function Stub(now: int): Link -> Conversation {
    (l: Link) => Conversation(GetConversationId(l.href).GetOr([]),
                              if Trim(l.text) == [] then Untitled else Trim(l.text),
                              SiteOrigin + l.href, [], Some(0), now, None, true)
  }

  /** The stubs of the links, in document order. */
  function StubsSpec(links: seq<Link>, now: int): (r: seq<Conversation>)
    ensures |r| <= |links|
  {
    PushEach(links, IsConversationLink, Stub(now))
  }

  /**
   * There is one stub per matching link, in order: its id is the href's id,
   * its title the trimmed text or "Untitled Chat", its url the site origin
   * and the href, and it has no messages and a zero message count.
   */
  lemma StubsMatchLinks(links: seq<Link>, now: int)
    ensures var kept := Filter(links, IsConversationLink);
      var stubs := StubsSpec(links, now);
      && |stubs| == |kept|
      && (forall i :: 0 <= i < |kept| ==> IsConversationLink(kept[i]))
      && forall i :: 0 <= i < |stubs| ==>
        && stubs[i].id == GetConversationId(kept[i].href).value
        && stubs[i].title == (if Trim(kept[i].text) == [] then Untitled else Trim(kept[i].text))
        && stubs[i].url == SiteOrigin + kept[i].href
        && stubs[i].messages == [] && stubs[i].messageCount == Some(0)
        && stubs[i].firstSaved == None && stubs[i].fromSidebar && stubs[i].lastUpdated == now
  {
    var kept := Filter(links, IsConversationLink);
    PushEachIsFilterMap(links, IsConversationLink, Stub(now));
    FilterSound(links, IsConversationLink);
    assert forall i :: 0 <= i < |kept| ==> kept[i] in kept;
  }

  /** Every stub has a well-formed id, a non-empty title and no messages. */
  lemma StubsAreNamed(links: seq<Link>, now: int)
    ensures forall c :: c in StubsSpec(links, now) ==> IsId(c.id) && c.title != [] && c.messages == []
  {
    PushEachSound(links, IsConversationLink, Stub(now));
    forall c | c in StubsSpec(links, now) ensures IsId(c.id) && c.title != [] && c.messages == [] {
      var l :| l in links && IsConversationLink(l) && c == Stub(now)(l);
    }
  }

  // ---------------------------------------------------------------------
  // saveConversation's change detection
  // ---------------------------------------------------------------------

  /** What the script reads from the page when a save or a scrape runs. */
  datatype Page = Page(
    pathname: string,
    href: string,
    navText: Option<string>,
    docTitle: string,
    elements: seq<Element>,
    links: seq<Link>)

  /**
   * The record a save would send, if any: a page without a conversation id
   * or without messages sends nothing, and so does a page whose messages are
   * those last sent (`last` is None in the initial and reset state, the
   * empty string of the script).
   */
  function PendingSave(last: Option<seq<Message>>, page: Page, now: int): (r: Option<Conversation>)
    ensures r.Some? <==>
      GetConversationId(page.pathname).Some? && ParseSpec(page.elements) != []
      && last != Some(ParseSpec(page.elements))
  {
    var id := GetConversationId(page.pathname);
    var messages := ParseSpec(page.elements);
    if id.None? || messages == [] || last == Some(messages) then None
    else Some(Conversation(id.value, ConversationTitle(page.navText, page.docTitle), page.href,
                           messages, Some(|messages|), now, None, false))
  }

  /** The change-detection state after a save attempt. */
  function LastAfter(last: Option<seq<Message>>, page: Page, now: int): (r: Option<seq<Message>>)
    ensures PendingSave(last, page, now).None? ==> r == last
    ensures PendingSave(last, page, now).Some? ==> r == Some(PendingSave(last, page, now).value.messages)
  {
    if PendingSave(last, page, now).Some? then Some(ParseSpec(page.elements)) else last
  }

  /**
   * The record sent carries the page's id, title and location, its messages
   * with their count, and no `firstSaved`.
   */
  lemma SentRecordShape(last: Option<seq<Message>>, page: Page, now: int)
    requires PendingSave(last, page, now).Some?
    ensures var c := PendingSave(last, page, now).value;
      && Some(c.id) == GetConversationId(page.pathname) && IsId(c.id)
      && c.title == ConversationTitle(page.navText, page.docTitle) && c.title != []
      && c.url == page.href && c.messages == ParseSpec(page.elements) && c.messages != []
      && c.messageCount == Some(|c.messages|) && c.firstSaved == None && !c.fromSidebar
      && c.lastUpdated == now
  {
  }

  /** Saving an unchanged page twice sends at most once: the second attempt sends nothing. */
  lemma SaveTwiceSendsOnce(last: Option<seq<Message>>, page: Page, t1: int, t2: int)
    ensures PendingSave(LastAfter(last, page, t1), page, t2).None?
    ensures LastAfter(LastAfter(last, page, t1), page, t2) == LastAfter(last, page, t1)
  {
  }

  /** Whatever was sent before, a reset state sends any page that has an id and messages. */
  lemma ResetForcesSave(page: Page, now: int)
    requires GetConversationId(page.pathname).Some? && ParseSpec(page.elements) != []
    ensures PendingSave(None, page, now).Some?
  {
  }

  // ---------------------------------------------------------------------
  // The script's module-level state
  // ---------------------------------------------------------------------

  /**
   * The content script: the last messages sent (`lastSavedContent`), the
   * location last seen by the URL observer (`currentUrl`), and the messages
   * sent to the background worker so far.
   */
  class ContentScript {
    var lastSavedContent: Option<seq<Message>>
    var currentUrl: string
    var outbox: seq<Command>

    /** The script as loaded on a page at `href`. */
    constructor(href: string)
      ensures lastSavedContent == None && currentUrl == href && outbox == []
    {
      lastSavedContent := None;
      currentUrl := href;
      outbox := [];
    }

    /** saveConversation: one tick of the periodic save. */
    method SaveConversation(page: Page, now: int)
      modifies this
      ensures var sent := PendingSave(old(lastSavedContent), page, now);
        && outbox == old(outbox) + (if sent.Some? then [Records.SaveConversation(sent.value)] else [])
        && lastSavedContent == LastAfter(old(lastSavedContent), page, now)
      ensures currentUrl == old(currentUrl)
    {
      var conversationId := GetConversationId(page.pathname);
      if conversationId.None? {
        return;
      }
      var messages := ParseMessages(page.elements);
      if messages == [] {
        return;
      }
      if lastSavedContent == Some(messages) {
        return;
      }
      lastSavedContent := Some(messages);
      var conversation := Conversation(conversationId.value, ConversationTitle(page.navText, page.docTitle),
                                       page.href, messages, Some(|messages|), now, None, false);
      outbox := outbox + [Records.SaveConversation(conversation)];
    }

    /** The URL observer's callback: a new location resets change detection. */
    method OnMutation(href: string)
      modifies this
      ensures currentUrl == href && outbox == old(outbox)
      ensures lastSavedContent == if href != old(currentUrl) then None else old(lastSavedContent)
    {
      if href != currentUrl {
        currentUrl := href;
        lastSavedContent := None;
      }
    }

    /** scrapeSidebar: send the stubs of the sidebar's conversation links, if there are any. */
    method ScrapeSidebar(links: seq<Link>, now: int)
      modifies this
      ensures var stubs := StubsSpec(links, now);
        outbox == old(outbox) + (if stubs == [] then [] else [SaveSidebarConversations(stubs)])
      ensures lastSavedContent == old(lastSavedContent) && currentUrl == old(currentUrl)
    {
      var conversations: seq<Conversation> := [];
      var i := 0;
      while i < |links|
        invariant 0 <= i <= |links|
        invariant conversations == StubsSpec(links[..i], now)
      {
        var link := links[i];
        assert links[..i + 1][..i] == links[..i];
        var id := GetConversationId(link.href);
        if StartsWith(link.href, "/c/") && id.Some? {
          var trimmed := Trim(link.text);
          var title := if trimmed == [] then Untitled else trimmed;
          conversations := conversations + [Conversation(id.value, title, SiteOrigin + link.href, [], Some(0), now, None, true)];
        }
        i := i + 1;
      }
      assert links[..i] == links;
      if conversations != [] {
        outbox := outbox + [SaveSidebarConversations(conversations)];
      }
    }
  }

  /**
   * On an unchanged page the periodic save sends once; after a navigation
   * to a new location and back the same messages are sent again.
   */
  method SaveAcrossNavigation(page: Page, other: string, t1: int, t2: int, t3: int)
    returns (sent: seq<Command>)
    requires GetConversationId(page.pathname).Some? && ParseSpec(page.elements) != []
    requires other != page.href
    ensures |sent| == 2
    ensures sent[0] == SaveConversation(PendingSave(None, page, t1).value)
    ensures sent[1] == SaveConversation(PendingSave(None, page, t3).value)
  {
    var script := new ContentScript(page.href);
    script.SaveConversation(page, t1);
    script.SaveConversation(page, t2);
    script.OnMutation(other);
    script.OnMutation(page.href);
    script.SaveConversation(page, t3);
    sent := script.outbox;
  }
}
