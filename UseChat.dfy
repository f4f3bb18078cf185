/**
 * openweb-ui-frontend/src/state/useChat.ts: the chat store of the web front
 * end.  It holds the conversations, the active conversation's id and the
 * text of the reply being streamed; its actions replace those fields with
 * values computed by map and filter.
 *
 * Date.now() and new Date() are parameters of createConversation.  The
 * persistence middleware is reduced to partialize, which picks what is
 * stored.
 */
module UseChat {
  import opened Common

  datatype Role = User | Assistant | System

  datatype Message = Message(role: Role, content: string)

  datatype Conversation = Conversation(id: string, title: string, messages: seq<Message>, createdAt: int)

  datatype Model = Model(id: string, ownedBy: string)

  /** What partialize hands to storage. */
  datatype Persisted = Persisted(conversations: seq<Conversation>, activeConversationId: Option<string>)

  const NEW_CHAT := "New Chat"
  const TITLE_LEN := 50

  /** `!id` of JavaScript: null and the empty string are both false. */
  predicate IsActive(id: Option<string>) {
    id.Some? && id.value != ""
  }

  /** The title a first user message gives: its first 50 characters, with
      "..." added when it is longer. */
  function TitleOf(content: string): (t: string)
    ensures |content| <= TITLE_LEN ==> t == content
    ensures |content| > TITLE_LEN ==> t == content[..TITLE_LEN] + "..."
  {
    SliceTo(content, TITLE_LEN) + (if |content| > TITLE_LEN then "..." else "")
  }

  /** What addMessage makes of one conversation. */
  function WithMessage(c: Conversation, m: Message): Conversation {
    c.(messages := c.messages + [m],
       title := if c.messages == [] && m.role == User then TitleOf(m.content) else c.title)
  }

  /** The conversations after addMessage: every conversation with the active
      id gets the message, the others are left as they are. */
  function AddedTo(cs: seq<Conversation>, active: string, m: Message): (r: seq<Conversation>)
    ensures |r| == |cs|
    ensures forall k :: 0 <= k < |cs| ==> r[k] == if cs[k].id == active then WithMessage(cs[k], m) else cs[k]
  {
    seq(|cs|, k requires 0 <= k < |cs| => if cs[k].id == active then WithMessage(cs[k], m) else cs[k])
  }

  /** The conversations after finalizeStreamingMessage: every conversation
      with the active id gets one assistant message holding the text. */
  function Finalized(cs: seq<Conversation>, active: string, text: string): (r: seq<Conversation>)
    ensures |r| == |cs|
    ensures forall k :: 0 <= k < |cs| ==>
      r[k].id == cs[k].id && r[k].title == cs[k].title && r[k].createdAt == cs[k].createdAt
    ensures forall k :: 0 <= k < |cs| ==>
      r[k].messages == cs[k].messages + (if cs[k].id == active then [Message(Assistant, text)] else [])
    ensures forall k :: 0 <= k < |cs| && cs[k].id != active ==> r[k] == cs[k]
  {
    seq(|cs|, k requires 0 <= k < |cs| =>
      if cs[k].id == active then cs[k].(messages := cs[k].messages + [Message(Assistant, text)]) else cs[k])
  }

  /** The conversations after deleteConversation: those with another id, in
      their order. */
  function Without(cs: seq<Conversation>, id: string): (r: seq<Conversation>) {
    if cs == [] then []
    else if cs[0].id == id then Without(cs[1..], id)
    else [cs[0]] + Without(cs[1..], id)
  }

  // ---------------------------------------------------------------------
  // Properties of the actions' computations

  /** addMessage appends the message to the active conversation, keeps its
      id and creation time, and sets the title only for a first user
      message; every other conversation is unchanged. */
  lemma AddMessageSpec(cs: seq<Conversation>, active: string, m: Message, k: nat)
    requires k < |cs|
    ensures var r := AddedTo(cs, active, m)[k];
      && (cs[k].id != active ==> r == cs[k])
      && (cs[k].id == active ==>
            && r.id == cs[k].id && r.createdAt == cs[k].createdAt
            && r.messages == cs[k].messages + [m]
            && r.title == (if cs[k].messages == [] && m.role == User then TitleOf(m.content) else cs[k].title))
  {
  }

  /** A title is never longer than 53 characters, and it starts with the
      message (all of it when it is short). */
  lemma TitleBound(content: string)
    ensures |TitleOf(content)| <= TITLE_LEN + 3
    ensures |content| <= TITLE_LEN ==> TitleOf(content) == content
    ensures |content| > TITLE_LEN ==> StartsWith(content, TitleOf(content)[..TITLE_LEN])
  {
  }

  /** No conversation with the deleted id is left, every other one is, and
      the ones left keep their order. */
  lemma {:induction false} WithoutSpec(cs: seq<Conversation>, id: string)
    ensures forall k :: 0 <= k < |Without(cs, id)| ==> Without(cs, id)[k].id != id
    ensures forall c :: c in cs && c.id != id ==> c in Without(cs, id)
    ensures forall c :: c in Without(cs, id) ==> c in cs
    ensures |Without(cs, id)| <= |cs|
  {
    if cs != [] {
      WithoutSpec(cs[1..], id);
      assert forall c :: c in cs ==> c == cs[0] || c in cs[1..];
    }
  }

  /** Deleting an id no conversation has changes nothing. */
  lemma {:induction false} WithoutAbsent(cs: seq<Conversation>, id: string)
    requires forall k :: 0 <= k < |cs| ==> cs[k].id != id
    ensures Without(cs, id) == cs
  {
    if cs != [] {
      WithoutAbsent(cs[1..], id);
      assert [cs[0]] + cs[1..] == cs;
    }
  }

  /** Creating a conversation with a fresh id and deleting it again gives
      back the conversations there were. */
  lemma CreateThenDelete(cs: seq<Conversation>, id: string, at: int)
    requires forall k :: 0 <= k < |cs| ==> cs[k].id != id
    ensures Without([Conversation(id, NEW_CHAT, [], at)] + cs, id) == cs
  {
    var all := [Conversation(id, NEW_CHAT, [], at)] + cs;
    assert all[1..] == cs;
    WithoutAbsent(cs, id);
  }

  class ChatStore {
    var conversations: seq<Conversation>
    var activeConversationId: Option<string>
    var models: seq<Model>
    var isLoading: bool
    var error: Option<string>
    var streamingMessage: string
    var isStreaming: bool

    /** defaultState. */
    predicate IsDefault()
      reads this
    {
      && conversations == [] && activeConversationId == None && models == []
      && !isLoading && error == None && streamingMessage == "" && !isStreaming
    }

    constructor ()
      ensures IsDefault()
    {
      conversations, activeConversationId, models := [], None, [];
      isLoading, error, streamingMessage, isStreaming := false, None, "", false;
    }

    /** partialize: only the conversations and the active id are stored. */
    function Partialize(): (p: Persisted)
      reads this
      ensures p.conversations == conversations && p.activeConversationId == activeConversationId
    {
      Persisted(conversations, activeConversationId)
    }

    method SetActiveConversation(id: string)
      modifies this`activeConversationId
      ensures activeConversationId == Some(id)
    {
      activeConversationId := Some(id);
    }

    /** createConversation: a new empty "New Chat" in front of the others,
      made active. */
    method CreateConversation(now: string, at: int)
      modifies this`conversations, this`activeConversationId
      ensures conversations == [Conversation(now, NEW_CHAT, [], at)] + old(conversations)
      ensures conversations[1..] == old(conversations)
      ensures activeConversationId == Some(now)
    {
      var c := Conversation(now, NEW_CHAT, [], at);
      conversations := [c] + conversations;
      activeConversationId := Some(c.id);
    }

    /** addMessage: nothing without an active conversation. */
    method AddMessage(m: Message)
      modifies this`conversations
      ensures !IsActive(old(activeConversationId)) ==> conversations == old(conversations)
      ensures IsActive(old(activeConversationId)) ==>
        conversations == AddedTo(old(conversations), activeConversationId.value, m)
    {
      if !IsActive(activeConversationId) {
        return;
      }
      conversations := AddedTo(conversations, activeConversationId.value, m);
    }

    /** updateStreamingMessage: the buffer is replaced, not extended. */
    method UpdateStreamingMessage(content: string)
      modifies this`streamingMessage, this`isStreaming
      ensures streamingMessage == content && isStreaming
    {
      streamingMessage, isStreaming := content, true;
    }

    /** finalizeStreamingMessage: the streamed text becomes one assistant
        message of the active conversation, and the buffer is emptied.  With
        no active conversation or an empty buffer, nothing changes. */
    method FinalizeStreamingMessage()
      modifies this`conversations, this`streamingMessage, this`isStreaming
      ensures !IsActive(old(activeConversationId)) || old(streamingMessage) == "" ==>
        conversations == old(conversations) && streamingMessage == old(streamingMessage)
        && isStreaming == old(isStreaming)
      ensures IsActive(old(activeConversationId)) && old(streamingMessage) != "" ==>
        && conversations == Finalized(old(conversations), old(activeConversationId).value, old(streamingMessage))
        && streamingMessage == "" && !isStreaming
    {
      if !IsActive(activeConversationId) || streamingMessage == "" {
        return;
      }
      conversations := Finalized(conversations, activeConversationId.value, streamingMessage);
      streamingMessage, isStreaming := "", false;
    }

    method SetModels(ms: seq<Model>)
      modifies this`models
      ensures models == ms
    {
      models := ms;
    }

    method SetLoading(loading: bool)
      modifies this`isLoading
      ensures isLoading == loading
    {
      isLoading := loading;
    }

    method SetError(e: Option<string>)
      modifies this`error
      ensures error == e
    {
      error := e;
    }

    /** deleteConversation: every conversation with that id goes, and the
        active id is cleared exactly when it was that id. */
    method DeleteConversation(id: string)
      modifies this`conversations, this`activeConversationId
      ensures conversations == Without(old(conversations), id)
      ensures activeConversationId == if old(activeConversationId) == Some(id) then None else old(activeConversationId)
    {
      var kept: seq<Conversation> := [];
      var i := 0;
      while i < |conversations|
        invariant i <= |conversations|
        invariant kept + Without(conversations[i..], id) == Without(conversations, id)
      {
        assert conversations[i..][1..] == conversations[i + 1..];
        if conversations[i].id != id {
          kept := kept + [conversations[i]];
        }
        i := i + 1;
      }
      conversations := kept;
      if activeConversationId == Some(id) {
        activeConversationId := None;
      }
    }

    /** clearConversations: back to defaultState. */
    method ClearConversations()
      modifies this
      ensures IsDefault()
    {
      conversations, activeConversationId, models := [], None, [];
      isLoading, error, streamingMessage, isStreaming := false, None, "", false;
    }
  }
}
