/**
 * seedai_reasoner.py: the Reasoner's turn pipeline.  A turn maps its thread
 * to a conversation, queues the URLs it mentions, prescans the emotion, asks
 * memory first, and consults the language model only with permission; every
 * reply is toned with the emotion's emoji.
 *
 * The memory, the language model, the clock and the random choice of a
 * comfort phrase are collaborators given as parameters.  The memory is the
 * record MemoryApi, whose optional members stand for methods the memory
 * object may lack; the language model is a function from prompt to reply or
 * exception.
 */
module Reasoner {
  import opened Common
  import opened Emotion

  const NEED_TOPIC := "I need a topic to think about."
  const NOT_SURE := "I'm not sure yet, " + "but I'm still learning about that."
  const ERROR_REPLY := "I encountered an error processing your request."
  const FALLBACK_REPLY := "I need permission to consult the model or more info to answer."
  const PUNCT := ".,!?\"'()[]"
  const MAX_FACTS := 3
  const HEAVY: seq<string> := ["sad", "confused", "fearful", "frustrated"]

  /** llm.ask: the reply to a prompt ("" for a falsy reply), or the exception. */
  type Llm = string -> Result<string>

  /** What the Reasoner uses of its memory object. */
  datatype MemoryApi = MemoryApi(
    knows: string -> bool,                              // knows_word
    related: Option<string -> seq<string>>,             // get_related_beliefs, if the memory has it
    respond: Option<(string, seq<string>) -> string>,   // generate_response, if the memory has it
    emotionalState: Option<string>,                     // get_emotional_state(), if the memory has it
    conversation: string -> Option<Json>,               // get_conversation_memory
    emotions: Obj,                                      // memory.emotions
    canUpdateEmotion: bool,                             // whether update_emotion exists
    beliefsRepr: string,                                // str(get_recent_beliefs()), "" when empty
    hasQueueLearn: bool)                                // whether queue_learn exists

  /** The memory the Reasoner actually constructs, SQLiteMemory: an empty
      emotions dict and none of the optional methods. */
  predicate IsSqliteMemory(api: MemoryApi) {
    api.related.None? && api.respond.None? && api.emotionalState.None?
    && api.emotions == map[] && !api.canUpdateEmotion && !api.hasQueueLearn
  }

  datatype Phase = Family | MemoryHit | Rag | Llm | Fallback | Failed

  // ---------------------------------------------------------------------
  // extract_words

  predicate IsPunct(c: char) {
    c in PUNCT
  }

  /** text.strip().lower().split(), each word stripped of .,!?"'()[] at
      both ends. */
  function ExtractWords(text: string): (r: seq<string>)
    ensures |r| == |SplitWs(Lower(PyStrip(text)))|
  {
    var words := SplitWs(Lower(PyStrip(text)));
    seq(|words|, i requires 0 <= i < |words| => Trim(words[i], IsPunct))
  }

  /** Stripping punctuation keeps a slice of the word with no punctuation
      at either end and no whitespace when the word had none. */
  lemma StripPunct(w: string)
    ensures var r := Trim(w, IsPunct);
      var a := |w| - |TrimStart(w, IsPunct)|;
      a + |r| <= |w| && r == w[a..a + |r|]
      && (r != [] ==> !IsPunct(r[0]) && !IsPunct(r[|r| - 1]))
      && (NoSpace(w) ==> NoSpace(r))
  {
    var r := Trim(w, IsPunct);
    var a := |w| - |TrimStart(w, IsPunct)|;
    TrimEnds(w, IsPunct);
    if NoSpace(w) {
      forall j | 0 <= j < |r|
        ensures !PyIsSpace(r[j])
      {
        assert r[j] == w[a + j];
      }
    }
  }

  predicate NoSpace(s: string) {
    forall j :: 0 <= j < |s| ==> !PyIsSpace(s[j])
  }

  /** One entry per whitespace-separated word, in order: each is that word
      with the punctuation at its ends stripped, a slice of it with no
      punctuation at either end and no whitespace. */
  lemma ExtractWordsSpec(text: string, i: nat)
    requires i < |ExtractWords(text)|
    ensures var w := SplitWs(Lower(PyStrip(text)))[i];
      var r := ExtractWords(text)[i];
      var a := |w| - |TrimStart(w, IsPunct)|;
      a + |r| <= |w| && r == w[a..a + |r|]
      && (r != [] ==> !IsPunct(r[0]) && !IsPunct(r[|r| - 1]))
      && NoSpace(r)
  {
    var words := SplitWs(Lower(PyStrip(text)));
    assert ExtractWords(text)[i] == Trim(words[i], IsPunct);
    assert NoSpace(words[i]);
    StripPunct(words[i]);
  }

  /** A word already free of punctuation at its ends is kept as it is. */
  lemma ExtractKeepsCleanWords(text: string, i: nat)
    requires i < |ExtractWords(text)|
    requires var w := SplitWs(Lower(PyStrip(text)))[i]; !IsPunct(w[0]) && !IsPunct(w[|w| - 1])
    ensures ExtractWords(text)[i] == SplitWs(Lower(PyStrip(text)))[i]
  {
    TrimNoSpaceEnds(SplitWs(Lower(PyStrip(text)))[i], IsPunct);
  }

  // ---------------------------------------------------------------------
  // _map_thread_to_conversation

  /** The mapping after the call and the id returned; stamp is
      str(int(time.time())). */
  function Mapped(m: map<string, string>, thread: string, stamp: string): (map<string, string>, string) {
    if thread in m then (m, m[thread])
    else
      var id := "conv_" + thread + "_" + stamp;
      (m[thread := id], id)
  }

  /** Once a thread has an id, every later call returns that id and leaves
      the mapping alone, whatever the clock says. */
  lemma MappedStable(m: map<string, string>, thread: string, s1: string, s2: string)
    ensures var (m1, id1) := Mapped(m, thread, s1);
      thread in m1 && m1[thread] == id1 && Mapped(m1, thread, s2) == (m1, id1)
  {
  }

  /** Mapping one thread changes no other thread's id. */
  lemma MappedOthers(m: map<string, string>, thread: string, stamp: string, other: string)
    requires other != thread
    ensures (other in Mapped(m, thread, stamp).0) == (other in m)
    ensures other in m ==> Mapped(m, thread, stamp).0[other] == m[other]
  {
  }

  // ---------------------------------------------------------------------
  // _detect_and_enqueue_urls: re.findall(r'https?://\S+', text)

  /** The length of a match at the start of s. */
  function UrlMatch(s: string): (r: Option<nat>)
    ensures r.Some? ==> 8 <= r.value <= |s|
  {
    if StartsWith(s, "https://") && WordLen(s[8..]) >= 1 then Some(8 + WordLen(s[8..]))
    else if StartsWith(s, "http://") && WordLen(s[7..]) >= 1 then Some(7 + WordLen(s[7..]))
    else None
  }

  /** The matches, left to right, not overlapping: each takes at least eight
      characters of the text. */
  function FindUrls(s: string): (r: seq<string>)
    ensures 8 * |r| <= |s|
    decreases |s|
  {
    if s == [] then []
    else match UrlMatch(s)
      case Some(n) => [s[..n]] + FindUrls(s[n..])
      case None => FindUrls(s[1..])
  }

  /** What the pattern matches as a whole: a scheme, "://" and at least one
      character, none of them whitespace. */
  predicate IsUrl(u: string) {
    ((StartsWith(u, "https://") && |u| > 8) || (StartsWith(u, "http://") && |u| > 7))
    && NoSpace(u)
  }

  lemma UrlMatchIsUrl(s: string)
    requires UrlMatch(s).Some?
    ensures IsUrl(s[..UrlMatch(s).value])
  {
    var n := UrlMatch(s).value;
    var u := s[..n];
    if StartsWith(s, "https://") && WordLen(s[8..]) >= 1 {
      SchemeThenWord(s, "https://");
      assert u[..8] == s[..8];
    } else {
      SchemeThenWord(s, "http://");
      assert u[..7] == s[..7];
    }
    assert forall j :: 0 <= j < |u| ==> u[j] == s[j];
  }

  /** A scheme without whitespace followed by a word has none either. */
  lemma SchemeThenWord(s: string, p: string)
    requires StartsWith(s, p) && (p == "https://" || p == "http://")
    ensures forall j :: 0 <= j < |p| + WordLen(s[|p|..]) ==> !PyIsSpace(s[j])
  {
    forall j | 0 <= j < |p| + WordLen(s[|p|..])
      ensures !PyIsSpace(s[j])
    {
      if j < |p| {
        assert s[j] == p[j];
      } else {
        assert s[j] == s[|p|..][j - |p|];
      }
    }
  }

  /** Every URL found is a URL in the pattern's sense. */
  lemma {:induction false} FindUrlsAreUrls(s: string)
    ensures forall k :: 0 <= k < |FindUrls(s)| ==> IsUrl(FindUrls(s)[k])
    decreases |s|
  {
    if s != [] {
      match UrlMatch(s)
      case Some(n) =>
        UrlMatchIsUrl(s);
        FindUrlsAreUrls(s[n..]);
      case None =>
        FindUrlsAreUrls(s[1..]);
    }
  }

  lemma {:induction false} WordLenOf(w: string, rest: string)
    requires NoSpace(w)
    requires rest != [] ==> PyIsSpace(rest[0])
    ensures WordLen(w + rest) == |w|
  {
    if w != [] {
      assert (w + rest)[1..] == w[1..] + rest;
      assert NoSpace(w[1..]) by {
        forall j | 0 <= j < |w[1..]|
          ensures !PyIsSpace(w[1..][j])
        {
          assert w[1..][j] == w[j + 1];
        }
      }
      WordLenOf(w[1..], rest);
    }
  }

  lemma NoSpaceSuffix(u: string, p: nat)
    requires p <= |u| && NoSpace(u)
    ensures NoSpace(u[p..])
  {
    forall j | 0 <= j < |u[p..]|
      ensures !PyIsSpace(u[p..][j])
    {
      assert u[p..][j] == u[p + j];
    }
  }

  lemma ConcatSplit(u: string, rest: string, p: nat)
    requires p <= |u|
    ensures (u + rest)[..p] == u[..p] && (u + rest)[p..] == u[p..] + rest
  {
  }

  lemma UrlMatchOf(u: string, rest: string)
    requires IsUrl(u)
    requires rest != [] ==> PyIsSpace(rest[0])
    ensures UrlMatch(u + rest) == Some(|u|)
  {
    var s := u + rest;
    if StartsWith(u, "https://") {
      ConcatSplit(u, rest, 8);
      NoSpaceSuffix(u, 8);
      WordLenOf(u[8..], rest);
      assert StartsWith(s, "https://");
    } else {
      ConcatSplit(u, rest, 7);
      NoSpaceSuffix(u, 7);
      WordLenOf(u[7..], rest);
      assert StartsWith(s, "http://");
      assert s[4] == u[4];
      assert !StartsWith(s, "https://") by {
        assert s[4] == ':';
      }
    }
  }

  lemma SpaceNoUrl(rest: string)
    ensures FindUrls(" " + rest) == FindUrls(rest)
  {
    var s := " " + rest;
    assert !StartsWith(s, "https://") && !StartsWith(s, "http://") by {
      assert s[0] == ' ';
    }
    assert s[1..] == rest;
  }

  lemma UrlThenRest(u: string, rest: string)
    requires IsUrl(u)
    requires rest != [] ==> PyIsSpace(rest[0])
    ensures FindUrls(u + rest) == [u] + FindUrls(rest)
  {
    UrlMatchOf(u, rest);
    ConcatSplit(u, rest, |u|);
    assert u[..|u|] == u && u[|u|..] == [];
    assert [] + rest == rest;
  }

  /** URLs written out with single spaces between them are found again, in
      order. */
  lemma {:induction false} FindUrlsJoin(urls: seq<string>)
    requires forall k :: 0 <= k < |urls| ==> IsUrl(urls[k])
    ensures FindUrls(Join(urls, " ")) == urls
  {
    if |urls| == 1 {
      UrlThenRest(urls[0], "");
      assert urls[0] + "" == urls[0];
    } else if |urls| > 1 {
      var u, rest := urls[0], Join(urls[1..], " ");
      assert u + " " + rest == u + (" " + rest);
      UrlThenRest(u, " " + rest);
      SpaceNoUrl(rest);
      FindUrlsJoin(urls[1..]);
      assert [u] + urls[1..] == urls;
    }
  }

  // ---------------------------------------------------------------------
  // reflect_from_memory and _memory_lookup

  /** The response for each known word with related beliefs, in word order,
      or the exception a missing memory method raises. */
  function KnownResponses(words: seq<string>, api: MemoryApi): (r: Result<seq<string>>)
    ensures r.Err? ==> r.error == "AttributeError"
    ensures r.Ok? ==> |r.value| <= |words|
  {
    if words == [] then Ok([])
    else
      var w := words[0];
      var head: Result<seq<string>> :=
        if !api.knows(w) then Ok([])
        else if api.related.None? then Err("AttributeError")
        else
          var facts := api.related.value(w);
          if facts == [] then Ok([])
          else if api.respond.None? then Err("AttributeError")
          else Ok([api.respond.value(w, SliceTo(facts, MAX_FACTS))
                   + (if |facts| > MAX_FACTS then "\n...and more about '" + w + "' in memory." else "")]);
      if head.Err? then head
      else match KnownResponses(words[1..], api)
        case Err(e) => Err(e)
        case Ok(rest) => Ok(head.value + rest)
  }

  /** Words that are all unknown give no responses, and no memory method
      beyond knows_word is called. */
  lemma {:induction false} NoKnownWords(words: seq<string>, api: MemoryApi)
    requires forall k :: 0 <= k < |words| ==> !api.knows(words[k])
    ensures KnownResponses(words, api) == Ok([])
  {
    if words != [] {
      NoKnownWords(words[1..], api);
      var none: seq<string> := [];
      assert none + none == none;
    }
  }

  /** A memory without get_related_beliefs raises on the first known word. */
  lemma {:induction false} KnownWordWithoutRelated(words: seq<string>, api: MemoryApi, i: nat)
    requires api.related.None? && i < |words| && api.knows(words[i])
    ensures KnownResponses(words, api) == Err("AttributeError")
  {
    if !api.knows(words[0]) {
      KnownWordWithoutRelated(words[1..], api, i - 1);
    }
  }

  function VoicePrompt(emotion: string, emoji: string, summary: string): string {
    "Speak to the user in a short, natural, emotionally expressive way. "
    + "The emotion to express is '" + emotion + "' " + emoji + ". "
    + "Here is what you should say, in your own words: " + summary + ". Make the response sound like a human is talking."
  }

  /** The first line of every response, joined by spaces. */
  function Summary(rs: seq<string>): string {
    Join(seq(|rs|, i requires 0 <= i < |rs| => SplitOn(rs[i], '\n')[0]), " ")
  }

  /** The emoji of an emotion, as adjust_response_tone puts it in front of
      an empty sentence. */
  function EmojiOf(emotion: string): string {
    PyStrip(SliceTo(AdjustResponseTone(emotion, [""]), 2))
  }

  /** reflect_from_memory. */
  function ReflectFromMemory(input: string, api: MemoryApi, ask: Llm): (r: Result<string>)
    ensures r.Err? ==> r.error == "AttributeError"
    ensures KnownResponses(ExtractWords(input), api) == Ok([]) ==> r == Ok(NOT_SURE)
    ensures KnownResponses(ExtractWords(input), api).Err? ==> r.Err?
  {
    match KnownResponses(ExtractWords(input), api)
    case Err(e) => Err(e)
    case Ok(rs) =>
      if rs == [] then Ok(NOT_SURE)
      else if api.emotionalState.None? then Err("AttributeError")
      else
        var emotion := api.emotionalState.value;
        var summary := Summary(rs);
        match ask(VoicePrompt(emotion, EmojiOf(emotion), summary))
        case Ok(reply) => if reply != "" then Ok(reply) else Ok(summary)
        case Err(_) => Ok(summary)
  }

  /** The prompt carries the emotion's emoji. */
  lemma VoicePromptEmoji(emotion: string)
    ensures EmojiOf(emotion) == Tone(emotion)
  {
    EmojiOfEmptySentence(emotion);
  }

  /** With no known word the reflection is the not-sure answer, which is
      never empty. */
  lemma ReflectUnknown(input: string, api: MemoryApi, ask: Llm)
    requires forall k :: 0 <= k < |ExtractWords(input)| ==> !api.knows(ExtractWords(input)[k])
    ensures ReflectFromMemory(input, api, ask) == Ok(NOT_SURE) && NOT_SURE != ""
  {
    NoKnownWords(ExtractWords(input), api);
  }

  /** _memory_lookup: the conversation's memory when it is truthy, else the
      reflection when it is non-empty; both count as confident. */
  function MemoryLookup(convo: string, input: string, api: MemoryApi, ask: Llm): (r: Result<Option<Json>>)
    ensures api.conversation(convo).Some? && PyTruthy(api.conversation(convo).value) ==>
      r == Ok(Some(api.conversation(convo).value))
    ensures r.Err? ==> r.error == "AttributeError"
    ensures r == Ok(None) ==> ReflectFromMemory(input, api, ask) == Ok("")
  {
    var c := api.conversation(convo);
    if c.Some? && PyTruthy(c.value) then Ok(Some(c.value))
    else match ReflectFromMemory(input, api, ask)
      case Err(e) => Err(e)
      case Ok(r) => Ok(if r != "" then Some(JStr(r)) else None)
  }

  // ---------------------------------------------------------------------
  // _emotion_prescan and _apply_emotion_tone

  /** _emotion_prescan: the state EmotionCore(memory).react(text) leaves, or
      the exception react raises. */
  function Prescan(input: string, api: MemoryApi): (r: Result<string>)
    ensures r.Ok? ==> r.value == Reaction(input)
    ensures Reaction(input) == "curious" ==> r == Ok("curious")
    ensures Reaction(input) != "curious" && !api.canUpdateEmotion ==> r == Err("AttributeError")
  {
    var next := Reaction(input);
    if next == "curious" then Ok(next)
    else
      var level := Raised(api.emotions, next, Step(next));
      if !api.canUpdateEmotion then Err("AttributeError")
      else if level.Err? then Err(level.error)
      else Ok(next)
  }

  /** The text a heavy emotion prefixes with a comfort phrase; choice stands
      for random.choice. */
  function Comforted(text: Json, emotion: string, comfort: seq<string>, choice: nat, show: Json -> string): Result<string> {
    if emotion in HEAVY && comfort != [] then
      if text.JStr? then Ok(comfort[choice % |comfort|] + " " + text.s) else Err("TypeError")
    else Ok(Str(text, show))
  }

  /** _apply_emotion_tone as written: adjust_response_tone returns a string,
      and the reply is its first character. */
  function ApplyToneAsWritten(text: Json, emotion: string, comfort: seq<string>, choice: nat, show: Json -> string): (r: Result<string>)
    ensures r.Err? <==> emotion in HEAVY && comfort != [] && !text.JStr?
    ensures r.Ok? ==> |r.value| == 1
  {
    match Comforted(text, emotion, comfort, choice, show)
    case Err(e) => Err(e)
    case Ok(t) =>
      var toned := AdjustResponseTone(emotion, [t]);
      Ok(if toned != "" then [toned[0]] else t)
  }

  /** _apply_emotion_tone as intended: the whole toned text. */
  function ApplyTone(text: Json, emotion: string, comfort: seq<string>, choice: nat, show: Json -> string): (r: Result<string>)
    ensures r.Err? <==> emotion in HEAVY && comfort != [] && !text.JStr?
    ensures r.Err? ==> r.error == "TypeError"
    ensures r.Ok? ==> StartsWith(r.value, Tone(emotion) + " ")
  {
    match Comforted(text, emotion, comfort, choice, show)
    case Err(e) => Err(e)
    case Ok(t) => Ok(AdjustResponseTone(emotion, [t]))
  }

  lemma ToneOfOne(emotion: string, t: string)
    ensures AdjustResponseTone(emotion, [t]) == Tone(emotion) + " " + t
  {
    assert Prefixed(Tone(emotion), [t]) == [Tone(emotion) + " " + t];
  }

  /** As written, every toned reply is one character: the emoji, or a space
      for an emotion without one; the text itself is lost. */
  lemma ToneAsWrittenLosesText(text: Json, emotion: string, comfort: seq<string>, choice: nat, show: Json -> string)
    requires ApplyToneAsWritten(text, emotion, comfort, choice, show).Ok?
    ensures ApplyToneAsWritten(text, emotion, comfort, choice, show).value
      == (if Tone(emotion) != "" then Tone(emotion) else " ")
  {
    var t := Comforted(text, emotion, comfort, choice, show).value;
    ToneOfOne(emotion, t);
    var toned := Tone(emotion) + " " + t;
    assert toned[0] == (Tone(emotion) + " ")[0];
  }

  /** Intended, the reply is the emoji, a space and the text, with a comfort
      phrase in front of it for a heavy emotion. */
  lemma ToneKeepsText(text: string, emotion: string, comfort: seq<string>, choice: nat, show: Json -> string)
    ensures ApplyTone(JStr(text), emotion, comfort, choice, show)
      == Ok(Tone(emotion) + " "
            + (if emotion in HEAVY && comfort != [] then comfort[choice % |comfort|] + " " + text else text))
  {
    ToneOfOne(emotion, Comforted(JStr(text), emotion, comfort, choice, show).value);
  }

  // ---------------------------------------------------------------------
  // handle_turn

  predicate IsFamily(input: string) {
    Lower(PyStrip(input)) == "/family"
  }

  /** _compose_llm_prompt with the context _rag_retrieve gives, None. */
  function LlmPrompt(input: string, beliefsRepr: string): string {
    (if beliefsRepr != "" then "Known facts: " + beliefsRepr + "\n" else "") + "Respond naturally to: " + input
  }

  /** The outcome of the try block of handle_turn once the thread is mapped
      and the URLs queued: the reply, the phase it returns in and the draft
      it stages. */
  datatype Turn = Turn(reply: string, phase: Phase, draft: Option<string>)

  /** The try block.  _rag_retrieve returns None, so the RAG phase is
      never entered and goes straight on to the guarded model query. */
  function TryBlock(input: string, convo: string, api: MemoryApi, ask: Llm, allowLlm: bool, askPermission: bool,
                    comfort: seq<string>, choice: nat, show: Json -> string): (t: Turn)
    ensures Prescan(input, api).Err? ==> t == Turn(ERROR_REPLY, Failed, None)
    ensures Prescan(input, api).Ok? && MemoryLookup(convo, input, api, ask).Err? ==> t == Turn(ERROR_REPLY, Failed, None)
    ensures t.phase != Rag && t.phase != Family
  {
    match Prescan(input, api)
    case Err(_) => Turn(ERROR_REPLY, Failed, None)
    case Ok(emotion) =>
      match MemoryLookup(convo, input, api, ask)
      case Err(_) => Turn(ERROR_REPLY, Failed, None)
      case Ok(hit) =>
        if hit.Some? then Answered(hit.value, emotion, comfort, choice, show)
        else Consulted(input, emotion, api.beliefsRepr, ask, allowLlm && askPermission, comfort, choice, show)
  }

  /** Phase 2 returns the memory's answer, toned. */
  function Answered(answer: Json, emotion: string, comfort: seq<string>, choice: nat, show: Json -> string): (t: Turn)
    ensures t.draft == None && (t.phase == MemoryHit || t.phase == Failed)
  {
    match ApplyTone(answer, emotion, comfort, choice, show)
    case Err(_) => Turn(ERROR_REPLY, Failed, None)
    case Ok(r) => Turn(r, MemoryHit, None)
  }

  /** Phases 4 and the fallback: the guarded model query when permitted, the
      fallback reply when the model is not asked or gives nothing. */
  function Consulted(input: string, emotion: string, beliefsRepr: string, ask: Llm, permitted: bool,
                     comfort: seq<string>, choice: nat, show: Json -> string): (t: Turn)
    ensures t.phase == Llm || t.phase == Fallback || t.phase == Failed
    ensures t.phase == Llm ==> permitted && t.draft.Some?
    ensures t.draft.Some? ==>
      && permitted && ask(LlmPrompt(input, beliefsRepr)).Ok?
      && t.draft.value == PyStrip(ask(LlmPrompt(input, beliefsRepr)).value)
  {
    var answer := if permitted then ask(LlmPrompt(input, beliefsRepr)) else Ok("");
    if answer.Ok? && answer.value != "" then
      var toned := ApplyTone(JStr(answer.value), emotion, comfort, choice, show);
      Turn(if toned.Ok? then toned.value else ERROR_REPLY, if toned.Ok? then Llm else Failed, Some(PyStrip(answer.value)))
    else
      match ApplyTone(JStr(FALLBACK_REPLY), emotion, comfort, choice, show)
      case Err(_) => Turn(ERROR_REPLY, Failed, None)
      case Ok(r) => Turn(r, Fallback, None)
  }

  /** The model is consulted for an answer only with permission and
      allow_llm; what it answers is staged as one draft, stripped, and the
      turn returns in the model phase. */
  lemma ConsultedSpec(input: string, emotion: string, beliefsRepr: string, ask: Llm, permitted: bool,
                      comfort: seq<string>, choice: nat, show: Json -> string)
    ensures var t := Consulted(input, emotion, beliefsRepr, ask, permitted, comfort, choice, show);
      var answer := ask(LlmPrompt(input, beliefsRepr));
      (t.phase == Llm || t.draft.Some?)
        <==> (permitted && answer.Ok? && answer.value != "")
    ensures var t := Consulted(input, emotion, beliefsRepr, ask, permitted, comfort, choice, show);
      var answer := ask(LlmPrompt(input, beliefsRepr));
      t.draft.Some? ==>
        (t.phase == Llm && t.draft == Some(PyStrip(answer.value))
         && t.reply == Tone(emotion) + " " + (if emotion in HEAVY && comfort != [] then comfort[choice % |comfort|] + " " + answer.value else answer.value))
    ensures Consulted(input, emotion, beliefsRepr, ask, permitted, comfort, choice, show).phase in {Llm, Fallback}
  {
    var answer := ask(LlmPrompt(input, beliefsRepr));
    if permitted && answer.Ok? && answer.value != "" {
      ToneKeepsText(answer.value, emotion, comfort, choice, show);
    }
    ToneKeepsText(FALLBACK_REPLY, emotion, comfort, choice, show);
  }

  /** The turn never returns in the RAG phase, and the model is asked for an
      answer only with permission and allow_llm. */
  lemma LlmNeedsPermission(input: string, convo: string, api: MemoryApi, ask: Llm, allowLlm: bool, askPermission: bool,
                           comfort: seq<string>, choice: nat, show: Json -> string)
    ensures var t := TryBlock(input, convo, api, ask, allowLlm, askPermission, comfort, choice, show);
      t.phase != Rag && ((t.phase == Llm || t.draft.Some?) ==> askPermission && allowLlm)
  {
    match Prescan(input, api)
    case Err(_) =>
    case Ok(emotion) =>
      match MemoryLookup(convo, input, api, ask)
      case Err(_) =>
      case Ok(hit) =>
        if hit.None? {
          ConsultedSpec(input, emotion, api.beliefsRepr, ask, allowLlm && askPermission, comfort, choice, show);
        }
  }

  /** Memory answers first: a lookup that finds an answer ends the turn in
      the memory phase, or in failure. */
  lemma HitEndsTurn(input: string, convo: string, api: MemoryApi, ask: Llm, allowLlm: bool, askPermission: bool,
                    comfort: seq<string>, choice: nat, show: Json -> string)
    requires MemoryLookup(convo, input, api, ask).Ok? ==> MemoryLookup(convo, input, api, ask).value.Some?
    ensures var t := TryBlock(input, convo, api, ask, allowLlm, askPermission, comfort, choice, show);
      t.phase == MemoryHit || t.phase == Failed
  {
  }

  /** With an empty conversation memory and no known word, the lookup
      answers with the not-sure reply. */
  lemma LookupUnknown(convo: string, input: string, api: MemoryApi, ask: Llm)
    requires forall k :: 0 <= k < |ExtractWords(input)| ==> !api.knows(ExtractWords(input)[k])
    requires api.conversation(convo).None?
    ensures MemoryLookup(convo, input, api, ask) == Ok(Some(JStr(NOT_SURE)))
  {
    ReflectUnknown(input, api, ask);
  }

  /** So such a turn returns in the memory phase with the not-sure reply,
      toned, unless the prescan fails. */
  lemma MemoryPhaseFirst(input: string, convo: string, api: MemoryApi, ask: Llm, allowLlm: bool, askPermission: bool,
                         comfort: seq<string>, choice: nat, show: Json -> string)
    requires forall k :: 0 <= k < |ExtractWords(input)| ==> !api.knows(ExtractWords(input)[k])
    requires api.conversation(convo).None?
    requires Prescan(input, api).Ok?
    ensures var emotion := Prescan(input, api).value;
      TryBlock(input, convo, api, ask, allowLlm, askPermission, comfort, choice, show)
        == Turn(Tone(emotion) + " " + (if emotion in HEAVY && comfort != [] then comfort[choice % |comfort|] + " " + NOT_SURE else NOT_SURE),
                MemoryHit, None)
  {
    LookupUnknown(convo, input, api, ask);
    ToneKeepsText(NOT_SURE, Prescan(input, api).value, comfort, choice, show);
  }

  /** With SQLiteMemory the lookup raises or answers: a known word raises,
      anything else has an answer. */
  lemma SqliteLookup(convo: string, input: string, api: MemoryApi, ask: Llm)
    requires IsSqliteMemory(api)
    ensures MemoryLookup(convo, input, api, ask).Ok? ==> MemoryLookup(convo, input, api, ask).value.Some?
  {
    var words := ExtractWords(input);
    if exists k :: 0 <= k < |words| && api.knows(words[k]) {
      var k :| 0 <= k < |words| && api.knows(words[k]);
      KnownWordWithoutRelated(words, api, k);
    } else {
      NoKnownWords(words, api);
    }
  }

  /** With SQLiteMemory an emotional keyword makes the prescan raise
      AttributeError: SQLiteMemory has no update_emotion method. */
  lemma SqlitePrescan(input: string, api: MemoryApi)
    requires IsSqliteMemory(api)
    ensures Prescan(input, api).Ok? <==> Reaction(input) == "curious"
    ensures Prescan(input, api).Err? ==> Prescan(input, api).error == "AttributeError"
  {
  }

  /** With the SQLiteMemory the Reasoner constructs, no turn ever reaches
      the model or the fallback: a known word or an emotional keyword makes
      the turn fail, and any other input is answered from memory. */
  lemma SqliteMemoryTurns(input: string, convo: string, api: MemoryApi, ask: Llm, allowLlm: bool, askPermission: bool,
                          comfort: seq<string>, choice: nat, show: Json -> string)
    requires IsSqliteMemory(api)
    ensures var t := TryBlock(input, convo, api, ask, allowLlm, askPermission, comfort, choice, show);
      (t.phase == MemoryHit || t.phase == Failed) && (Reaction(input) != "curious" ==> t.phase == Failed)
  {
    SqliteLookup(convo, input, api, ask);
    SqlitePrescan(input, api);
    HitEndsTurn(input, convo, api, ask, allowLlm, askPermission, comfort, choice, show);
  }

  class Reasoner {
    var threadToConversation: map<string, string>
    var queuedUrls: seq<string>
    /** The drafts handed to memory.stage_learning_drafts, in order. */
    var staged: seq<seq<string>>
    const askPermission: bool
    const comfortPhrases: seq<string>

    /** comfort stands for the phrases memory/comfort.json holds. */
    constructor (comfort: seq<string>)
      ensures threadToConversation == map[] && queuedUrls == [] && staged == []
      ensures askPermission && comfortPhrases == comfort
    {
      threadToConversation := map[];
      queuedUrls := [];
      staged := [];
      askPermission := true;
      comfortPhrases := comfort;
    }

    /** _map_thread_to_conversation. */
    method MapThread(thread: string, stamp: string) returns (id: string)
      modifies this
      ensures (threadToConversation, id) == Mapped(old(threadToConversation), thread, stamp)
      ensures queuedUrls == old(queuedUrls) && staged == old(staged)
    {
      if thread !in threadToConversation {
        threadToConversation := threadToConversation[thread := "conv_" + thread + "_" + stamp];
      }
      id := threadToConversation[thread];
    }

    /** _detect_and_enqueue_urls: the URLs found are appended to the queue,
        in order; nothing is removed or crawled. */
    method DetectAndEnqueueUrls(input: string) returns (urls: seq<string>)
      modifies this
      ensures urls == FindUrls(input)
      ensures queuedUrls == old(queuedUrls) + urls
      ensures threadToConversation == old(threadToConversation) && staged == old(staged)
    {
      urls := FindUrls(input);
      if urls != [] {
        queuedUrls := queuedUrls + urls;
      }
    }

    /** handle_turn.  meta is given by its thread_id (a string) and the
        truthiness of its allow_llm; family is what _family_summary
        returns; stamp is str(int(time.time())). */
    method HandleTurn(input: string, thread: string, allowLlm: bool, family: string, stamp: string,
                      api: MemoryApi, ask: Llm, choice: nat, show: Json -> string)
      returns (reply: string, phase: Phase)
      modifies this
      ensures IsFamily(input) ==>
        reply == family && phase == Family
        && threadToConversation == old(threadToConversation) && queuedUrls == old(queuedUrls) && staged == old(staged)
      ensures !IsFamily(input) ==>
        var (m, convo) := Mapped(old(threadToConversation), thread, stamp);
        var t := TryBlock(input, convo, api, ask, allowLlm, askPermission, comfortPhrases, choice, show);
        threadToConversation == m && queuedUrls == old(queuedUrls) + FindUrls(input)
        && reply == t.reply && phase == t.phase
        && staged == old(staged) + (if t.draft.Some? then [[t.draft.value]] else [])
    {
      if Lower(PyStrip(input)) == "/family" {
        return family, Family;
      }
      var convo := MapThread(thread, stamp);
      ghost var m := threadToConversation;
      var urls := DetectAndEnqueueUrls(input);
      ghost var queued := queuedUrls;
      assert queued == old(queuedUrls) + FindUrls(input);
      var core := new EmotionCore(api.emotions);
      var error := core.React(input, api.emotions, api.canUpdateEmotion);
      assert error.None? <==> Prescan(input, api).Ok?;
      assert error.None? ==> core.CurrentState() == JStr(Prescan(input, api).value);
      assert threadToConversation == m && queuedUrls == queued && staged == old(staged);
      var t := TryBlock(input, convo, api, ask, allowLlm, askPermission, comfortPhrases, choice, show);
      if t.draft.Some? {
        staged := staged + [[t.draft.value]];
      }
      return t.reply, t.phase;
    }
  }

  // ---------------------------------------------------------------------
  // explore_concept

  function Questions(topic: string): seq<string> {
    ["What is '" + topic + "'?", "Can you use '" + topic + "' in a sentence?", "When is '" + topic + "' used?",
     "What words are similar to '" + topic + "'?", "What is the opposite of '" + topic + "'?"]
  }

  /** The (question, stripped reply) pairs of the questions with a truthy
      reply, in order, or the first exception the model raises. */
  function Answers(qs: seq<string>, ask: Llm): Result<seq<(string, string)>>
    decreases |qs|
  {
    if qs == [] then Ok([])
    else match Answers(qs[..|qs| - 1], ask)
      case Err(e) => Err(e)
      case Ok(ps) =>
        match ask(qs[|qs| - 1])
        case Err(e) => Err(e)
        case Ok(reply) => Ok(if reply != "" then ps + [(qs[|qs| - 1], PyStrip(reply))] else ps)
  }

  /** Each answer is to one of the questions, at most one per question, and
      the pairs come in question order. */
  lemma {:induction false} AnswersOrdered(qs: seq<string>, ask: Llm)
    requires Answers(qs, ask).Ok?
    ensures var ps := Answers(qs, ask).value;
      |ps| <= |qs| && forall k :: 0 <= k < |ps| ==> ps[k].0 in qs
    decreases |qs|
  {
    if qs != [] {
      AnswersOrdered(qs[..|qs| - 1], ask);
      var ps := Answers(qs[..|qs| - 1], ask).value;
      forall k | 0 <= k < |ps|
        ensures ps[k].0 in qs
      {
        assert ps[k].0 in qs[..|qs| - 1];
      }
    }
  }

  function QA(p: (string, string)): string {
    "Q: " + p.0 + "\nA: " + p.1
  }

  /** What explore_concept returns once the questions are answered. */
  function Learned(topic: string, ps: seq<(string, string)>, hasQueueLearn: bool): Result<string> {
    if ps == [] then Ok("I couldn't learn much about '" + topic + "' right now.")
    else if !hasQueueLearn then Err("AttributeError")
    else Ok("Here's what I learned about '" + topic + "':\n\n" + Join(seq(|ps|, k requires 0 <= k < |ps| => QA(ps[k])), "\n\n"))
  }

  /** The loop of explore_concept: each question in turn is put to the
      model; the stripped truthy replies are collected, and each is handed
      to extract_unknown_words.  An exception stops the loop. */
  method AskAll(qs: seq<string>, ask: Llm) returns (r: Result<seq<(string, string)>>, asked: seq<string>, fed: seq<string>)
    ensures r == Answers(qs, ask)
    ensures asked <= qs && asked != [] <== qs != []
    ensures r.Ok? ==> asked == qs && |fed| == |r.value| && forall k :: 0 <= k < |fed| ==> fed[k] == r.value[k].1
  {
    asked, fed := [], [];
    var ps: seq<(string, string)> := [];
    var i := 0;
    while i < |qs|
      invariant 0 <= i <= |qs|
      invariant Answers(qs[..i], ask) == Ok(ps)
      invariant asked == qs[..i]
      invariant |fed| == |ps| && forall k :: 0 <= k < |ps| ==> fed[k] == ps[k].1
    {
      assert qs[..i + 1][..i] == qs[..i];
      asked := asked + [qs[i]];
      var reply := ask(qs[i]);
      if reply.Err? {
        AnswersPrefixErr(qs, ask, i + 1);
        return Err(reply.error), asked, fed;
      }
      if reply.value != "" {
        var cleaned := PyStrip(reply.value);
        ps := ps + [(qs[i], cleaned)];
        fed := fed + [cleaned];
      }
      i := i + 1;
    }
    assert qs[..i] == qs;
    r := Ok(ps);
  }

  /** explore_concept, with the memory given by knows_word and whether it has
      queue_learn.  It returns the reply or exception, the prompts sent to
      the model and the cleaned replies handed to extract_unknown_words. */
  method ExploreConcept(topic: Json, knows: string -> bool, hasQueueLearn: bool, ask: Llm)
    returns (r: Result<string>, asked: seq<string>, fed: seq<string>)
    ensures !PyTruthy(topic) || !topic.JStr? ==> r == Ok(NEED_TOPIC) && asked == [] && fed == []
    ensures topic.JStr? && PyTruthy(topic) && knows(Lower(PyStrip(topic.s))) ==>
      r == Ok("I already remember what '" + Lower(PyStrip(topic.s)) + "' means.") && asked == [] && fed == []
    ensures topic.JStr? && PyTruthy(topic) && !knows(Lower(PyStrip(topic.s))) ==>
      var t := Lower(PyStrip(topic.s));
      var a := Answers(Questions(t), ask);
      asked <= Questions(t) && asked != []
      && (a.Err? ==> r == Err(a.error))
      && (a.Ok? ==> asked == Questions(t) && r == Learned(t, a.value, hasQueueLearn)
                    && |fed| == |a.value| && forall k :: 0 <= k < |fed| ==> fed[k] == a.value[k].1)
  {
    if !PyTruthy(topic) || !topic.JStr? {
      return Ok(NEED_TOPIC), [], [];
    }
    var t := Lower(PyStrip(topic.s));
    if knows(t) {
      return Ok("I already remember what '" + t + "' means."), [], [];
    }
    var answers;
    answers, asked, fed := AskAll(Questions(t), ask);
    if answers.Err? {
      return Err(answers.error), asked, fed;
    }
    var ps := answers.value;
    if ps == [] {
      return Ok("I couldn't learn much about '" + t + "' right now."), asked, fed;
    }
    if !hasQueueLearn {
      return Err("AttributeError"), asked, fed;
    }
    var responses := seq(|ps|, k requires 0 <= k < |ps| => QA(ps[k]));
    r := Ok("Here's what I learned about '" + t + "':\n\n" + Join(responses, "\n\n"));
  }

  /** With SQLiteMemory, which has no queue_learn, exploring an unknown
      topic that the model answers always raises; only the early exits and
      the no-answer reply come back. */
  lemma ExploreWithoutQueueLearn(topic: string, ps: seq<(string, string)>)
    requires ps != []
    ensures Learned(topic, ps, false) == Err("AttributeError")
  {
  }

  /** An exception after the first n questions is the exception of the whole. */
  lemma {:induction false} AnswersPrefixErr(qs: seq<string>, ask: Llm, n: nat)
    requires n <= |qs| && Answers(qs[..n], ask).Err?
    ensures Answers(qs, ask) == Answers(qs[..n], ask)
    decreases |qs| - n
  {
    if n < |qs| {
      assert qs[..n + 1][..n] == qs[..n];
      AnswersPrefixErr(qs, ask, n + 1);
    } else {
      assert qs[..n] == qs;
    }
  }
}
