/**
 * gateway/core_memory_handler.py: the CORE_MEMORY_UPDATE handling of the JSON
 * gateway and its conversation file.  Blocks follow the Handler grammar of
 * CoreBlocks (case-sensitive sentinels, a newline before the body and before
 * the closer).  core.json is written through MemoryStore.SaveCore;
 * conversations.json is a JsonFile.  json.loads is a parameter that answers
 * None where it would raise; the clock is a parameter.
 */
module CoreMemoryHandler {
  import opened Common
  import opened CoreBlocks
  import MemoryStore
  import SeedaiStorage

  // ---------------------------------------------------------------------
  // CORE_MEMORY_UPDATE blocks

  /** extract_core_json: None for empty text, for text without a block and for
      a body that does not parse; otherwise the parsed body of the first block. */
  function ExtractCoreJson(text: string, parse: string -> Option<Json>): (r: Option<Json>)
    ensures text == "" ==> r.None?
    ensures text != "" && Search(Handler, text, 0).None? ==> r.None?
    ensures text != "" && Search(Handler, text, 0).Some? ==>
      r == parse(Body(text, Search(Handler, text, 0).value))
  {
    if text == "" then None
    else
      match Search(Handler, text, 0)
      case None => None
      case Some(m) => parse(Body(text, m))
  }

  /** strip_core_blocks: empty text is returned as it is; otherwise every block is
      removed and the surrounding whitespace stripped. */
  function StripCoreBlocks(text: string): (r: string)
    ensures text == "" ==> r == ""
    ensures |r| <= |text|
    ensures r != "" ==> !PyIsSpace(r[0]) && !PyIsSpace(r[|r| - 1])
    ensures Search(Handler, text, 0).None? ==> r == PyStrip(text)
  {
    if text == "" then text
    else
      var s := Sub(Handler, text, 0);
      TrimEndsNotSpace(s, PyIsSpace);
      PyStrip(s)
  }

  /** Text on a single line holds no block for this grammar: nothing is extracted
      and stripping only trims the whitespace. */
  lemma SingleLineIgnored(text: string, parse: string -> Option<Json>)
    requires forall k :: 0 <= k < |text| ==> text[k] != '\n'
    ensures ExtractCoreJson(text, parse).None?
    ensures StripCoreBlocks(text) == PyStrip(text)
  {
    HandlerNeedsNewline(text, 0);
  }

  /** The same single-line reply, read by both gateways: the SQLite gateway
      extracts its block, this one does not. */
  lemma SingleLineBlockComparison(parse: string -> Option<Json>)
    ensures var t := OPEN_CS + " {} " + CLOSE_CS;
      SeedaiStorage.ExtractCoreJson(t, parse) == parse("{}")
      && ExtractCoreJson(t, parse).None?
  {
    var t := OPEN_CS + " {} " + CLOSE_CS;
    SingleLineParts(t);
    SeedaiStorage.OneBlock("", " ", "{}", " ", "", parse);
    SingleLineIgnored(t, parse);
  }

  lemma SingleLineParts(t: string)
    requires t == OPEN_CS + " {} " + CLOSE_CS
    ensures t == SeedaiStorage.Framed("", " ", "{}", " ", "")
    ensures forall k :: 0 <= k < |t| ==> t[k] != '\n'
  {
  }

  /** append_memory_file: the entry is handed to save_core, which merges it into
      core.json key by key.  When save_core raises (core.json holds a JSON value
      that is not an object), the fallback reloads that same value and its
      update call raises in turn. */
  method AppendMemoryFile(f: JsonFile, entry: Obj) returns (r: Result<Json>)
    modifies f
    ensures r.Ok? <==> old(f.Loaded()).JObj? || entry == map[]
    ensures r.Ok? ==> r == MemoryStore.Saved(old(f.Loaded()), entry)
    ensures r.Ok? ==> f.data == Some(r.value)
    ensures r.Err? ==> r.error == "AttributeError" && f.data == old(f.data)
  {
    r := MemoryStore.SaveCore(f, entry);
    if r.Err? {
      r := Err("AttributeError");
    }
  }

  // ---------------------------------------------------------------------
  // conversations.json

  /** What list.extend(v) appends: the items of a list, the one-character strings
      of a string, the keys of a dict in the order keyOrder gives (dict order is
      not part of Json); anything else is not iterable. */
  function Items(v: Json, keyOrder: Obj -> seq<string>): (r: Result<seq<Json>>)
    ensures v.JArr? ==> r == Ok(v.items)
    ensures v.JStr? ==> r.Ok? && |r.value| == |v.s|
    ensures v.JObj? ==> r.Ok? && |r.value| == |keyOrder(v.fields)|
    ensures !v.JArr? && !v.JStr? && !v.JObj? ==> r == Err("TypeError")
  {
    match v
    case JArr(xs) => Ok(xs)
    case JStr(s) => Ok(seq(|s|, i requires 0 <= i < |s| => JStr([s[i]])))
    case JObj(m) =>
      var ks := keyOrder(m);
      Ok(seq(|ks|, i requires 0 <= i < |ks| => JStr(ks[i])))
    case _ => Err("TypeError")
  }

  /** The message list saved for the conversation: the existing messages, extended
      by the new ones when there are any. */
  function Extended(msgs: Json, newMsgs: Json, keyOrder: Obj -> seq<string>): (r: Result<Json>)
    ensures !PyTruthy(newMsgs) ==> r == Ok(msgs)
    ensures PyTruthy(newMsgs) && !msgs.JArr? ==> r == Err("AttributeError")
    ensures PyTruthy(newMsgs) && msgs.JArr? && newMsgs.JArr? ==> r == Ok(JArr(msgs.items + newMsgs.items))
  {
    if !PyTruthy(newMsgs) then Ok(msgs)
    else if !msgs.JArr? then Err("AttributeError")
    else
      match Items(newMsgs, keyOrder)
      case Ok(xs) => Ok(JArr(msgs.items + xs))
      case Err(e) => Err(e)
  }

  /** persist_conversation on the loaded value allc: the saved record and the new
      content of the file.  A falsy id is replaced by genId (the clock in
      milliseconds), now is the clock in seconds. */
  function Persisted(allc: Json, cid: string, obj: Obj, genId: string, now: int,
                     keyOrder: Obj -> seq<string>): (r: Result<(Obj, Obj)>)
    ensures r.Ok? ==> allc.JObj?
    ensures r.Ok? ==> var id := if cid == "" then genId else cid;
      var (saved, all) := r.value;
      && saved.Keys == {"id", "messages", "updated"}
      && saved["id"] == JStr(id) && saved["updated"] == JNum(now as real)
      && all.Keys == allc.fields.Keys + {id}
      && all[id] == JObj(saved)
      && (forall k :: k in all && k != id ==> all[k] == allc.fields[k])
  {
    var id := if cid == "" then genId else cid;
    if !allc.JObj? then Err("AttributeError")
    else
      var existing := if id in allc.fields then allc.fields[id] else JObj(map[]);
      if !existing.JObj? then Err("AttributeError")
      else
        var msgs := if "messages" in existing.fields then existing.fields["messages"] else JArr([]);
        var newMsgs := if "messages" in obj then obj["messages"] else JArr([]);
        match Extended(msgs, newMsgs, keyOrder)
        case Err(e) => Err(e)
        case Ok(m) =>
          var saved := map["id" := JStr(id), "messages" := m, "updated" := JNum(now as real)];
          Ok((saved, allc.fields[id := JObj(saved)]))
  }

  /** The messages of the saved record: the stored ones followed by the new ones,
      in order; without new messages the stored list is kept as it was. */
  lemma PersistMessages(allc: Obj, cid: string, obj: Obj, genId: string, now: int,
                        keyOrder: Obj -> seq<string>, old_: seq<Json>)
    requires var id := if cid == "" then genId else cid;
      id in allc && allc[id].JObj? && Get(allc[id].fields, "messages") == Some(JArr(old_))
    ensures var r := Persisted(JObj(allc), cid, obj, genId, now, keyOrder);
      && ("messages" in obj && obj["messages"].JArr? ==>
            r.Ok? && r.value.0["messages"] == JArr(old_ + obj["messages"].items))
      && (Get(obj, "messages").None? ==> r.Ok? && r.value.0["messages"] == JArr(old_))
  {
    if "messages" in obj && obj["messages"].JArr? && obj["messages"].items == [] {
      assert old_ + [] == old_;
    }
  }

  /** persist_conversation: load conversations.json, update the conversation's
      entry, write the file back and return the saved record. */
  method PersistConversation(f: JsonFile, cid: string, obj: Obj, genId: string, now: int,
                             keyOrder: Obj -> seq<string>) returns (r: Result<Obj>)
    modifies f
    ensures var p := Persisted(old(f.Loaded()), cid, obj, genId, now, keyOrder);
      && (r.Ok? <==> p.Ok?)
      && (r.Ok? ==> r.value == p.value.0 && f.data == Some(JObj(p.value.1)))
      && (r.Err? ==> r.error == p.error && f.data == old(f.data))
  {
    var allc := f.Loaded();
    var p := Persisted(allc, cid, obj, genId, now, keyOrder);
    if p.Err? {
      return Err(p.error);
    }
    var (saved, all) := p.value;
    f.data := Some(JObj(all));
    r := Ok(saved);
  }
}
