/**
 * openweb-ui-frontend/src/lib/api.ts: the web front end's client for the
 * gateway's HTTP API.  apiRequest turns a response that is not OK into an
 * ApiError carrying the HTTP status; the api.* calls map every other
 * failure to ApiError(0, "Network error"), and two of them treat a 404 as
 * "not available".  getModels accepts three shapes of model list and
 * normalises every element to an id and an owner.
 *
 * fetch is given as what it produced: an exception, or a response whose
 * body parses to a JSON value (or does not parse).  JavaScript's String()
 * of a non-string value is the parameter show.
 */
module Api {
  import opened Common

  datatype ApiError = ApiError(status: int, message: string)

  const NETWORK_ERROR := ApiError(0, "Network error")

  /** What a call raised: an ApiError, or any other exception (a failed
      fetch, a body that is not JSON, a TypeError), by its name. */
  datatype Raised = Api(error: ApiError) | Other(what: string)

  datatype Outcome<T> = Done(value: T) | Raise(raised: Raised)

  /** What fetch produced.  body is the value response.json() resolves to,
      or None when the body is not JSON. */
  datatype Fetched =
    | FetchFailed(reason: string)
    | Responded(ok: bool, status: nat, statusText: string, body: Option<Json>)

  predicate IsDigits(s: string) {
    forall k :: 0 <= k < |s| ==> '0' <= s[k] <= '9'
  }

  /** The number a run of decimal digits denotes. */
  function DigitsValue(s: string): nat
    requires IsDigits(s)
  {
    if s == [] then 0 else DigitsValue(s[..|s| - 1]) * 10 + (s[|s| - 1] - '0') as nat
  }

  /** The decimal digits of n, as a template literal writes a number: they
      denote n and have no leading zero. */
  function Decimal(n: nat): (r: string)
    ensures r != [] && IsDigits(r)
    ensures DigitsValue(r) == n
    ensures r[0] == '0' ==> r == "0"
  {
    var d := ['0' + (n % 10) as char];
    if n < 10 then d
    else
      var h := Decimal(n / 10);
      assert (h + d)[..|h + d| - 1] == h;
      h + d
  }

  /** The ApiError of a response that is not OK. */
  function HttpError(status: nat, statusText: string): ApiError {
    ApiError(status, "HTTP " + Decimal(status) + ": " + statusText)
  }

  // ---------------------------------------------------------------------
  // apiRequest and the error mapping of the api.* calls

  /** apiRequest: a response that is not OK raises its ApiError; otherwise
      the parsed body is the result. */
  function ApiRequest(f: Fetched): (r: Outcome<Json>)
    ensures r.Raise? && r.raised.Api? <==> f.Responded? && !f.ok
    ensures r.Raise? && r.raised.Api? ==> r.raised.error == HttpError(f.status, f.statusText)
    ensures r.Done? <==> f.Responded? && f.ok && f.body.Some?
    ensures r.Done? ==> r.value == f.body.value
  {
    match f
    case FetchFailed(reason) => Raise(Other(reason))
    case Responded(ok, status, statusText, body) =>
      if !ok then Raise(Api(HttpError(status, statusText)))
      else if body.None? then Raise(Other("SyntaxError"))
      else Done(body.value)
  }

  /** The catch block of getModels, chat, embeddings and ackUnknownWord: an
      ApiError is rethrown, anything else becomes the network error. */
  function Guarded<T>(o: Outcome<T>): Outcome<T> {
    if o.Raise? && o.raised.Other? then Raise(Api(NETWORK_ERROR)) else o
  }

  /** A guarded call raises only ApiErrors, keeps the ones apiRequest raised
      and every result; guarding twice is guarding once. */
  lemma GuardedSpec<T>(o: Outcome<T>)
    ensures Guarded(o).Raise? ==> Guarded(o).raised.Api?
    ensures o.Done? || o.raised.Api? ==> Guarded(o) == o
    ensures o.Raise? && o.raised.Other? ==> Guarded(o) == Raise(Api(NETWORK_ERROR))
    ensures Guarded(Guarded(o)) == Guarded(o)
  {
  }

  /** chat: the parsed body of an OK response; a response that is not OK
      raises its own ApiError, and anything else the network error. */
  function Chat(f: Fetched): (r: Outcome<Json>)
    ensures r.Done? <==> f.Responded? && f.ok && f.body.Some?
    ensures r.Done? ==> r.value == f.body.value
    ensures r.Raise? ==> r.raised.Api?
    ensures f.Responded? && !f.ok ==> r == Raise(Api(HttpError(f.status, f.statusText)))
    ensures r.Raise? && !(f.Responded? && !f.ok) ==> r.raised.error == NETWORK_ERROR
  {
    Guarded(ApiRequest(f))
  }

  /** embeddings: the same request and catch block as chat, on another path. */
  function Embeddings(f: Fetched): (r: Outcome<Json>)
    ensures r == Chat(f)
  {
    Guarded(ApiRequest(f))
  }

  /** ackUnknownWord: the body is awaited and dropped. */
  function AckUnknownWord(f: Fetched): (r: Outcome<()>)
    ensures r.Done? <==> f.Responded? && f.ok && f.body.Some?
    ensures r.Raise? ==> r.raised.Api?
    ensures f.Responded? && !f.ok ==> r == Raise(Api(HttpError(f.status, f.statusText)))
  {
    Guarded(match ApiRequest(f) case Done(_) => Done(()) case Raise(e) => Raise(e))
  }

  /** uploadFile makes its own request, with the same status check, and has
      no catch block. */
  function UploadFile(f: Fetched): (r: Outcome<Json>)
    ensures r.Done? <==> f.Responded? && f.ok && f.body.Some?
    ensures r.Done? ==> r.value == f.body.value
    ensures f.Responded? && !f.ok ==> r == Raise(Api(HttpError(f.status, f.statusText)))
    ensures f.FetchFailed? ==> r == Raise(Other(f.reason))
  {
    match f
    case FetchFailed(reason) => Raise(Other(reason))
    case Responded(ok, status, statusText, body) =>
      if !ok then Raise(Api(HttpError(status, statusText)))
      else if body.None? then Raise(Other("SyntaxError"))
      else Done(body.value)
  }

  /** The error mapping of chat (and embeddings): a failed fetch or a body
      that is not JSON gives ApiError(0, "Network error"), a response that
      is not OK gives its own status. */
  lemma ChatErrors(f: Fetched)
    ensures f.FetchFailed? ==> Chat(f) == Raise(Api(NETWORK_ERROR))
    ensures f.Responded? && !f.ok ==> Chat(f) == Raise(Api(HttpError(f.status, f.statusText)))
    ensures f.Responded? && f.ok && f.body.None? ==> Chat(f) == Raise(Api(NETWORK_ERROR))
    ensures f.Responded? && f.ok && f.body.Some? ==> Chat(f) == Done(f.body.value)
    ensures Embeddings(f) == Chat(f)
    ensures AckUnknownWord(f).Raise? <==> Chat(f).Raise?
  {
  }

  /** uploadFile agrees with apiRequest, so a failed fetch reaches its
      caller as it was raised, unlike in the guarded calls. */
  lemma UploadFileUnguarded(f: Fetched)
    ensures UploadFile(f) == ApiRequest(f)
    ensures f.FetchFailed? ==> UploadFile(f) == Raise(Other(f.reason))
  {
  }

  /** `v.key` on the value of a response: a field of an object, undefined
      (None) on anything else; null raises a TypeError (Err). */
  function Field(v: Json, key: string): Result<Option<Json>> {
    match v
    case JNull => Err("TypeError")
    case JObj(f) => Ok(Get(f, key))
    case _ => Ok(None)
  }

  /** getUnknownWords: response.data, and [] when the endpoint answers 404. */
  function GetUnknownWords(f: Fetched): (r: Outcome<Option<Json>>)
    ensures r.Raise? ==> r.raised.Api?
    ensures f.Responded? && !f.ok ==>
      r == if f.status == 404 then Done(Some(JArr([]))) else Raise(Api(HttpError(f.status, f.statusText)))
    ensures f.Responded? && f.ok && f.body.Some? && f.body.value.JObj? ==> r == Done(Get(f.body.value.fields, "data"))
  {
    var r := ApiRequest(f);
    if r.Raise? && r.raised.Api? && r.raised.error.status == 404 then Done(Some(JArr([])))
    else if r.Raise? then Guarded(Raise(r.raised))
    else
      var d := Field(r.value, "data");
      if d.Err? then Raise(Api(NETWORK_ERROR)) else Done(d.value)
  }

  /** search: the parsed body, and null when the endpoint answers 404. */
  function Search(f: Fetched): (r: Outcome<Json>)
    ensures r.Raise? ==> r.raised.Api?
    ensures f.Responded? && !f.ok ==>
      r == if f.status == 404 then Done(JNull) else Raise(Api(HttpError(f.status, f.statusText)))
    ensures f.Responded? && f.ok && f.body.Some? ==> r == Done(f.body.value)
  {
    var r := ApiRequest(f);
    if r.Raise? && r.raised.Api? && r.raised.error.status == 404 then Done(JNull)
    else Guarded(r)
  }

  /** A 404 means "not available" to getUnknownWords and search, but is an
      error to chat. */
  lemma NotFoundTolerated(f: Fetched)
    requires f.Responded? && !f.ok && f.status == 404
    ensures GetUnknownWords(f) == Done(Some(JArr([])))
    ensures Search(f) == Done(JNull)
    ensures Chat(f) == Raise(Api(HttpError(404, f.statusText)))
  {
  }

  /** Every other status is rethrown with its status; a failed fetch is the
      network error; a 404 is never reported as an error. */
  lemma OtherFailuresRethrown(f: Fetched)
    ensures f.Responded? && !f.ok && f.status != 404 ==>
      && GetUnknownWords(f) == Raise(Api(HttpError(f.status, f.statusText)))
      && Search(f) == Raise(Api(HttpError(f.status, f.statusText)))
    ensures f.FetchFailed? ==>
      GetUnknownWords(f) == Raise(Api(NETWORK_ERROR)) && Search(f) == Raise(Api(NETWORK_ERROR))
    ensures GetUnknownWords(f).Raise? ==> GetUnknownWords(f).raised.Api? && GetUnknownWords(f).raised.error.status != 404
    ensures Search(f).Raise? ==> Search(f).raised.Api? && Search(f).raised.error.status != 404
  {
  }

  /** A successful getUnknownWords is the body's data field; a body of null
      makes `response.data` throw, which the catch turns into the network
      error. */
  lemma UnknownWordsData(f: Fetched, fields: Obj)
    ensures f == Responded(true, 200, "OK", Some(JObj(fields))) ==> GetUnknownWords(f) == Done(Get(fields, "data"))
    ensures f == Responded(true, 200, "OK", Some(JNull)) ==> GetUnknownWords(f) == Raise(Api(NETWORK_ERROR))
  {
  }

  // ---------------------------------------------------------------------
  // The regular expressions of getModels

  predicate PyQuote(c: char) {
    c == '\'' || c == '"'
  }

  predicate JsonQuote(c: char) {
    c == '"'
  }

  /** The end of the run of whitespace (`\s*`) that starts at i. */
  function SkipSpace(m: string, i: nat): (e: nat)
    requires i <= |m|
    ensures i <= e <= |m|
    ensures forall k :: i <= k < e ==> JsIsSpace(m[k])
    ensures e < |m| ==> !JsIsSpace(m[e])
    decreases |m| - i
  {
    if i < |m| && JsIsSpace(m[i]) then SkipSpace(m, i + 1) else i
  }

  /** The end of the run of characters that are not quotes that starts at i. */
  function SkipValue(m: string, i: nat, q: char -> bool): (e: nat)
    requires i <= |m|
    ensures i <= e <= |m|
    ensures forall k :: i <= k < e ==> !q(m[k])
    ensures e < |m| ==> q(m[e])
    decreases |m| - i
  {
    if i < |m| && !q(m[i]) then SkipValue(m, i + 1, q) else i
  }

  /** The pattern  Q key Q \s* : \s* Q ([^Q]+) Q  tried at index i, where Q
      is any character q accepts, and its captured group.  Neither `\s*`
      nor the greedy group can give back characters to let the match
      succeed, so one attempt at i decides it. */
  function MatchAt(m: string, key: string, q: char -> bool, i: nat): (r: Option<string>)
    ensures r.Some? ==> r.value != [] && forall k :: 0 <= k < |r.value| ==> !q(r.value[k])
  {
    var k := i + 1 + |key|;
    if !(k < |m| && q(m[i]) && OccursAt(m, key, i + 1) && q(m[k])) then None
    else
      var a := SkipSpace(m, k + 1);
      if !(a < |m| && m[a] == ':') then None
      else
        var b := SkipSpace(m, a + 1);
        if !(b < |m| && q(m[b])) then None
        else
          var e := SkipValue(m, b + 1, q);
          if b + 1 < e < |m| then Some(m[b + 1..e]) else None
  }

  /** The attempts at every index of m. */
  function At(m: string, key: string, q: char -> bool): nat -> Option<string> {
    (i: nat) => MatchAt(m, key, q, i)
  }

  /** The first successful attempt at an index in [from, end). */
  function First(at: nat -> Option<string>, from: nat, end: nat): (r: Option<string>)
    ensures r.Some? ==> exists i :: from <= i < end && at(i) == r
    ensures r.None? ==> forall i :: from <= i < end ==> at(i).None?
    decreases end - from
  {
    if from >= end then None
    else if at(from).Some? then at(from)
    else First(at, from + 1, end)
  }

  /** String.prototype.match with the pattern: the group of the leftmost
      match. */
  function Match(m: string, key: string, q: char -> bool): Option<string> {
    First(At(m, key, q), 0, |m|)
  }

  /** The attempt First returns is the leftmost successful one. */
  lemma {:induction false} FirstLeftmost(at: nat -> Option<string>, from: nat, end: nat, n: nat)
    requires from <= n < end && at(n).Some?
    requires forall j :: from <= j < n ==> at(j).None?
    ensures First(at, from, end) == at(n)
    decreases n - from
  {
    if from < n {
      FirstLeftmost(at, from + 1, end, n);
    }
  }

  /** A key and a value written as a dict entry, `'key': 'value'`. */
  function Entry(key: string, value: string, quote: char): string {
    [quote] + key + [quote] + ": " + [quote] + value + [quote]
  }

  /** Where the parts of an entry sit in a text that holds it at index i. */
  predicate EntryAt(m: string, key: string, value: string, quote: char, i: nat) {
    var k := i + 1 + |key|;
    var e := k + 4 + |value|;
    && e < |m| && m[i] == quote && m[i + 1..k] == key && m[k] == quote
    && m[k + 1] == ':' && m[k + 2] == ' ' && m[k + 3] == quote
    && m[k + 4..e] == value && m[e] == quote
  }

  lemma EntryPlaced(pre: string, key: string, value: string, quote: char, post: string)
    ensures EntryAt(pre + Entry(key, value, quote) + post, key, value, quote, |pre|)
    ensures forall j :: 0 <= j < |pre| ==> (pre + Entry(key, value, quote) + post)[j] == pre[j]
  {
    var m := pre + Entry(key, value, quote) + post;
    var en := Entry(key, value, quote);
    assert m[|pre|..|pre| + |en|] == en;
    var k := 1 + |key|;
    assert en[0] == quote && en[1..k] == key && en[k] == quote;
    assert en[k + 1] == ':' && en[k + 2] == ' ' && en[k + 3] == quote;
    assert en[k + 4..k + 4 + |value|] == value && en[k + 4 + |value|] == quote;
  }

  /** At an entry whose value has no quote, the pattern captures the value. */
  lemma MatchAtEntry(m: string, key: string, value: string, quote: char, i: nat, q: char -> bool)
    requires EntryAt(m, key, value, quote, i)
    requires q(quote) && !JsIsSpace(quote) && value != []
    requires forall k :: 0 <= k < |value| ==> !q(value[k])
    ensures MatchAt(m, key, q, i) == Some(value)
  {
    var k := i + 1 + |key|;
    var e := k + 4 + |value|;
    assert OccursAt(m, key, i + 1);
    assert SkipSpace(m, k + 1) == k + 1;
    assert SkipSpace(m, k + 3) == k + 3;
    assert SkipSpace(m, k + 2) == k + 3;
    assert forall j :: k + 4 <= j < e ==> m[j] == value[j - (k + 4)];
    SkipValueOver(m, k + 4, e, q);
  }

  /** The pattern finds the value of an entry that follows text with no
      quote in it, whatever comes after the entry. */
  lemma EntryFound(pre: string, key: string, value: string, quote: char, post: string, q: char -> bool)
    requires q(quote) && !JsIsSpace(quote) && value != []
    requires forall k :: 0 <= k < |pre| ==> !q(pre[k])
    requires forall k :: 0 <= k < |value| ==> !q(value[k])
    ensures Match(pre + Entry(key, value, quote) + post, key, q) == Some(value)
  {
    var m := pre + Entry(key, value, quote) + post;
    EntryPlaced(pre, key, value, quote, post);
    MatchAtEntry(m, key, value, quote, |pre|, q);
    forall j | 0 <= j < |pre|
      ensures At(m, key, q)(j).None?
    {
      assert !q(m[j]);
    }
    FirstLeftmost(At(m, key, q), 0, |m|, |pre|);
  }

  lemma {:induction false} SkipValueOver(m: string, i: nat, e: nat, q: char -> bool)
    requires i <= e < |m| && q(m[e])
    requires forall k :: i <= k < e ==> !q(m[k])
    ensures SkipValue(m, i, q) == e
    decreases e - i
  {
    if i < e {
      SkipValueOver(m, i + 1, e, q);
    }
  }

  // ---------------------------------------------------------------------
  // getModels

  /** A normalised model: `{ id, owned_by }`.  Both are whatever value the
      `||` chains produced. */
  datatype ModelEntry = ModelEntry(id: Json, ownedBy: Json)

  /** `a || b` where a may be undefined. */
  function Or(a: Option<Json>, b: Json): (r: Json)
    ensures a.Some? && JsTruthy(a.value) ==> r == a.value
    ensures !(a.Some? && JsTruthy(a.value)) ==> r == b
  {
    if a.Some? && JsTruthy(a.value) then a.value else b
  }

  /** A string element: id from the Python-style match, else the JSON-style
      match, else the whole string; owned_by from its match, else "library". */
  function FromString(s: string): ModelEntry {
    var py := Match(s, "id", PyQuote);
    var json := Match(s, "id", JsonQuote);
    var owned := Match(s, "owned_by", PyQuote);
    ModelEntry(
      JStr(if py.Some? then py.value else if json.Some? then json.value else s),
      JStr(if owned.Some? then owned.value else "library"))
  }

  /** The callback of list.map.  An array is an object for `typeof`, and has
      no id, name, owned_by or owner. */
  function Normalize(m: Json, show: Json -> string): ModelEntry {
    match m
    case JStr(s) => FromString(s)
    case JObj(f) =>
      ModelEntry(Or(Get(f, "id"), Or(Get(f, "name"), JStr(show(m)))),
                 Or(Get(f, "owned_by"), Or(Get(f, "owner"), JStr("library"))))
    case JArr(_) => ModelEntry(JStr(show(m)), JStr("library"))
    case _ => ModelEntry(JStr(show(m)), JStr("unknown"))
  }

  /** The field of a response object when it holds an array (every array is
      truthy). */
  function ArrayField(f: Obj, key: string): Option<seq<Json>> {
    if key in f && JsTruthy(f[key]) && f[key].JArr? then Some(f[key].items) else None
  }

  /** The list getModels reads: response.data, else response.models, else
      the response itself when it is an array, else [].  None when the
      response is null, where `response.data` throws. */
  function ListOf(response: Json): (r: Option<seq<Json>>)
    ensures r.None? <==> response.JNull?
    ensures r.Some? && r.value != [] ==>
      || response == JArr(r.value)
      || (response.JObj? && (Get(response.fields, "data") == Some(JArr(r.value))
                             || Get(response.fields, "models") == Some(JArr(r.value))))
  {
    match response
    case JNull => None
    case JObj(f) =>
      var data := ArrayField(f, "data");
      var models := ArrayField(f, "models");
      Some(if data.Some? then data.value else if models.Some? then models.value else [])
    case JArr(items) => Some(items)
    case _ => Some([])
  }

  /** The three shapes, and which one wins. */
  lemma ListShapes(items: seq<Json>, other: seq<Json>, f: Obj)
    ensures ListOf(JArr(items)) == Some(items)
    ensures ListOf(JObj(map["data" := JArr(items)])) == Some(items)
    ensures ListOf(JObj(map["models" := JArr(items)])) == Some(items)
    ensures ListOf(JObj(map["data" := JArr(items), "models" := JArr(other)])) == Some(items)
    ensures ("data" !in f || !f["data"].JArr?) && ("models" !in f || !f["models"].JArr?) ==> ListOf(JObj(f)) == Some([])
  {
  }

  function NormalizeAll(list: seq<Json>, show: Json -> string): (r: seq<ModelEntry>)
    ensures |r| == |list|
    ensures forall k :: 0 <= k < |list| ==> r[k] == Normalize(list[k], show)
  {
    seq(|list|, k requires 0 <= k < |list| => Normalize(list[k], show))
  }

  /** getModels. */
  function GetModels(f: Fetched, show: Json -> string): (r: Outcome<seq<ModelEntry>>)
    ensures r.Raise? ==> r.raised.Api?
    ensures r.Done? ==> f.Responded? && f.ok && f.body.Some? && ListOf(f.body.value).Some?
    ensures r.Done? ==> |r.value| == |ListOf(f.body.value).value|
    ensures f.Responded? && !f.ok ==> r == Raise(Api(HttpError(f.status, f.statusText)))
  {
    Guarded(
      match ApiRequest(f)
      case Raise(e) => Raise(e)
      case Done(response) =>
        var list := ListOf(response);
        if list.None? then Raise(Other("TypeError")) else Done(NormalizeAll(list.value, show)))
  }

  /** A successful getModels has one model per element of the list, in the
      list's order; it fails only with an ApiError, and with the network
      error exactly when fetch failed or the body was not a non-null JSON
      value. */
  lemma GetModelsSpec(f: Fetched, show: Json -> string)
    ensures GetModels(f, show).Done? <==>
      f.Responded? && f.ok && f.body.Some? && !f.body.value.JNull?
    ensures GetModels(f, show).Done? ==>
      var list := ListOf(f.body.value).value;
      var r := GetModels(f, show).value;
      |r| == |list| && forall k :: 0 <= k < |list| ==> r[k] == Normalize(list[k], show)
    ensures GetModels(f, show).Raise? ==> GetModels(f, show).raised.Api?
    ensures f.Responded? && !f.ok ==> GetModels(f, show) == Raise(Api(HttpError(f.status, f.statusText)))
    ensures f.FetchFailed? || (f.Responded? && f.ok && (f.body.None? || f.body.value.JNull?)) ==>
      GetModels(f, show) == Raise(Api(NETWORK_ERROR))
  {
  }

  /** Elements that are not strings: an object's id is its id, else its
      name, else String(m), and its owner is owned_by, else owner, else
      "library"; null, booleans and numbers are owned by "unknown". */
  lemma NormalizeOther(m: Json, show: Json -> string)
    ensures m.JObj? && Get(m.fields, "id").Some? && JsTruthy(m.fields["id"]) ==>
      Normalize(m, show).id == m.fields["id"]
    ensures (m.JObj? && !(Get(m.fields, "id").Some? && JsTruthy(m.fields["id"]))
             && !(Get(m.fields, "name").Some? && JsTruthy(m.fields["name"]))) ==>
      Normalize(m, show).id == JStr(show(m))
    ensures m.JObj? && Get(m.fields, "owned_by").None? && Get(m.fields, "owner").None? ==>
      Normalize(m, show).ownedBy == JStr("library")
    ensures m.JNull? || m.JBool? || m.JNum? ==> Normalize(m, show) == ModelEntry(JStr(show(m)), JStr("unknown"))
    ensures Normalize(m, show).ownedBy == JStr("unknown") ==> !m.JStr? || m == JStr("") || Match(m.s, "owned_by", PyQuote) == Some("unknown")
  {
    if m.JStr? && Normalize(m, show).ownedBy == JStr("unknown") {
      assert Match(m.s, "owned_by", PyQuote).Some?;
    }
  }

  /** A string element: an id written as a dict entry is extracted, a
      string with no match is its own id, and the owner defaults to
      "library". */
  lemma FromStringSpec(pre: string, v: string, quote: char, post: string, s: string)
    requires PyQuote(quote) && v != []
    requires forall k :: 0 <= k < |pre| ==> !PyQuote(pre[k])
    requires forall k :: 0 <= k < |v| ==> !PyQuote(v[k])
    ensures FromString(pre + Entry("id", v, quote) + post).id == JStr(v)
    ensures Match(s, "id", PyQuote).None? && Match(s, "id", JsonQuote).None? ==> FromString(s).id == JStr(s)
    ensures Match(s, "owned_by", PyQuote).None? ==> FromString(s).ownedBy == JStr("library")
  {
    EntryFound(pre, "id", v, quote, post, PyQuote);
  }

  /** The JSON-style pattern is tried only when the Python-style one fails;
      it still matters, for a value that starts with a single quote. */
  lemma JsonStyleFallback(v: string)
    requires v != [] && forall k :: 0 <= k < |v| ==> v[k] != '"'
    requires v[0] == '\''
    ensures Match(Entry("id", v, '"'), "id", JsonQuote) == Some(v)
    ensures At(Entry("id", v, '"'), "id", PyQuote)(0).None?
  {
    var m := Entry("id", v, '"');
    EntryFound([], "id", v, '"', [], JsonQuote);
    assert [] + m + [] == m;
    PyStyleStopsAtQuote(v);
  }

  lemma PyStyleStopsAtQuote(v: string)
    requires v != [] && v[0] == '\''
    ensures MatchAt(Entry("id", v, '"'), "id", PyQuote, 0).None?
  {
    var m := Entry("id", v, '"');
    EntryPlaced([], "id", v, '"', []);
    assert [] + m + [] == m;
    assert m[7..7 + |v|] == v;
    assert m[7] == v[0];
    assert m[4] == ':' && m[5] == ' ' && m[6] == '"';
    assert SkipSpace(m, 4) == 4;
    assert SkipSpace(m, 6) == 6;
    assert SkipSpace(m, 5) == 6;
    assert SkipValue(m, 7, PyQuote) == 7;
  }
}
