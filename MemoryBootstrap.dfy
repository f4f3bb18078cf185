/**
 * gateway/memory_bootstrap.py: the system messages prepended to a chat, a
 * persona text, a summary of core.json and the tail of the latest digest,
 * trimmed towards a character budget.
 *
 * The files are inputs: a text that is missing or unreadable is "", and
 * core.json is None when it is missing or does not parse.  Every message has
 * role "system", so the trimming works on the contents alone.  The order of a
 * dict's keys is the parameter keyOrder, and str() of a value that is not a
 * string is the parameter show.
 */
module MemoryBootstrap {
  import opened Common
  import CoreMemoryHandler

  const DIGEST_MARK := "Recent digest entries:"
  const DIGEST_PREFIX := "Recent digest entries:\n"
  const DIGEST_TAIL := 2000
  const SEP := "\n\n"
  /** The trimming loop keeps the last CUT characters of a long message. */
  const CUT := 1000

  // ---------------------------------------------------------------------
  // _compact_json_summary

  /** f"{v}": the text of a string, show(v) for any other value. */
  function Str(v: Json, show: Json -> string): string {
    if v.JStr? then v.s else show(v)
  }

  function GetOr(d: Obj, k: string, default: Json): Json {
    if k in d then d[k] else default
  }

  /** sep.join(v): the strings v iterates over; a TypeError when v is not
      iterable or yields something other than a string. */
  function JoinIterable(v: Json, sep: string, keyOrder: Obj -> seq<string>): Result<string> {
    match CoreMemoryHandler.Items(v, keyOrder)
    case Err(e) => Err(e)
    case Ok(xs) =>
      if forall i :: 0 <= i < |xs| ==> xs[i].JStr?
      then Ok(Join(seq(|xs|, i requires 0 <= i < |xs| && xs[i].JStr? => xs[i].s), sep))
      else Err("TypeError")
  }

  function IdentityLine(identity: Obj, show: Json -> string): string {
    "Identity: " + Str(GetOr(identity, "name", JStr("")), show) + " \U{2014} "
    + Str(GetOr(identity, "role", JStr("")), show) + ". " + Str(GetOr(identity, "description", JStr("")), show)
  }

  function RelationshipsLine(rel: Obj, keyOrder: Obj -> seq<string>, show: Json -> string): string {
    var ks := keyOrder(rel);
    "Relationships: " + Join(seq(|ks|, i requires 0 <= i < |ks| => ks[i] + ": " + Str(GetOr(rel, ks[i], JNull), show)), ", ")
  }

  /** The four fields, with the defaults data.get gives them. */
  function Fields(d: Obj): seq<Json> {
    [GetOr(d, "identity", JObj(map[])), GetOr(d, "relationships", JObj(map[])),
     GetOr(d, "capabilities", JArr([])), GetOr(d, "principles", JArr([]))]
  }

  const LABELS: seq<string> := ["Identity: ", "Relationships: ", "Capabilities: ", "Principles: "]

  /** The parts of the summary, or the exception its try block catches. */
  function SummaryParts(data: Json, keyOrder: Obj -> seq<string>, show: Json -> string): Result<seq<string>> {
    if !data.JObj? then Err("AttributeError")
    else
      var f := Fields(data.fields);
      if PyTruthy(f[0]) && !f[0].JObj? then Err("AttributeError")
      else if PyTruthy(f[1]) && !f[1].JObj? then Err("AttributeError")
      else
        var caps := if PyTruthy(f[2]) then JoinIterable(f[2], "; ", keyOrder) else Ok("");
        var prins := if PyTruthy(f[3]) then JoinIterable(f[3], "; ", keyOrder) else Ok("");
        if caps.Err? then Err(caps.error)
        else if prins.Err? then Err(prins.error)
        else
          Ok(Lines(f, caps.value, prins.value, keyOrder, show))
  }

  /** The line of each truthy field, in field order. */
  function Lines(f: seq<Json>, caps: string, prins: string, keyOrder: Obj -> seq<string>, show: Json -> string): seq<string>
    requires |f| == 4
  {
    Opt(PyTruthy(f[0]), IdentityLine(if f[0].JObj? then f[0].fields else map[], show))
    + Opt(PyTruthy(f[1]), RelationshipsLine(if f[1].JObj? then f[1].fields else map[], keyOrder, show))
    + Opt(PyTruthy(f[2]), LABELS[2] + caps)
    + Opt(PyTruthy(f[3]), LABELS[3] + prins)
  }

  function Opt<T>(b: bool, x: T): seq<T> {
    if b then [x] else []
  }

  /** _compact_json_summary(data): the parts joined by newlines, json.dumps(data)
      when building them raised. */
  function Summary(data: Json, keyOrder: Obj -> seq<string>, show: Json -> string, dumps: Json -> string): string {
    match SummaryParts(data, keyOrder, show)
    case Ok(parts) => Join(parts, "\n")
    case Err(_) => dumps(data)
  }

  /** The indices of the truthy fields, in field order. */
  function Present(d: Obj): seq<nat> {
    PresentOf(Fields(d))
  }

  function PresentOf(f: seq<Json>): seq<nat>
    requires |f| == 4
  {
    Opt(PyTruthy(f[0]), 0) + Opt(PyTruthy(f[1]), 1) + Opt(PyTruthy(f[2]), 2) + Opt(PyTruthy(f[3]), 3)
  }

  /** r lists, in increasing order, exactly the truthy fields below n. */
  predicate PicksBelow(r: seq<nat>, f: seq<Json>, n: nat)
    requires |f| == 4 && n <= 4
  {
    (forall k :: 0 <= k < |r| ==> r[k] < n && PyTruthy(f[r[k]]))
    && (forall i :: 0 <= i < n && PyTruthy(f[i]) ==> i in r)
    && (forall j, k :: 0 <= j < k < |r| ==> r[j] < r[k])
  }

  lemma PicksSnoc(r: seq<nat>, f: seq<Json>, n: nat)
    requires |f| == 4 && n < 4 && PicksBelow(r, f, n)
    ensures PicksBelow(r + Opt(PyTruthy(f[n]), n), f, n + 1)
  {
  }

  /** The present fields are exactly the truthy ones, in field order. */
  lemma {:induction false} PresentSpec(d: Obj)
    ensures PicksBelow(Present(d), Fields(d), 4)
  {
    var f := Fields(d);
    assert PicksBelow([], f, 0);
    PicksSnoc([], f, 0);
    var r1 := Opt(PyTruthy(f[0]), 0);
    assert [] + r1 == r1;
    PicksSnoc(r1, f, 1);
    PicksSnoc(r1 + Opt(PyTruthy(f[1]), 1), f, 2);
    PicksSnoc(r1 + Opt(PyTruthy(f[1]), 1) + Opt(PyTruthy(f[2]), 2), f, 3);
  }

  /** Lines labelled by the sections listed in present, in that order. */
  predicate Labelled(parts: seq<string>, present: seq<nat>) {
    |parts| == |present| && forall k :: 0 <= k < |parts| ==> present[k] < 4 && StartsWith(parts[k], LABELS[present[k]])
  }

  lemma LabelledSnoc(parts: seq<string>, present: seq<nat>, b: bool, line: string, i: nat)
    requires Labelled(parts, present) && i < 4 && StartsWith(line, LABELS[i])
    ensures Labelled(parts + Opt(b, line), present + Opt(b, i))
  {
  }

  lemma LabelOf(lbl: string, rest: string)
    ensures StartsWith(lbl + rest, lbl)
  {
    assert (lbl + rest)[..|lbl|] == lbl;
  }

  /** Each line starts with the label of its field. */
  lemma {:induction false} LinesLabelled(f: seq<Json>, caps: string, prins: string, keyOrder: Obj -> seq<string>, show: Json -> string)
    requires |f| == 4
    ensures Labelled(Lines(f, caps, prins, keyOrder, show), PresentOf(f))
  {
    var l0 := IdentityLine(if f[0].JObj? then f[0].fields else map[], show);
    var l1 := RelationshipsLine(if f[1].JObj? then f[1].fields else map[], keyOrder, show);
    var l2 := LABELS[2] + caps;
    var l3 := LABELS[3] + prins;
    LabelOf(LABELS[0], l0[|LABELS[0]|..]);
    assert l0 == LABELS[0] + l0[|LABELS[0]|..];
    LabelOf(LABELS[1], l1[|LABELS[1]|..]);
    assert l1 == LABELS[1] + l1[|LABELS[1]|..];
    LabelOf(LABELS[2], caps);
    LabelOf(LABELS[3], prins);
    assert Labelled([], []);
    LabelledSnoc([], [], PyTruthy(f[0]), l0, 0);
    var p1, q1 := Opt(PyTruthy(f[0]), l0), Opt(PyTruthy(f[0]), 0);
    assert [] + p1 == p1 && [] + q1 == q1;
    LabelledSnoc(p1, q1, PyTruthy(f[1]), l1, 1);
    LabelledSnoc(p1 + Opt(PyTruthy(f[1]), l1), q1 + Opt(PyTruthy(f[1]), 1), PyTruthy(f[2]), l2, 2);
    LabelledSnoc(p1 + Opt(PyTruthy(f[1]), l1) + Opt(PyTruthy(f[2]), l2),
                 q1 + Opt(PyTruthy(f[1]), 1) + Opt(PyTruthy(f[2]), 2), PyTruthy(f[3]), l3, 3);
  }

  /** A summary that is built has one line per truthy field, in the order
      Identity, Relationships, Capabilities, Principles, each line starting
      with its label. */
  lemma SummarySections(data: Json, keyOrder: Obj -> seq<string>, show: Json -> string)
    requires SummaryParts(data, keyOrder, show).Ok?
    ensures Labelled(SummaryParts(data, keyOrder, show).value, Present(data.fields))
  {
    var f := Fields(data.fields);
    var caps := if PyTruthy(f[2]) then JoinIterable(f[2], "; ", keyOrder) else Ok("");
    var prins := if PyTruthy(f[3]) then JoinIterable(f[3], "; ", keyOrder) else Ok("");
    LinesLabelled(f, caps.value, prins.value, keyOrder, show);
  }

  /** A built summary is empty exactly when every field is empty, so the core
      message is added exactly when some field is set. */
  lemma SummaryEmpty(data: Json, keyOrder: Obj -> seq<string>, show: Json -> string, dumps: Json -> string)
    requires SummaryParts(data, keyOrder, show).Ok?
    ensures Summary(data, keyOrder, show, dumps) == "" <==> Present(data.fields) == []
  {
    var parts := SummaryParts(data, keyOrder, show).value;
    SummarySections(data, keyOrder, show);
    if parts != [] {
      JoinLength(parts, "\n");
      assert |parts[0]| > 0;
    }
  }

  /** A summary falls back to json.dumps when data is not an object, when
      identity or relationships is set but not an object, or when a list to
      join holds something other than strings. */
  lemma SummaryFallback(data: Json, keyOrder: Obj -> seq<string>, show: Json -> string, dumps: Json -> string)
    requires !data.JObj?
      || (var f := Fields(data.fields); (PyTruthy(f[0]) && !f[0].JObj?) || (PyTruthy(f[1]) && !f[1].JObj?))
      || (var f := Fields(data.fields); PyTruthy(f[2]) && f[2].JArr? && exists i :: 0 <= i < |f[2].items| && !f[2].items[i].JStr?)
    ensures Summary(data, keyOrder, show, dumps) == dumps(data)
  {
  }

  // ---------------------------------------------------------------------
  // Collecting the messages

  /** The contents collected before any trimming: the stripped persona, the
      core summary and the digest tail, each when present. */
  function Collected(persona: string, core: Option<Json>, digest: string,
                     keyOrder: Obj -> seq<string>, show: Json -> string, dumps: Json -> string): seq<string> {
    var summary := if core.Some? then Summary(core.value, keyOrder, show, dumps) else "";
    (if persona != "" then [PyStrip(persona)] else [])
    + (if summary != "" then ["Core memory summary:\n" + summary] else [])
    + (if digest != "" then [DIGEST_PREFIX + SliceFrom(digest, -DIGEST_TAIL)] else [])
  }

  /** The messages come in the order persona, core summary, digest, and the
      digest message holds at most the last 2000 characters of the digest. */
  lemma CollectedOrder(persona: string, core: Option<Json>, digest: string,
                       keyOrder: Obj -> seq<string>, show: Json -> string, dumps: Json -> string)
    ensures var c := Collected(persona, core, digest, keyOrder, show, dumps);
      var hasCore := core.Some? && Summary(core.value, keyOrder, show, dumps) != "";
      && |c| == (if persona != "" then 1 else 0) + (if hasCore then 1 else 0) + (if digest != "" then 1 else 0)
      && (persona != "" ==> c[0] == PyStrip(persona))
      && (hasCore ==> StartsWith(c[if persona != "" then 1 else 0], "Core memory summary:\n"))
      && (digest != "" ==>
            && c[|c| - 1] == DIGEST_PREFIX + SliceFrom(digest, -DIGEST_TAIL)
            && |SliceFrom(digest, -DIGEST_TAIL)| == (if |digest| <= DIGEST_TAIL then |digest| else DIGEST_TAIL)
            && SliceFrom(digest, -DIGEST_TAIL) == digest[|digest| - |SliceFrom(digest, -DIGEST_TAIL)|..])
  {
    SliceFromNegIsSuffix(digest, DIGEST_TAIL);
  }

  /** The budget test: the contents joined by blank lines fit in maxChars. */
  predicate Fits(msgs: seq<string>, maxChars: int) {
    |Join(msgs, SEP)| <= maxChars
  }

  /** del msgs[i]. */
  function Without(msgs: seq<string>, i: nat): (r: seq<string>)
    requires i < |msgs|
    ensures |r| == |msgs| - 1
  {
    msgs[..i] + msgs[i + 1..]
  }

  lemma SumWithout(msgs: seq<string>, i: nat)
    requires i < |msgs|
    ensures SumLengths(msgs) == SumLengths(Without(msgs, i)) + |msgs[i]|
  {
    assert msgs == msgs[..i] + ([msgs[i]] + msgs[i + 1..]);
    SumLengthsAppend(msgs[..i], [msgs[i]] + msgs[i + 1..]);
    SumLengthsAppend([msgs[i]], msgs[i + 1..]);
    SumLengthsAppend(msgs[..i], msgs[i + 1..]);
  }

  lemma SumUpdate(msgs: seq<string>, i: nat, x: string)
    requires i < |msgs|
    ensures SumLengths(msgs[i := x]) == SumLengths(Without(msgs, i)) + |x|
  {
    SumWithout(msgs[i := x], i);
    assert Without(msgs[i := x], i) == Without(msgs, i);
  }

  /** The length of the joined contents. */
  lemma JoinedLength(msgs: seq<string>)
    ensures |Join(msgs, SEP)| == SumLengths(msgs) + if msgs == [] then 0 else 2 * (|msgs| - 1)
  {
    JoinLength(msgs, SEP);
  }

  // ---------------------------------------------------------------------
  // Trimming the digest

  /** The last message that starts with the digest mark. */
  function LastMarked(msgs: seq<string>): (r: Option<nat>)
    ensures r.Some? ==> r.value < |msgs| && StartsWith(msgs[r.value], DIGEST_MARK)
    ensures r.Some? ==> forall j :: r.value < j < |msgs| ==> !StartsWith(msgs[j], DIGEST_MARK)
    ensures r.None? ==> forall j :: 0 <= j < |msgs| ==> !StartsWith(msgs[j], DIGEST_MARK)
  {
    if msgs == [] then None
    else if StartsWith(msgs[|msgs| - 1], DIGEST_MARK) then Some(|msgs| - 1)
    else LastMarked(msgs[..|msgs| - 1])
  }

  /** The room left for the digest text once the other messages, the prefix
      and six characters of slack are counted. */
  function Remaining(msgs: seq<string>, i: nat, maxChars: int): int
    requires i < |msgs|
  {
    maxChars - |Join(Without(msgs, i), SEP)| - |DIGEST_PREFIX| - 6
  }

  /** The digest message cut to the prefix and the last remaining characters. */
  function CutDigest(content: string, remaining: int): string {
    DIGEST_PREFIX + SliceFrom(SliceFrom(content, |DIGEST_PREFIX|), -remaining)
  }

  /** The first trimming step: the last marked message is removed when no
      room is left for it and otherwise keeps the prefix and the last
      remaining characters of its text; with no marked message nothing changes. */
  function DigestTrimmed(msgs: seq<string>, maxChars: int): seq<string> {
    match LastMarked(msgs)
    case None => msgs
    case Some(i) =>
      if Remaining(msgs, i, maxChars) <= 0 then Without(msgs, i)
      else msgs[i := CutDigest(msgs[i], Remaining(msgs, i, maxChars))]
  }

  /** When the digest is kept, cutting it is enough: the messages then fit. */
  lemma DigestTrimFits(msgs: seq<string>, maxChars: int)
    requires LastMarked(msgs).Some? && Remaining(msgs, LastMarked(msgs).value, maxChars) > 0
    ensures Fits(DigestTrimmed(msgs, maxChars), maxChars)
  {
    var i := LastMarked(msgs).value;
    var rem := Remaining(msgs, i, maxChars);
    var c := CutDigest(msgs[i], rem);
    var r := msgs[i := c];
    SliceFromNegIsSuffix(SliceFrom(msgs[i], |DIGEST_PREFIX|), rem);
    assert |c| <= |DIGEST_PREFIX| + rem;
    JoinedLength(r);
    JoinedLength(Without(msgs, i));
    SumUpdate(msgs, i, c);
  }

  /** A message starting with the mark cut with room to spare still starts
      with the prefix and ends with the end of the original text. */
  lemma CutDigestKeepsTail(content: string, remaining: int)
    requires remaining > 0 && |DIGEST_PREFIX| <= |content|
    ensures var c := CutDigest(content, remaining);
      var n := |c| - |DIGEST_PREFIX|;
      && StartsWith(c, DIGEST_PREFIX)
      && n == (if remaining <= |content| - |DIGEST_PREFIX| then remaining else |content| - |DIGEST_PREFIX|)
      && c[|DIGEST_PREFIX|..] == content[|content| - n..]
  {
    var body := SliceFrom(content, |DIGEST_PREFIX|);
    SliceFromNegIsSuffix(body, remaining);
    var c := CutDigest(content, remaining);
    assert c[|DIGEST_PREFIX|..] == SliceFrom(body, -remaining);
  }

  /** The loop of load_bootstrap_messages that looks for the digest from the end. */
  method TrimDigest(msgs: seq<string>, maxChars: int) returns (r: seq<string>)
    ensures r == DigestTrimmed(msgs, maxChars)
    ensures |r| <= |msgs|
  {
    r := msgs;
    var i := |msgs|;
    while i > 0
      invariant 0 <= i <= |msgs|
      invariant forall j :: i <= j < |msgs| ==> !StartsWith(msgs[j], DIGEST_MARK)
      invariant LastMarked(msgs) == LastMarked(msgs[..i])
    {
      assert msgs[..i][..i - 1] == msgs[..i - 1];
      if StartsWith(msgs[i - 1], DIGEST_MARK) {
        var content := SliceFrom(msgs[i - 1], |DIGEST_PREFIX|);
        var others := Join(Without(msgs, i - 1), SEP);
        var remaining := maxChars - |others| - |DIGEST_PREFIX| - 6;
        if remaining <= 0 {
          r := Without(msgs, i - 1);
        } else {
          r := msgs[i - 1 := DIGEST_PREFIX + SliceFrom(content, -remaining)];
        }
        return;
      }
      i := i - 1;
    }
  }

  // ---------------------------------------------------------------------
  // The fallback loop

  /** The index the loop picks: the longest message, the last one among equals
      (the first of the (length, index) pairs sorted in reverse). */
  function Longest(msgs: seq<string>): (r: nat)
    requires msgs != []
    ensures r < |msgs|
    ensures forall j :: 0 <= j < |msgs| ==> |msgs[j]| <= |msgs[r]|
    ensures forall j :: r < j < |msgs| ==> |msgs[j]| < |msgs[r]|
  {
    if |msgs| == 1 then 0
    else
      var k := Longest(msgs[..|msgs| - 1]);
      if |msgs[|msgs| - 1]| >= |msgs[k]| then |msgs| - 1 else k
  }

  /** One pass of the loop: the longest message is cut to its last CUT
      characters when it is longer than cutAbove, and deleted otherwise.  The
      program uses cutAbove = 100. */
  function Shrink(msgs: seq<string>, cutAbove: nat): seq<string>
    requires msgs != []
  {
    var k := Longest(msgs);
    if |msgs[k]| > cutAbove then msgs[k := SliceFrom(msgs[k], -CUT)] else Without(msgs, k)
  }

  /** How the loop ends within a number of passes. */
  datatype Ending = Finished(msgs: seq<string>) | IndexError | StillLooping

  /** The program's while True loop, for at most fuel passes. */
  function TrimLoop(msgs: seq<string>, maxChars: int, fuel: nat): Ending
    decreases fuel
  {
    if Fits(msgs, maxChars) then Finished(msgs)
    else if msgs == [] then IndexError
    else if fuel == 0 then StillLooping
    else
      var next := Shrink(msgs, 100);
      if next == [] then Finished([]) else TrimLoop(next, maxChars, fuel - 1)
  }

  /** A longest message of 101 to 1000 characters is left as it is. */
  lemma ShrinkStuck(msgs: seq<string>)
    requires msgs != [] && 100 < |msgs[Longest(msgs)]| <= CUT
    ensures Shrink(msgs, 100) == msgs
  {
    var k := Longest(msgs);
    assert SliceFrom(msgs[k], -CUT) == msgs[k];
  }

  /** Once the messages are over budget and the longest has 101 to 1000
      characters, the loop never ends: no number of passes finishes it. */
  lemma {:induction false} LoopNeverEnds(msgs: seq<string>, maxChars: int, fuel: nat)
    requires !Fits(msgs, maxChars) && msgs != [] && 100 < |msgs[Longest(msgs)]| <= CUT
    ensures TrimLoop(msgs, maxChars, fuel) == StillLooping
    decreases fuel
  {
    if fuel > 0 {
      ShrinkStuck(msgs);
      LoopNeverEnds(msgs, maxChars, fuel - 1);
    }
  }

  /** A persona of 200 characters under a budget of 150 runs forever. */
  lemma StuckPersona(fuel: nat)
    ensures TrimLoop([seq(200, _ => 'a')], 150, fuel) == StillLooping
  {
    var msgs := [seq(200, _ => 'a')];
    assert Longest(msgs) == 0;
    assert Join(msgs, SEP) == msgs[0];
    LoopNeverEnds(msgs, 150, fuel);
  }

  /** The loop as the budget evidently intends it: a message longer than CUT
      is cut to its last CUT characters, a shorter one is deleted, until the
      messages fit or none is left.  Every pass makes progress, so it ends.
      An empty list over budget (a negative budget) is the IndexError of
      lengths[0]. */
  function ShrinkAll(msgs: seq<string>, maxChars: int): (r: Result<seq<string>>)
    ensures r.Err? <==> msgs == [] && maxChars < 0
    ensures r.Err? ==> r.error == "IndexError"
    ensures r.Ok? ==> Fits(r.value, maxChars) || r.value == []
    ensures r.Ok? ==> |r.value| <= |msgs|
    ensures Fits(msgs, maxChars) ==> r == Ok(msgs)
    decreases SumLengths(msgs) + |msgs|
  {
    if Fits(msgs, maxChars) then Ok(msgs)
    else if msgs == [] then Err("IndexError")
    else
      ShrinkProgress(msgs);
      var next := Shrink(msgs, CUT);
      ShrinkLength(msgs);
      if next == [] then Ok([]) else ShrinkAll(next, maxChars)
  }

  /** A pass never adds a message. */
  lemma ShrinkLength(msgs: seq<string>)
    requires msgs != []
    ensures |Shrink(msgs, CUT)| <= |msgs|
  {
  }

  /** The messages that are not the longest survive a pass unchanged, and
      the longest is either its last CUT characters or gone. */
  lemma ShrinkKeepsOthers(msgs: seq<string>)
    requires msgs != []
    ensures var k := Longest(msgs);
      if |msgs[k]| > CUT then Shrink(msgs, CUT) == msgs[k := msgs[k][|msgs[k]| - CUT..]]
      else Shrink(msgs, CUT) == msgs[..k] + msgs[k + 1..]
  {
  }

  /** The fallback loop of load_bootstrap_messages, corrected. */
  method ShrinkToFit(msgs: seq<string>, maxChars: int) returns (r: Result<seq<string>>)
    ensures r == ShrinkAll(msgs, maxChars)
  {
    var cur := msgs;
    while !Fits(cur, maxChars)
      invariant ShrinkAll(cur, maxChars) == ShrinkAll(msgs, maxChars)
      decreases SumLengths(cur) + |cur|
    {
      if cur == [] {
        return Err("IndexError");
      }
      ShrinkProgress(cur);
      cur := Shrink(cur, CUT);
      if cur == [] {
        return Ok([]);
      }
    }
    return Ok(cur);
  }

  /** With cutAbove = CUT each pass shortens the messages or drops one. */
  lemma ShrinkProgress(msgs: seq<string>)
    requires msgs != []
    ensures SumLengths(Shrink(msgs, CUT)) + |Shrink(msgs, CUT)| < SumLengths(msgs) + |msgs|
  {
    var k := Longest(msgs);
    SumWithout(msgs, k);
    if |msgs[k]| > CUT {
      SumUpdate(msgs, k, SliceFrom(msgs[k], -CUT));
    }
  }

  /** The messages a chat request is given. */
  datatype Message = Message(role: string, content: string)

  function AsMessages(contents: seq<string>): (r: seq<Message>)
    ensures |r| == |contents|
    ensures forall i :: 0 <= i < |r| ==> r[i] == Message("system", contents[i])
  {
    seq(|contents|, i requires 0 <= i < |contents| => Message("system", contents[i]))
  }

  function Contents(ms: seq<Message>): seq<string> {
    seq(|ms|, i requires 0 <= i < |ms| => ms[i].content)
  }

  lemma ContentsOf(contents: seq<string>)
    ensures Contents(AsMessages(contents)) == contents
  {
  }

  /** load_bootstrap_messages, with the fallback loop as intended: the
      collected messages when they fit, otherwise the digest trimmed and then
      the longest messages shortened or dropped until they fit. */
  method LoadBootstrapMessages(persona: string, core: Option<Json>, digest: string, maxChars: int,
                               keyOrder: Obj -> seq<string>, show: Json -> string, dumps: Json -> string)
    returns (r: Result<seq<Message>>)
    ensures var msgs := Collected(persona, core, digest, keyOrder, show, dumps);
      Fits(msgs, maxChars) ==> r == Ok(AsMessages(msgs))
    ensures var msgs := Collected(persona, core, digest, keyOrder, show, dumps);
      var s := ShrinkAll(DigestTrimmed(msgs, maxChars), maxChars);
      !Fits(msgs, maxChars) ==>
        && (r.Ok? <==> s.Ok?)
        && (r.Ok? ==> r.value == AsMessages(s.value))
        && (r.Err? ==> r.error == s.error)
    ensures r.Ok? ==> forall i :: 0 <= i < |r.value| ==> r.value[i].role == "system"
    ensures r.Ok? ==> |r.value| <= |Collected(persona, core, digest, keyOrder, show, dumps)|
    ensures r.Ok? && r.value != [] ==> Fits(Contents(r.value), maxChars)
  {
    var msgs := Collected(persona, core, digest, keyOrder, show, dumps);
    if Fits(msgs, maxChars) {
      ContentsOf(msgs);
      return Ok(AsMessages(msgs));
    }
    var trimmed := TrimDigest(msgs, maxChars);
    var fitted := ShrinkToFit(trimmed, maxChars);
    if fitted.Err? {
      return Err(fitted.error);
    }
    ContentsOf(fitted.value);
    r := Ok(AsMessages(fitted.value));
  }
}
