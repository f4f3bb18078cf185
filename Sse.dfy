/**
 * openweb-ui-frontend/src/lib/sse.ts: a client for a stream of server-sent
 * events.  It is a simplified reading of the event-stream format of section
 * 9.2, Server-sent events, of the WHATWG HTML Living Standard.  Text
 * arrives in chunks and is cut into lines at "\n".  Each complete line is
 * handled on its own: a "data:" line delivers its trimmed payload, and the
 * OpenAI-style payload [DONE] ends the stream.  A failed connection is
 * retried at most three times, with doubling delays.
 *
 * fetch, the body's reader and the TextDecoder are collaborators.  A
 * connection attempt is given what fetch gave, the decoded chunks the
 * reader delivered, and how the reading ended.  The callbacks are recorded
 * as the sequence of events they receive.  setTimeout is recorded as the
 * delay of the retry it schedules; the retried connect is a later call.
 */
module Sse {
  import opened Common

  const MAX_RETRIES := 3
  const RETRY_DELAY := 1000
  const DONE := "[DONE]"

  /** The reason passed to onError. */
  datatype Failure = HttpStatus(status: int) | NotReadable | Thrown(error: string)

  /** A callback invocation: onMessage, onComplete or onError. */
  datatype Event = Message(data: string) | Complete | Error(failure: Failure)

  /** What fetch gave: an exception (raised because the connection was
      aborted, or for another reason) or a response. */
  datatype Fetched = Threw(error: string, aborted: bool) | Responded(ok: bool, status: int, readable: bool)

  /** How reading ended after the given chunks: the reader said done, read
      failed, or disconnect was called while no read was pending (the loop
      sees the aborted signal) or during a read (which then rejects). */
  datatype StreamEnd = Ended | ReadFailed(error: string) | AbortedIdle | AbortedInRead

  // ---------------------------------------------------------------------
  // Lines and their dispatch

  /** The payload of a data line: what follows "data:", trimmed. */
  function Payload(line: string): Option<string> {
    if StartsWith(line, "data:") then Some(JsTrim(line[5..])) else None
  }

  /** The onMessage payloads of lines, given how a line's payload is found. */
  function DataEvents(lines: seq<string>, pl: string -> Option<string>): (r: seq<Event>) {
    if lines == [] then []
    else (if pl(lines[0]).Some? then [Message(pl(lines[0]).value)] else []) + DataEvents(lines[1..], pl)
  }

  datatype Dispatched = Dispatched(events: seq<Event>, done: bool)

  /** The for loop over the complete lines of a chunk, given how a line's
      payload is found: it stops at the first [DONE], which calls
      onComplete. */
  function DispatchWith(lines: seq<string>, pl: string -> Option<string>): Dispatched {
    if lines == [] then Dispatched([], false)
    else if pl(lines[0]) == Some(DONE) then Dispatched([Complete], true)
    else
      var rest := DispatchWith(lines[1..], pl);
      Dispatched((if pl(lines[0]).Some? then [Message(pl(lines[0]).value)] else []) + rest.events, rest.done)
  }

  function Dispatch(lines: seq<string>): Dispatched {
    DispatchWith(lines, Payload)
  }

  predicate IsDone(line: string) {
    Payload(line) == Some(DONE)
  }

  lemma {:induction false} DispatchNoDone(lines: seq<string>, pl: string -> Option<string>)
    requires forall k :: 0 <= k < |lines| ==> pl(lines[k]) != Some(DONE)
    ensures DispatchWith(lines, pl) == Dispatched(DataEvents(lines, pl), false)
  {
    if lines != [] {
      assert forall k :: 0 <= k < |lines| - 1 ==> lines[1..][k] == lines[k + 1];
      DispatchNoDone(lines[1..], pl);
    }
  }

  lemma {:induction false} DispatchFirstDone(lines: seq<string>, pl: string -> Option<string>, n: nat)
    requires n < |lines| && pl(lines[n]) == Some(DONE)
    requires forall k :: 0 <= k < n ==> pl(lines[k]) != Some(DONE)
    ensures DispatchWith(lines, pl) == Dispatched(DataEvents(lines[..n], pl) + [Complete], true)
  {
    if n > 0 {
      assert lines[1..][n - 1] == lines[n];
      assert forall k :: 0 <= k < n - 1 ==> lines[1..][k] == lines[k + 1];
      DispatchFirstDone(lines[1..], pl, n - 1);
      assert lines[..n][0] == lines[0];
      assert lines[..n][1..] == lines[1..][..n - 1];
    }
  }

  /** Without a [DONE] line, every data line delivers its payload, in order,
      and nothing else is called. */
  lemma DispatchSpec(lines: seq<string>)
    requires forall k :: 0 <= k < |lines| ==> !IsDone(lines[k])
    ensures Dispatch(lines) == Dispatched(DataEvents(lines, Payload), false)
  {
    DispatchNoDone(lines, Payload);
  }

  /** With one, the lines before the first [DONE] do, followed by one
      onComplete, and the lines after it are ignored. */
  lemma DispatchStopsAtDone(lines: seq<string>, n: nat)
    requires n < |lines| && IsDone(lines[n])
    requires forall k :: 0 <= k < n ==> !IsDone(lines[k])
    ensures Dispatch(lines) == Dispatched(DataEvents(lines[..n], Payload) + [Complete], true)
  {
    DispatchFirstDone(lines, Payload, n);
  }

  lemma {:induction false} DispatchWithAppend(a: seq<string>, b: seq<string>, pl: string -> Option<string>)
    ensures DispatchWith(a + b, pl) ==
      if DispatchWith(a, pl).done then DispatchWith(a, pl)
      else Dispatched(DispatchWith(a, pl).events + DispatchWith(b, pl).events, DispatchWith(b, pl).done)
  {
    if a == [] {
      assert a + b == b;
    } else {
      assert (a + b)[0] == a[0];
      assert (a + b)[1..] == a[1..] + b;
      DispatchWithAppend(a[1..], b, pl);
    }
  }

  /** Dispatching two runs of lines: the second only when the first saw no
      [DONE]. */
  lemma DispatchAppend(a: seq<string>, b: seq<string>)
    ensures Dispatch(a + b) ==
      if Dispatch(a).done then Dispatch(a)
      else Dispatched(Dispatch(a).events + Dispatch(b).events, Dispatch(b).done)
  {
    DispatchWithAppend(a, b, Payload);
  }

  /** The complete lines in the buffer and a new chunk, and the unfinished
      text that stays in the buffer. */
  function Cut(buffer: string, chunk: string): (r: (seq<string>, string)) {
    var parts := SplitOn(buffer + chunk, '\n');
    (parts[..|parts| - 1], parts[|parts| - 1])
  }

  /** The state of the reading loop: the buffer, every complete line cut so
      far, the callbacks made, and whether [DONE] was seen. */
  datatype Scan = Scan(buffer: string, lines: seq<string>, events: seq<Event>, done: bool)

  /** The reading loop over a sequence of chunks, given how a line's payload
      is found. */
  function RunWith(chunks: seq<string>, pl: string -> Option<string>): Scan {
    if chunks == [] then Scan("", [], [], false)
    else
      var before := RunWith(chunks[..|chunks| - 1], pl);
      if before.done then before
      else
        var (lines, rest) := Cut(before.buffer, chunks[|chunks| - 1]);
        var d := DispatchWith(lines, pl);
        Scan(rest, before.lines + lines, before.events + d.events, d.done)
  }

  function Run(chunks: seq<string>): Scan {
    RunWith(chunks, Payload)
  }

  function Concat(chunks: seq<string>): string {
    if chunks == [] then "" else Concat(chunks[..|chunks| - 1]) + chunks[|chunks| - 1]
  }

  /** Cutting loses no text: the lines and the rest, joined by "\n", are the
      buffer and the chunk, and the rest holds no "\n". */
  lemma CutSpec(buffer: string, chunk: string)
    ensures var (lines, rest) := Cut(buffer, chunk);
      Join(lines + [rest], "\n") == buffer + chunk && '\n' !in rest
      && forall k :: 0 <= k < |lines| ==> '\n' !in lines[k]
  {
    var parts := SplitOn(buffer + chunk, '\n');
    JoinSplit(buffer + chunk, '\n');
    SplitOnNoSep(buffer + chunk, '\n');
    assert parts[..|parts| - 1] + [parts[|parts| - 1]] == parts;
  }

  /** No piece of a split holds the separator. */
  lemma {:induction false} SplitOnNoSep(s: string, c: char)
    ensures forall k :: 0 <= k < |SplitOn(s, c)| ==> c !in SplitOn(s, c)[k]
    decreases |s|
  {
    if s != [] {
      SplitOnNoSep(s[1..], c);
    }
  }

  /** The callbacks are the dispatch of every complete line cut so far. */
  lemma {:induction false} RunEvents(chunks: seq<string>, pl: string -> Option<string>)
    ensures var s := RunWith(chunks, pl);
      s.events == DispatchWith(s.lines, pl).events && s.done == DispatchWith(s.lines, pl).done
  {
    if chunks != [] {
      var before := RunWith(chunks[..|chunks| - 1], pl);
      RunEvents(chunks[..|chunks| - 1], pl);
      if !before.done {
        var (lines, rest) := Cut(before.buffer, chunks[|chunks| - 1]);
        DispatchWithAppend(before.lines, lines, pl);
      }
    }
  }

  /** Until [DONE], the buffer holds only the text after the last "\n", and
      every complete line was cut exactly once, in the order the text
      arrived. */
  lemma {:induction false} RunText(chunks: seq<string>, pl: string -> Option<string>)
    requires !RunWith(chunks, pl).done
    ensures var s := RunWith(chunks, pl);
      Join(s.lines + [s.buffer], "\n") == Concat(chunks) && '\n' !in s.buffer
  {
    if chunks != [] {
      var before := RunWith(chunks[..|chunks| - 1], pl);
      var c := chunks[|chunks| - 1];
      RunText(chunks[..|chunks| - 1], pl);
      var (lines, rest) := Cut(before.buffer, c);
      CutSpec(before.buffer, c);
      JoinStep(before.lines, before.buffer, lines, rest, Concat(chunks[..|chunks| - 1]), c);
    }
  }

  /** Cutting the buffer and a chunk into lines extends the joined text by
      the chunk. */
  lemma JoinStep(done: seq<string>, buffer: string, lines: seq<string>, rest: string, text: string, chunk: string)
    requires Join(done + [buffer], "\n") == text
    requires Join(lines + [rest], "\n") == buffer + chunk
    ensures Join(done + lines + [rest], "\n") == text + chunk
  {
    if done != [] {
      JoinAppend(done, [buffer], "\n");
      JoinAppend(done, lines + [rest], "\n");
      assert done + lines + [rest] == done + (lines + [rest]);
    } else {
      assert done + lines + [rest] == lines + [rest];
    }
  }

  /** The reading loop of sse.ts: the callbacks are the dispatch of the
      complete lines, and until [DONE] no text is lost or reordered. */
  lemma RunSpec(chunks: seq<string>)
    ensures var s := Run(chunks);
      && s.events == Dispatch(s.lines).events && s.done == Dispatch(s.lines).done
      && (!s.done ==> Join(s.lines + [s.buffer], "\n") == Concat(chunks) && '\n' !in s.buffer)
  {
    RunEvents(chunks, Payload);
    if !Run(chunks).done {
      RunText(chunks, Payload);
    }
  }

  /** Once [DONE] is seen, later chunks change nothing. */
  lemma DoneIsFinal(chunks: seq<string>, more: string)
    requires Run(chunks).done
    ensures Run(chunks + [more]) == Run(chunks)
  {
    assert (chunks + [more])[..|chunks|] == chunks;
  }

  // ---------------------------------------------------------------------
  // Retries

  function Pow2(n: nat): (r: nat)
    ensures r >= 1
  {
    if n == 0 then 1 else 2 * Pow2(n - 1)
  }

  /** The catch block's retry: while fewer than three retries were made, count
      one more and schedule it after 1000 * 2^(count - 1) ms. */
  function Retried(count: nat): (nat, Option<int>) {
    if count < MAX_RETRIES then (count + 1, Some(RETRY_DELAY * Pow2(count))) else (count, None)
  }

  /** The delays scheduled by k failures in a row, starting from count. */
  function Delays(count: nat, k: nat): seq<Option<int>>
    decreases k
  {
    if k == 0 then [] else [Retried(count).1] + Delays(Retried(count).0, k - 1)
  }

  /** From a fresh client, failures schedule retries after 1, 2 and 4
      seconds, and none after that. */
  lemma {:induction false} DelaysFromFresh(k: nat)
    ensures Delays(0, k) == [Some(1000), Some(2000), Some(4000)][..if k < 3 then k else 3]
      + seq(if k < 3 then 0 else k - 3, _ => None)
  {
    if k >= 3 {
      NoMoreRetries(k - 3);
      assert Delays(0, k) == [Some(1000)] + Delays(1, k - 1);
      assert Delays(1, k - 1) == [Some(2000)] + Delays(2, k - 2);
      assert Delays(2, k - 2) == [Some(4000)] + Delays(3, k - 3);
    } else if k == 2 {
      assert Delays(0, 2) == [Some(1000)] + Delays(1, 1);
    }
  }

  lemma {:induction false} NoMoreRetries(k: nat)
    ensures Delays(MAX_RETRIES, k) == seq(k, _ => None)
  {
    if k > 0 {
      NoMoreRetries(k - 1);
    }
  }

  class SSEClient {
    /** The controller, as whether its signal is aborted; None is null. */
    var controller: Option<bool>
    var retryCount: nat

    constructor ()
      ensures controller == None && retryCount == 0 && !IsConnected()
    {
      controller, retryCount := None, 0;
    }

    /** isConnected: a controller exists and is not aborted. */
    function IsConnected(): bool
      reads this
    {
      controller.Some? && !controller.value
    }

    method Disconnect()
      modifies this`controller
      ensures controller == None && !IsConnected()
    {
      controller := None;
    }

    /** The catch block: nothing when the signal was aborted; otherwise
        onError, then the retry. */
    method Fail(failure: Failure) returns (events: seq<Event>, retryIn: Option<int>)
      modifies this`retryCount
      ensures events == [Error(failure)]
      ensures (retryCount, retryIn) == Retried(old(retryCount))
    {
      events := [Error(failure)];
      if retryCount < MAX_RETRIES {
        retryCount := retryCount + 1;
        retryIn := Some(RETRY_DELAY * Pow2(retryCount - 1));
      } else {
        retryIn := None;
      }
    }

    /** connect: one connection attempt. */
    method Connect(fetched: Fetched, chunks: seq<string>, end: StreamEnd) returns (events: seq<Event>, retryIn: Option<int>)
      modifies this
      ensures fetched.Threw? && fetched.aborted ==>
        events == [] && retryIn == None && retryCount == old(retryCount) && controller == None
      ensures fetched.Threw? && !fetched.aborted ==>
        events == [Error(Thrown(fetched.error))] && (retryCount, retryIn) == Retried(old(retryCount))
        && controller == Some(false)
      ensures fetched.Responded? && !fetched.ok ==>
        events == [Error(HttpStatus(fetched.status))] && (retryCount, retryIn) == Retried(old(retryCount))
        && controller == Some(false)
      ensures fetched.Responded? && fetched.ok && !fetched.readable ==>
        events == [Error(NotReadable)] && (retryCount, retryIn) == Retried(old(retryCount))
        && controller == Some(false)
      ensures fetched.Responded? && fetched.ok && fetched.readable ==>
        var s := Run(chunks);
        if s.done then
          events == s.events && retryIn == None && retryCount == old(retryCount) && controller == Some(false)
        else
          match end
          case Ended =>
            events == s.events && retryIn == None && retryCount == 0 && controller == Some(false)
          case AbortedIdle =>
            events == s.events && retryIn == None && retryCount == 0 && controller == None
          case AbortedInRead =>
            events == s.events && retryIn == None && retryCount == old(retryCount) && controller == None
          case ReadFailed(e) =>
            events == s.events + [Error(Thrown(e))] && (retryCount, retryIn) == Retried(old(retryCount))
            && controller == Some(false)
    {
      controller := Some(false);
      retryIn := None;
      events := [];
      if fetched.Threw? {
        if fetched.aborted {
          controller := None;
          return;
        }
        events, retryIn := Fail(Thrown(fetched.error));
        return;
      }
      if !fetched.ok {
        events, retryIn := Fail(HttpStatus(fetched.status));
        return;
      }
      if !fetched.readable {
        events, retryIn := Fail(NotReadable);
        return;
      }
      var done;
      events, done := ReadStream(chunks);
      if done {
        return;
      }
      match end {
        case Ended =>
          retryCount := 0;
        case AbortedIdle =>
          retryCount := 0;
          controller := None;
        case AbortedInRead =>
          controller := None;
        case ReadFailed(e) =>
          var failed;
          failed, retryIn := Fail(Thrown(e));
          events := events + failed;
      }
    }
  }

  /** One more line for the for loop that has not seen [DONE] yet. */
  lemma DispatchSnoc(lines: seq<string>, j: nat, pl: string -> Option<string>)
    requires j < |lines| && !DispatchWith(lines[..j], pl).done
    ensures var p := pl(lines[j]); var d := DispatchWith(lines[..j], pl);
      DispatchWith(lines[..j + 1], pl) ==
        if p == Some(DONE) then Dispatched(d.events + [Complete], true)
        else Dispatched(d.events + (if p.Some? then [Message(p.value)] else []), false)
  {
    DispatchWithAppend(lines[..j], [lines[j]], pl);
    assert lines[..j + 1] == lines[..j] + [lines[j]];
    assert [lines[j]][1..] == [];
  }

  /** After [DONE], the remaining lines are ignored. */
  lemma DispatchPrefixDone(lines: seq<string>, n: nat, pl: string -> Option<string>)
    requires n <= |lines| && DispatchWith(lines[..n], pl).done
    ensures DispatchWith(lines, pl) == DispatchWith(lines[..n], pl)
  {
    DispatchWithAppend(lines[..n], lines[n..], pl);
    assert lines[..n] + lines[n..] == lines;
  }

  /** The for loop over the complete lines of one chunk, given how a
      line's payload is found. */
  method DispatchLines(lines: seq<string>, pl: string -> Option<string>) returns (events: seq<Event>, done: bool)
    ensures events == DispatchWith(lines, pl).events && done == DispatchWith(lines, pl).done
  {
    events, done := [], false;
    var j := 0;
    while j < |lines|
      invariant j <= |lines|
      invariant events == DispatchWith(lines[..j], pl).events && !DispatchWith(lines[..j], pl).done
    {
      DispatchSnoc(lines, j, pl);
      var data := pl(lines[j]);
      if data.Some? {
        if data.value == DONE {
          events, done := events + [Complete], true;
          DispatchPrefixDone(lines, j + 1, pl);
          return;
        }
        events := events + [Message(data.value)];
      }
      j := j + 1;
    }
    assert lines[..j] == lines;
  }

  /** The while loop of connect over the chunks the reader delivers: the
      buffer keeps the unfinished last line of each chunk for the next. */
  method ReadStream(chunks: seq<string>) returns (events: seq<Event>, done: bool)
    ensures events == Run(chunks).events && done == Run(chunks).done
  {
    var buffer := "";
    events, done := [], false;
    var i := 0;
    while i < |chunks|
      invariant i <= |chunks|
      invariant Run(chunks[..i]).buffer == buffer && Run(chunks[..i]).events == events
      invariant !Run(chunks[..i]).done
    {
      assert chunks[..i + 1][..i] == chunks[..i];
      var (lines, rest) := Cut(buffer, chunks[i]);
      buffer := rest;
      var more;
      more, done := DispatchLines(lines, Payload);
      events := events + more;
      if done {
        TakeDoneRun(chunks, i + 1);
        return;
      }
      i := i + 1;
    }
    assert chunks[..i] == chunks;
  }

  /** Once a prefix of the chunks reaches [DONE], the whole run ends there. */
  lemma {:induction false} TakeDoneRun(chunks: seq<string>, n: nat)
    requires n <= |chunks| && Run(chunks[..n]).done
    ensures Run(chunks) == Run(chunks[..n])
    decreases |chunks| - n
  {
    if n < |chunks| {
      DoneIsFinal(chunks[..n], chunks[n]);
      assert chunks[..n + 1] == chunks[..n] + [chunks[n]];
      TakeDoneRun(chunks, n + 1);
    } else {
      assert chunks[..n] == chunks;
    }
  }

  /** A stream that reaches [DONE] ends its callbacks with onComplete. */
  lemma DoneEndsWithComplete(chunks: seq<string>)
    requires Run(chunks).done
    ensures Run(chunks).events != [] && Run(chunks).events[|Run(chunks).events| - 1] == Complete
  {
    RunSpec(chunks);
    var lines := Run(chunks).lines;
    DoneHasComplete(lines, Payload);
  }

  lemma {:induction false} DoneHasComplete(lines: seq<string>, pl: string -> Option<string>)
    requires DispatchWith(lines, pl).done
    ensures DispatchWith(lines, pl).events != []
    ensures DispatchWith(lines, pl).events[|DispatchWith(lines, pl).events| - 1] == Complete
  {
    if pl(lines[0]) != Some(DONE) {
      DoneHasComplete(lines[1..], pl);
    }
  }

  // ---------------------------------------------------------------------
  // chatStream

  /** `v?.[key]` / `v.key` on a parsed JSON value: an object's field, an
      array's element by index "0", a string's first character; anything
      else is undefined.  null is treated as undefined (`data.choices` on
      null throws, and the catch skips the payload, which has the same
      effect). */
  function Prop(v: Json, key: string): Option<Json> {
    match v
    case JObj(f) => if key in f && !f[key].JNull? then Some(f[key]) else None
    case JArr(items) => if key == "0" && items != [] && !items[0].JNull? then Some(items[0]) else None
    case JStr(s) => if key == "0" && s != "" then Some(JStr([s[0]])) else None
    case _ => None
  }

  function Then(v: Option<Json>, key: string): Option<Json> {
    if v.Some? then Prop(v.value, key) else None
  }

  /** data.choices?.[0]?.delta?.content of a payload, or None when it does
      not parse. */
  function DeltaContent(data: string, parse: string -> Option<Json>): Option<Json> {
    var parsed := parse(data);
    if parsed.None? then None
    else Then(Then(Then(Prop(parsed.value, "choices"), "0"), "delta"), "content")
  }

  /** `fullContent += chunk` turns the chunk into a string; show stands for
      JavaScript's ToString of a non-string value. */
  function AsText(v: Json, show: Json -> string): string {
    if v.JStr? then v.s else show(v)
  }

  /** The lookup chatStream makes in each payload. */
  function Content(parse: string -> Option<Json>): string -> Option<Json> {
    d => DeltaContent(d, parse)
  }

  /** The pieces chatStream adds, one per payload whose content is truthy,
      given the lookup that finds a payload's content. */
  function Pieces(datas: seq<string>, content: string -> Option<Json>, show: Json -> string): seq<string> {
    if datas == [] then []
    else
      var c := content(datas[|datas| - 1]);
      Pieces(datas[..|datas| - 1], content, show) + (if c.Some? && JsTruthy(c.value) then [AsText(c.value, show)] else [])
  }

  function Sum(pieces: seq<string>): string {
    if pieces == [] then "" else Sum(pieces[..|pieces| - 1]) + pieces[|pieces| - 1]
  }

  /** The texts onChunk receives: the running concatenations of the pieces. */
  function Running(pieces: seq<string>): seq<string> {
    if pieces == [] then [] else Running(pieces[..|pieces| - 1]) + [Sum(pieces)]
  }

  /** The k-th text onChunk receives is the concatenation of the first k + 1
      pieces. */
  lemma {:induction false} RunningSpec(pieces: seq<string>)
    ensures |Running(pieces)| == |pieces|
    ensures forall k :: 0 <= k < |pieces| ==> Running(pieces)[k] == Sum(pieces[..k + 1])
  {
    if pieces != [] {
      var init := pieces[..|pieces| - 1];
      RunningSpec(init);
      forall k | 0 <= k < |init|
        ensures Running(pieces)[k] == Sum(pieces[..k + 1])
      {
        assert init[..k + 1] == pieces[..k + 1];
      }
      assert pieces[..|pieces|] == pieces;
    }
  }

  /** The onMessage closure of chatStream over the payloads of one
      connection: it adds each piece to fullContent and calls onChunk with
      the running concatenation. */
  method ChatStream(datas: seq<string>, parse: string -> Option<Json>, show: Json -> string)
    returns (fullContent: string, chunks: seq<string>)
    ensures fullContent == Sum(Pieces(datas, Content(parse), show))
    ensures chunks == Running(Pieces(datas, Content(parse), show))
  {
    fullContent := "";
    chunks := [];
    var i := 0;
    while i < |datas|
      invariant i <= |datas|
      invariant fullContent == Sum(Pieces(datas[..i], Content(parse), show))
      invariant chunks == Running(Pieces(datas[..i], Content(parse), show))
    {
      ghost var before := Pieces(datas[..i], Content(parse), show);
      PiecesSnoc(datas, i, Content(parse), show);
      var c := DeltaContent(datas[i], parse);
      if c.Some? && JsTruthy(c.value) {
        RunningSnoc(before, AsText(c.value, show));
        fullContent := fullContent + AsText(c.value, show);
        chunks := chunks + [fullContent];
      } else {
        assert Pieces(datas[..i + 1], Content(parse), show) == before + [];
        assert before + [] == before;
      }
      i := i + 1;
    }
    assert datas[..i] == datas;
  }

  /** One more payload adds at most one piece. */
  lemma PiecesSnoc(datas: seq<string>, i: nat, content: string -> Option<Json>, show: Json -> string)
    requires i < |datas|
    ensures var c := content(datas[i]);
      Pieces(datas[..i + 1], content, show) ==
        Pieces(datas[..i], content, show) + (if c.Some? && JsTruthy(c.value) then [AsText(c.value, show)] else [])
  {
    assert datas[..i + 1][..i] == datas[..i];
  }

  lemma RunningSnoc(pieces: seq<string>, p: string)
    ensures Sum(pieces + [p]) == Sum(pieces) + p
    ensures Running(pieces + [p]) == Running(pieces) + [Sum(pieces) + p]
  {
    assert (pieces + [p])[..|pieces|] == pieces;
  }

  /** Each text onChunk receives extends the previous one. */
  lemma {:induction false} SumPrefix(pieces: seq<string>, k: nat)
    requires k <= |pieces|
    ensures StartsWith(Sum(pieces), Sum(pieces[..k]))
    decreases |pieces| - k
  {
    if k < |pieces| {
      SumPrefix(pieces[..|pieces| - 1], k);
      assert pieces[..|pieces| - 1][..k] == pieces[..k];
    } else {
      assert pieces[..k] == pieces;
    }
  }

  /** A payload that does not parse adds nothing. */
  lemma UnparsableSkipped(datas: seq<string>, d: string, parse: string -> Option<Json>, show: Json -> string)
    requires parse(d).None?
    ensures Pieces(datas + [d], Content(parse), show) == Pieces(datas, Content(parse), show)
  {
    assert (datas + [d])[..|datas|] == datas;
  }

  /** The usual payload: a string delta is appended as it is. */
  lemma DeltaAppended(datas: seq<string>, d: string, text: string, parse: string -> Option<Json>, show: Json -> string)
    requires text != ""
    requires parse(d) == Some(JObj(map["choices" := JArr([JObj(map["delta" := JObj(map["content" := JStr(text)])])])]))
    ensures Sum(Pieces(datas + [d], Content(parse), show)) == Sum(Pieces(datas, Content(parse), show)) + text
  {
    var delta := JObj(map["content" := JStr(text)]);
    var choice := JObj(map["delta" := delta]);
    assert Prop(parse(d).value, "choices") == Some(JArr([choice]));
    assert Prop(JArr([choice]), "0") == Some(choice);
    assert Prop(choice, "delta") == Some(delta);
    assert Prop(delta, "content") == Some(JStr(text));
    assert Content(parse)(d) == Some(JStr(text));
    PiecesSnoc(datas + [d], |datas|, Content(parse), show);
    assert (datas + [d])[..|datas| + 1] == datas + [d];
    assert (datas + [d])[..|datas|] == datas;
    RunningSnoc(Pieces(datas, Content(parse), show), text);
  }
}
