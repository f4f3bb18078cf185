/**
 * gateway/seedai_storage.py: the SQLite store of the gateway (conversations,
 * messages and memory rows) and its CORE_MEMORY_UPDATE handling.
 *
 * The three tables are fields of a Store object.  AUTOINCREMENT ids come from
 * counters; the clock (_now_ts) is a parameter; json.loads is a parameter that
 * answers None where it would raise.  An entry stored with json.dumps is read
 * back as the same object.
 */
module SeedaiStorage {
  import opened Common
  import opened Tables
  import opened CoreBlocks

  // ---------------------------------------------------------------------
  // CORE_MEMORY_UPDATE blocks, case-insensitive, no newline required

  /** extract_core_json: the parsed body of the leftmost block; None when there
      is no block or the body does not parse. */
  function ExtractCoreJson(text: string, parse: string -> Option<Json>): (r: Option<Json>)
    ensures Search(Storage, text, 0).None? ==> r.None?
    ensures Search(Storage, text, 0).Some? ==> r == parse(Body(text, Search(Storage, text, 0).value))
  {
    match Search(Storage, text, 0)
    case None => None
    case Some(m) => parse(Body(text, m))
  }

  /** strip_core_blocks: every block removed, then surrounding whitespace. */
  function StripCoreBlocks(text: string): (r: string)
    ensures |r| <= |text|
    ensures r != "" ==> !PyIsSpace(r[0]) && !PyIsSpace(r[|r| - 1])
    ensures Search(Storage, text, 0).None? ==> r == PyStrip(text)
  {
    var s := Sub(Storage, text, 0);
    TrimEndsNotSpace(s, PyIsSpace);
    PyStrip(s)
  }

  /** No match starting at or after `from` when the rest of the text holds no opener. */
  lemma NoBlockWithoutOpener(t: string, from: nat)
    requires from <= |t|
    requires !ContainsCi(t[from..], OPEN)
    ensures Search(Storage, t, from).None?
  {
    if Search(Storage, t, from).Some? {
      var k := Search(Storage, t, from).value.start;
      StorageMatchShape(t, k);
      assert t[..from] + t[from..] == t;
      CiAtSplit(t[..from], t[from..], OPEN, k);
    }
  }

  /** Removing one block whose surroundings hold no opener leaves the text before
      and after it. */
  lemma SubSingleBlock(t: string)
    requires Search(Storage, t, 0).Some?
    requires !ContainsCi(t[Search(Storage, t, 0).value.end..], OPEN)
    ensures var m := Search(Storage, t, 0).value;
      Sub(Storage, t, 0) == t[..m.start] + t[m.end..]
  {
    var m := Search(Storage, t, 0).value;
    NoBlockWithoutOpener(t, m.end);
  }

  /** Joining two texts without an opener and trimming the result cannot form a
      block: the block's own opener and the opener inside its closer would both
      have to fall on the same side of the join. */
  lemma NoBlockInJoin(a: string, b: string)
    requires !ContainsCi(a, OPEN) && !ContainsCi(b, OPEN)
    ensures Search(Storage, PyStrip(a + b), 0).None?
  {
    var x, y := PyStripSlice(a + b);
    NoBlockInSliceOfJoin(a, b, x, y, PyStrip(a + b));
  }

  lemma NoBlockInSliceOfJoin(a: string, b: string, x: nat, y: nat, s: string)
    requires x <= y <= |a| + |b| && s == (a + b)[x..y]
    requires !ContainsCi(a, OPEN) && !ContainsCi(b, OPEN)
    ensures Search(Storage, s, 0).None?
  {
    var xa, ya := if x < |a| then x else |a|, if y < |a| then y else |a|;
    var xb, yb := if x < |a| then 0 else x - |a|, if y < |a| then 0 else y - |a|;
    JoinSlice(a, b, x, y);
    NoOpenerInSlice(a, xa, ya);
    NoOpenerInSlice(b, xb, yb);
    NoBlockInPlainJoin(a[xa..ya], b[xb..yb]);
  }

  /** A slice of a + b is a slice of a followed by a slice of b. */
  lemma JoinSlice(a: string, b: string, x: nat, y: nat)
    requires x <= y <= |a| + |b|
    ensures var xa, ya := if x < |a| then x else |a|, if y < |a| then y else |a|;
      var xb, yb := if x < |a| then 0 else x - |a|, if y < |a| then 0 else y - |a|;
      xa <= ya <= |a| && xb <= yb <= |b| && (a + b)[x..y] == a[xa..ya] + b[xb..yb]
  {
    var xa, ya := if x < |a| then x else |a|, if y < |a| then y else |a|;
    var xb, yb := if x < |a| then 0 else x - |a|, if y < |a| then 0 else y - |a|;
    var u, v := (a + b)[x..y], a[xa..ya] + b[xb..yb];
    assert |u| == |v|;
    forall n | 0 <= n < |u| ensures u[n] == v[n] {
      if x + n < |a| {
        assert u[n] == a[x + n];
      } else {
        assert u[n] == b[x + n - |a|];
      }
    }
  }

  /** A text without the opener has none in any of its slices. */
  lemma NoOpenerInSlice(t: string, x: nat, y: nat)
    requires x <= y <= |t| && !ContainsCi(t, OPEN)
    ensures !ContainsCi(t[x..y], OPEN)
  {
    if ContainsCi(t[x..y], OPEN) {
      var k :| 0 <= k <= y - x && CiAt(t[x..y], OPEN, k);
      CiAtSlice(t, x, y, OPEN, k);
    }
  }

  /** Two texts without the opener cannot form a block when joined. */
  lemma NoBlockInPlainJoin(a: string, b: string)
    requires !ContainsCi(a, OPEN) && !ContainsCi(b, OPEN)
    ensures Search(Storage, a + b, 0).None?
  {
    if Search(Storage, a + b, 0).Some? {
      var i, e := StorageSearchShape(a + b, 0);
      OpenerPairInJoin(a, b, i, e);
    }
  }

  /** An opener followed by a closer in a + b puts an opener wholly inside a or
      wholly inside b. */
  lemma OpenerPairInJoin(a: string, b: string, i: nat, e: nat)
    requires CiAt(a + b, OPEN, i) && CiAt(a + b, CLOSE, e) && i + |OPEN| < e
    ensures ContainsCi(a, OPEN) || ContainsCi(b, OPEN)
  {
    CloseHoldsOpen(a + b, e);
    if i + |OPEN| <= |a| {
      CiAtSplit(a, b, OPEN, i);
    } else {
      CiAtSplit(a, b, OPEN, e + 4);
    }
  }

  /** Removing a single block: when the leftmost block of t is the only place
      where the opener text occurs, stripping leaves the text before and after
      it, trimmed, and no block can be found in the result. */
  lemma StripSingleBlock(t: string, parse: string -> Option<Json>)
    requires Search(Storage, t, 0).Some?
    requires var m := Search(Storage, t, 0).value;
      !ContainsCi(t[..m.start], OPEN) && !ContainsCi(t[m.end..], OPEN)
    ensures var m := Search(Storage, t, 0).value;
      StripCoreBlocks(t) == PyStrip(t[..m.start] + t[m.end..])
    ensures ExtractCoreJson(StripCoreBlocks(t), parse).None?
  {
    var m := Search(Storage, t, 0).value;
    SubSingleBlock(t);
    NoBlockInJoin(t[..m.start], t[m.end..]);
  }

  /** A reply made of ordinary text, one block and ordinary text. */
  function Framed(before: string, ws1: string, body: string, ws2: string, after: string): string {
    before + OPEN_CS + ws1 + body + ws2 + CLOSE_CS + after
  }

  /** Where each piece of a framed reply sits. */
  lemma FramedPieces(t: string, before: string, ws1: string, body: string, ws2: string, after: string)
    requires t == Framed(before, ws1, body, ws2, after)
    ensures Pieces(t, before, ws1, body, ws2, after)
  {
    FramedSlices(t, before, ws1, body, ws2, after);
  }

  /** t is before, the opener, ws1, body, ws2, the closer and after, in that order. */
  predicate Pieces(t: string, before: string, ws1: string, body: string, ws2: string, after: string) {
    var i := |before|;
    var q := i + |OPEN_CS| + |ws1|;
    var r := q + |body| + |ws2|;
    && r + |CLOSE_CS| + |after| == |t|
    && t[i..i + |OPEN_CS|] == OPEN_CS && t[i + |OPEN_CS|..q] == ws1
    && t[q..q + |body|] == body && t[q + |body|..r] == ws2 && t[r..r + |CLOSE_CS|] == CLOSE_CS
    && t[..i] == before && t[r + |CLOSE_CS|..] == after
  }

  lemma FramedSlices(t: string, before: string, ws1: string, body: string, ws2: string, after: string)
    requires t == Framed(before, ws1, body, ws2, after)
    ensures var i := |before|;
      var q := i + |OPEN_CS| + |ws1|;
      var r := q + |body| + |ws2|;
      && r + |CLOSE_CS| + |after| == |t|
      && t[i..i + |OPEN_CS|] == OPEN_CS && t[i + |OPEN_CS|..q] == ws1
      && t[q..q + |body|] == body && t[q + |body|..r] == ws2 && t[r..r + |CLOSE_CS|] == CLOSE_CS
      && t[..i] == before && t[r + |CLOSE_CS|..] == after
  {
    var p1 := before + OPEN_CS;
    var p2 := p1 + ws1;
    var p3 := p2 + body;
    var p4 := p3 + ws2;
    var p5 := p4 + CLOSE_CS;
    assert t == p5 + after;
    assert t[..|p5|] == p5;
    assert t[..|p4|] == p4 by {
      assert p5[..|p4|] == p4;
    }
    assert t[..|p3|] == p3 by {
      assert p4[..|p3|] == p3;
    }
    assert t[..|p2|] == p2 by {
      assert p3[..|p2|] == p2;
    }
    assert t[..|p1|] == p1 by {
      assert p2[..|p1|] == p1;
    }
    assert t[|before|..|p1|] == p1[|before|..];
    assert t[..|before|] == p1[..|before|];
    assert t[|p1|..|p2|] == p2[|p1|..];
    assert t[|p2|..|p3|] == p3[|p2|..];
    assert t[|p3|..|p4|] == p4[|p3|..];
    assert t[|p4|..|p5|] == p5[|p4|..];
  }

  /** No block starts inside a prefix without an opener, when an opener follows it. */
  lemma NoMatchBeforeOpener(t: string, i: nat, k: nat)
    requires i <= |t| && !ContainsCi(t[..i], OPEN)
    requires CiAt(t, OPEN, i) && k < i
    ensures MatchAt(Storage, t, k).None?
  {
    if MatchAt(Storage, t, k).Some? {
      StorageMatchShape(t, k);
      OpenerBorderFree(t, k, i);
      OpenerInPrefix(t, i, k);
    }
  }

  /** An opener that ends by i lies in t[..i]. */
  lemma OpenerInPrefix(t: string, i: nat, k: nat)
    requires i <= |t| && CiAt(t, OPEN, k) && k + |OPEN| <= i
    ensures CiAt(t[..i], OPEN, k)
  {
    assert t[..i][k..k + |OPEN|] == t[k..k + |OPEN|];
  }

  /** A text made of ordinary text, one block and ordinary text: extraction
      parses the block's body, and stripping leaves the surrounding text, trimmed,
      in which no block remains. */
  lemma OneBlock(before: string, ws1: string, body: string, ws2: string, after: string,
                 parse: string -> Option<Json>)
    requires forall k :: 0 <= k < |ws1| ==> PyIsSpace(ws1[k])
    requires forall k :: 0 <= k < |ws2| ==> PyIsSpace(ws2[k])
    requires |body| >= 2 && body[0] == '{' && body[|body| - 1] == '}'
    requires forall k :: 0 <= k < |body| - 1 ==> body[k] != '}'
    requires !ContainsCi(before, OPEN) && !ContainsCi(after, OPEN)
    ensures var t := Framed(before, ws1, body, ws2, after);
      ExtractCoreJson(t, parse) == parse(body)
      && StripCoreBlocks(t) == PyStrip(before + after)
      && ExtractCoreJson(StripCoreBlocks(t), parse).None?
  {
    var t := Framed(before, ws1, body, ws2, after);
    FramedPieces(t, before, ws1, body, ws2, after);
    var m := PiecesMatch(t, before, ws1, body, ws2, after);
    LeftmostAt(t, m.start, m);
    StripSingleBlock(t, parse);
  }

  /** The leftmost block of a framed reply is its one block. */
  lemma PiecesMatch(t: string, before: string, ws1: string, body: string, ws2: string, after: string)
    returns (m: Match)
    requires Pieces(t, before, ws1, body, ws2, after)
    requires forall k :: 0 <= k < |ws1| ==> PyIsSpace(ws1[k])
    requires forall k :: 0 <= k < |ws2| ==> PyIsSpace(ws2[k])
    requires |body| >= 2 && body[0] == '{' && body[|body| - 1] == '}'
    requires forall k :: 0 <= k < |body| - 1 ==> body[k] != '}'
    ensures m.start <= |t| && MatchAt(Storage, t, m.start) == Some(m)
    ensures WellFormed(t, m) && Body(t, m) == body
    ensures t[..m.start] == before && t[m.end..] == after
  {
    var i := |before|;
    var q := i + |OPEN_CS| + |ws1|;
    var j := q + |body| - 1;
    var r := j + 1 + |ws2|;
    PiecesIndices(t, before, ws1, body, ws2, after);
    StorageBlockAt(t, i, q, j, r);
    m := Match(i, q, j + 1, r + |CLOSE_CS|);
  }

  /** The character-level facts a Storage match needs, read off the pieces. */
  lemma PiecesIndices(t: string, before: string, ws1: string, body: string, ws2: string, after: string)
    requires Pieces(t, before, ws1, body, ws2, after)
    requires forall k :: 0 <= k < |ws1| ==> PyIsSpace(ws1[k])
    requires forall k :: 0 <= k < |ws2| ==> PyIsSpace(ws2[k])
    requires |body| >= 2 && body[0] == '{' && body[|body| - 1] == '}'
    requires forall k :: 0 <= k < |body| - 1 ==> body[k] != '}'
    ensures var i := |before|;
      var q := i + |OPEN_CS| + |ws1|;
      var j := q + |body| - 1;
      var r := j + 1 + |ws2|;
      && (forall k :: i + |OPEN_CS| <= k < q ==> PyIsSpace(t[k]))
      && t[q] == '{' && t[j] == '}'
      && (forall k :: q <= k < j ==> t[k] != '}')
      && (forall k :: j + 1 <= k < r ==> PyIsSpace(t[k]))
  {
    var i := |before|;
    var q := i + |OPEN_CS| + |ws1|;
    var j := q + |body| - 1;
    var r := j + 1 + |ws2|;
    forall k | i + |OPEN_CS| <= k < q ensures PyIsSpace(t[k]) {
      assert t[k] == t[i + |OPEN_CS|..q][k - i - |OPEN_CS|];
    }
    forall k | q <= k <= j ensures t[k] == body[k - q] {
      assert t[k] == t[q..q + |body|][k - q];
    }
    forall k | j + 1 <= k < r ensures PyIsSpace(t[k]) {
      assert t[k] == t[j + 1..r][k - j - 1];
    }
  }

  /** A block at i is the leftmost one when no opener occurs before i. */
  lemma LeftmostAt(t: string, i: nat, m: Match)
    requires i <= |t| && MatchAt(Storage, t, i) == Some(m) && !ContainsCi(t[..i], OPEN)
    ensures Search(Storage, t, 0) == Some(m)
  {
    StorageMatchShape(t, i);
    forall k | 0 <= k < i ensures MatchAt(Storage, t, k).None? {
      NoMatchBeforeOpener(t, i, k);
    }
    SearchFinds(Storage, t, 0, i);
  }

  lemma NoOpenerIn(s: string)
    requires forall k :: 0 <= k < |s| ==> s[k] != 'c' && s[k] != 'C'
    ensures !ContainsCi(s, OPEN)
  {
    forall k | CiAt(s, OPEN, k) ensures false {
      LowerAt(s, OPEN, k, 0);
    }
  }

  /** The sample reply of tools/test_memory_save.py: a block on its own lines
      between "Hello user." and "Goodbye.". */
  lemma SampleReply(body: string, parse: string -> Option<Json>)
    requires |body| >= 2 && body[0] == '{' && body[|body| - 1] == '}'
    requires forall k :: 0 <= k < |body| - 1 ==> body[k] != '}'
    ensures var t := Framed("Hello user.\n", "\n", body, "\n", "\nGoodbye.");
      ExtractCoreJson(t, parse) == parse(body)
      && StripCoreBlocks(t) == "Hello user.\n\nGoodbye."
      && ExtractCoreJson(StripCoreBlocks(t), parse).None?
  {
    var before, after := "Hello user.\n", "\nGoodbye.";
    SampleReplyParts();
    OneBlock(before, "\n", body, "\n", after, parse);
  }

  lemma SampleReplyParts()
    ensures !ContainsCi("Hello user.\n", OPEN) && !ContainsCi("\nGoodbye.", OPEN)
    ensures PyStrip("Hello user.\n" + "\nGoodbye.") == "Hello user.\n\nGoodbye."
  {
    NoOpenerIn("Hello user.\n");
    NoOpenerIn("\nGoodbye.");
    var s := "Hello user.\n" + "\nGoodbye.";
    assert s == "Hello user.\n\nGoodbye.";
    assert !PyIsSpace(s[0]) && !PyIsSpace(s[|s| - 1]);
    assert TrimStart(s, PyIsSpace) == s;
  }

  /** One removal pass can join the text around a block into a new block: the
      text opener + opener "{}" closer + "{}" closer holds exactly one block,
      starting at the second opener, and what stripping leaves, the first opener
      followed by the trailing "{}" closer, is again a block. */
  lemma StripCanLeaveBlock(parse: string -> Option<Json>)
    ensures var t := Framed(OPEN_CS, "", "{}", "", "{}" + CLOSE_CS);
      Search(Storage, t, 0) == Some(Match(18, 36, 38, 60))
      && Search(Storage, t, 60).None?
      && StripCoreBlocks(t) == OPEN_CS + ("{}" + CLOSE_CS)
      && ExtractCoreJson(OPEN_CS + ("{}" + CLOSE_CS), parse) == parse("{}")
  {
    var tail := "{}" + CLOSE_CS;
    var t := Framed(OPEN_CS, "", "{}", "", tail);
    FramedPieces(t, OPEN_CS, "", "{}", "", tail);
    assert t[60..] == tail;
    assert t[60] == tail[0] && t[61] == tail[1];
    assert t[62..84] == tail[2..] == CLOSE_CS;
    LeaveBlockAt(t, parse);
  }

  /** The counterexample, piece by piece. */
  lemma LeaveBlockAt(t: string, parse: string -> Option<Json>)
    requires |t| == 84 && t[0..18] == OPEN_CS && t[18..36] == OPEN_CS
    requires t[36] == '{' && t[37] == '}' && t[38..60] == CLOSE_CS
    requires t[60] == '{' && t[61] == '}' && t[62..84] == CLOSE_CS
    ensures Search(Storage, t, 0) == Some(Match(18, 36, 38, 60))
    ensures Search(Storage, t, 60).None?
    ensures StripCoreBlocks(t) == t[..18] + t[60..]
    ensures ExtractCoreJson(t[..18] + t[60..], parse) == parse("{}")
  {
    LeaveFirstMatch(t);
    LeaveNoMore(t);
    LeaveStrip(t);
    LeaveExtract(t, parse);
  }

  lemma LeaveStrip(t: string)
    requires |t| == 84 && t[0..18] == OPEN_CS && t[18..36] == OPEN_CS
    requires t[36] == '{' && t[37] == '}' && t[38..60] == CLOSE_CS
    requires t[62..84] == CLOSE_CS
    ensures StripCoreBlocks(t) == t[..18] + t[60..]
  {
    LeaveSub(t);
    var s := t[..18] + t[60..];
    assert s[0..18] == OPEN_CS;
    assert s[20..42] == t[62..84] == CLOSE_CS;
    LeaveRestStrip(s);
    StripIsSub(t, s);
  }

  lemma LeaveExtract(t: string, parse: string -> Option<Json>)
    requires |t| == 84 && t[0..18] == OPEN_CS && t[60] == '{' && t[61] == '}' && t[62..84] == CLOSE_CS
    ensures ExtractCoreJson(t[..18] + t[60..], parse) == parse("{}")
  {
    var s := t[..18] + t[60..];
    assert s[0..18] == OPEN_CS && s[18] == '{' && s[19] == '}';
    assert s[20..42] == t[62..84] == CLOSE_CS;
    LeaveRestMatch(s);
  }

  /** When stripping leaves what sub produced untouched, that is the result. */
  lemma StripIsSub(t: string, s: string)
    requires Sub(Storage, t, 0) == s && PyStrip(s) == s
    ensures StripCoreBlocks(t) == s
  {
  }

  lemma LeaveSub(t: string)
    requires |t| == 84 && t[0..18] == OPEN_CS && t[18..36] == OPEN_CS
    requires t[36] == '{' && t[37] == '}' && t[38..60] == CLOSE_CS
    ensures Sub(Storage, t, 0) == t[..18] + t[60..]
  {
    LeaveFirstMatch(t);
    LeaveNoMore(t);
    SubOneBlock(Storage, t, Match(18, 36, 38, 60));
  }

  /** In the counterexample text, the first block starts at the second opener. */
  lemma LeaveFirstMatch(t: string)
    requires |t| == 84 && t[0..18] == OPEN_CS && t[18..36] == OPEN_CS
    requires t[36] == '{' && t[37] == '}' && t[38..60] == CLOSE_CS
    ensures Search(Storage, t, 0) == Some(Match(18, 36, 38, 60))
  {
    LowerOpenCs();
    assert CiAt(t, OPEN, 0) && CiAt(t, OPEN, 18);
    StorageBlockAt(t, 18, 36, 37, 38);
    assert MatchAt(Storage, t, 0).None? by {
      SkipWsRun(t, 18, 18);
      assert t[18] == t[18..36][0] == 'C';
    }
    forall k | 1 <= k < 18 ensures MatchAt(Storage, t, k).None? {
      if MatchAt(Storage, t, k).Some? {
        StorageMatchShape(t, k);
        OpenerBorderFree(t, 0, k);
      }
    }
    SearchFinds(Storage, t, 0, 18);
  }

  /** A block needs its closer past its opener, and past 60 there is room for neither. */
  lemma LeaveNoMore(t: string)
    requires |t| == 84
    ensures Search(Storage, t, 60).None?
  {
    if Search(Storage, t, 60).Some? {
      var i, e := StorageSearchShape(t, 60);
    }
  }

  /** What stripping leaves of the counterexample is a block with body "{}". */
  lemma LeaveRestMatch(s: string)
    requires |s| == 42 && s[0..18] == OPEN_CS && s[18] == '{' && s[19] == '}' && s[20..42] == CLOSE_CS
    ensures Search(Storage, s, 0) == Some(Match(0, 18, 20, 42))
    ensures Body(s, Match(0, 18, 20, 42)) == "{}"
  {
    StorageBlockAt(s, 0, 18, 19, 20);
    SearchFinds(Storage, s, 0, 0);
    assert s[18..20] == "{}";
  }

  /** ... and stripping it again changes nothing. */
  lemma LeaveRestStrip(s: string)
    requires |s| == 42 && s[0..18] == OPEN_CS && s[20..42] == CLOSE_CS
    ensures PyStrip(s) == s
  {
    assert s[0] == s[0..18][0] && s[41] == s[20..42][21];
    TrimNoSpaceEnds(s, PyIsSpace);
  }

  // ---------------------------------------------------------------------
  // Rows

  /** A column value the sqlite3 driver accepts: NULL, or the text stored in a
      TEXT column.  Lists and dicts are rejected (an error is raised). */
  datatype Column = Unsupported | Value(text: Option<string>)

  /** Python's `a or b or None` over two entry fields. */
  function FirstTruthy(entry: Obj, k1: string, k2: string): (r: Option<Json>)
    ensures r.Some? ==> PyTruthy(r.value)
    ensures r.Some? <==> (k1 in entry && PyTruthy(entry[k1])) || (k2 in entry && PyTruthy(entry[k2]))
    ensures k1 in entry && PyTruthy(entry[k1]) ==> r == Some(entry[k1])
  {
    if k1 in entry && PyTruthy(entry[k1]) then Some(entry[k1])
    else if k2 in entry && PyTruthy(entry[k2]) then Some(entry[k2])
    else None
  }

  /** The value stored in a TEXT column: strings as they are, numbers in the text
      form numText gives them (TEXT affinity), booleans as the integers 1 and 0. */
  function ToColumn(v: Option<Json>, numText: real -> string): Column {
    match v
    case None => Value(None)
    case Some(JNull) => Value(None)
    case Some(JStr(s)) => Value(Some(s))
    case Some(JNum(n)) => Value(Some(numText(n)))
    case Some(JBool(b)) => Value(Some(if b then "1" else "0"))
    case Some(_) => Unsupported
  }

  /** Whether the driver accepts an entry's topic and owner columns. */
  predicate Storable(entry: Obj, numText: real -> string) {
    && ToColumn(FirstTruthy(entry, "topic", "key"), numText).Value?
    && ToColumn(FirstTruthy(entry, "owner", "owner_id"), numText).Value?
  }

  datatype MemoryRow = MemoryRow(id: nat, source: string, topic: Option<string>, owner: Option<string>,
                                 entry: Obj, verbatim: bool, ts: string)

  datatype MessageRow = MessageRow(id: nat, conversationId: string, role: string, text: string, ts: string)

  datatype ConversationRow = ConversationRow(title: Option<string>, meta: Obj, updatedAt: string)

  /** One element of get_memory_summary()["recent"]. */
  datatype Recent = Recent(topic: Option<string>, owner: Option<string>, entry: Obj, ts: string)

  datatype Summary = Summary(total: nat, recent: seq<Recent>, topicCounts: seq<(string, nat)>)

  datatype ChatMessage = ChatMessage(role: string, text: string, ts: string)

  /** The result of load_conversation. */
  datatype Loaded =
    | Missing(id: string)
    | Found(id: string, title: Option<string>, meta: Obj, updatedAt: string, messages: seq<ChatMessage>)

  datatype ListedConversation = ListedConversation(id: string, title: Option<string>, updatedAt: string)

  predicate IdsIncreasing(rows: seq<MemoryRow>, next: nat) {
    (forall i, j :: 0 <= i < j < |rows| ==> rows[i].id < rows[j].id)
    && (forall i :: 0 <= i < |rows| ==> rows[i].id < next)
  }

  predicate MessageIdsIncreasing(rows: seq<MessageRow>, next: nat) {
    (forall i, j :: 0 <= i < j < |rows| ==> rows[i].id < rows[j].id)
    && (forall i :: 0 <= i < |rows| ==> rows[i].id < next)
  }

  function RecentOf(r: MemoryRow): Recent {
    Recent(r.topic, r.owner, r.entry, r.ts)
  }

  function RecentRows(rows: seq<MemoryRow>, limit: int): (r: seq<Recent>)
    ensures |r| == |Limit(Reverse(rows), limit)|
    ensures forall k :: 0 <= k < |r| ==> r[k] == RecentOf(rows[|rows| - 1 - k])
  {
    var newest := Limit(Reverse(rows), limit);
    seq(|newest|, k requires 0 <= k < |newest| => RecentOf(newest[k]))
  }

  /** The rows the DELETE of forget_memory removes. */
  predicate Forgotten(r: MemoryRow, topic: string, owner: string) {
    if topic != "" && owner != "" then r.topic == Some(topic) && r.owner == Some(owner)
    else if topic != "" then r.topic == Some(topic)
    else if owner != "" then r.owner == Some(owner)
    else false
  }

  /** The rows of the GROUP BY group of topic t. */
  function TopicCount(rows: seq<MemoryRow>, t: string): nat {
    if rows == [] then 0 else (if rows[0].topic == Some(t) then 1 else 0) + TopicCount(rows[1..], t)
  }

  function NonNullCount(rows: seq<MemoryRow>): nat {
    if rows == [] then 0 else (if rows[0].topic.Some? then 1 else 0) + NonNullCount(rows[1..])
  }

  lemma CountsSnoc(rows: seq<MemoryRow>, r: MemoryRow)
    ensures NonNullCount(rows + [r]) == NonNullCount(rows) + if r.topic.Some? then 1 else 0
    ensures forall t :: TopicCount(rows + [r], t) == TopicCount(rows, t) + if r.topic == Some(t) then 1 else 0
  {
    if rows == [] {
      assert [r][1..] == [];
    } else {
      assert (rows + [r])[1..] == rows[1..] + [r];
      CountsSnoc(rows[1..], r);
    }
  }

  /** counts holds, once per non-null topic of rows, how many rows carry it. */
  ghost predicate CountsOf(counts: seq<(string, nat)>, rows: seq<MemoryRow>) {
    && UniqueKeys(counts)
    && SumCounts(counts) == NonNullCount(rows)
    && forall t :: Lookup(counts, t) == if TopicCount(rows, t) == 0 then None else Some(TopicCount(rows, t))
  }

  /** Counting one more row. */
  lemma CountsOfSnoc(counts: seq<(string, nat)>, rows: seq<MemoryRow>, r: MemoryRow)
    requires CountsOf(counts, rows)
    ensures CountsOf(if r.topic.Some? then Bump(counts, r.topic.value) else counts, rows + [r])
  {
    CountsSnoc(rows, r);
    if r.topic.Some? {
      BumpSpec(counts, r.topic.value);
    }
  }

  /** The rows forget_memory keeps, in table order. */
  function Kept(rows: seq<MemoryRow>, topic: string, owner: string): (r: seq<MemoryRow>)
    ensures |r| <= |rows|
    ensures forall i :: 0 <= i < |r| ==> !Forgotten(r[i], topic, owner) && r[i] in rows
    ensures forall i :: 0 <= i < |rows| && !Forgotten(rows[i], topic, owner) ==> rows[i] in r
  {
    if rows == [] then []
    else
      var rest := Kept(rows[1..], topic, owner);
      assert rows == [rows[0]] + rows[1..];
      if Forgotten(rows[0], topic, owner) then rest else [rows[0]] + rest
  }

  lemma {:induction false} KeptHead(rows: seq<MemoryRow>, next: nat, topic: string, owner: string)
    requires rows != [] && IdsIncreasing(rows, next)
    ensures forall k :: 0 <= k < |Kept(rows[1..], topic, owner)| ==> rows[0].id < Kept(rows[1..], topic, owner)[k].id
  {
    var rest := Kept(rows[1..], topic, owner);
    forall k | 0 <= k < |rest| ensures rows[0].id < rest[k].id {
      assert rest[k] in rows[1..];
      var j :| 0 <= j < |rows[1..]| && rows[1..][j] == rest[k];
      assert rows[j + 1] == rest[k];
    }
  }

  lemma {:induction false} KeptCons(rows: seq<MemoryRow>, next: nat, topic: string, owner: string)
    requires rows != [] && rows[0].id < next && IdsIncreasing(Kept(rows[1..], topic, owner), next)
    requires forall k :: 0 <= k < |Kept(rows[1..], topic, owner)| ==> rows[0].id < Kept(rows[1..], topic, owner)[k].id
    ensures IdsIncreasing(Kept(rows, topic, owner), next)
  {
    var rest := Kept(rows[1..], topic, owner);
    if Forgotten(rows[0], topic, owner) {
      assert Kept(rows, topic, owner) == rest;
    } else {
      assert Kept(rows, topic, owner) == [rows[0]] + rest;
    }
  }

  /** Deleting rows keeps the ids increasing. */
  lemma {:induction false} KeptIncreasing(rows: seq<MemoryRow>, next: nat, topic: string, owner: string)
    requires IdsIncreasing(rows, next)
    ensures IdsIncreasing(Kept(rows, topic, owner), next)
  {
    if rows != [] {
      KeptIncreasing(rows[1..], next, topic, owner);
      KeptHead(rows, next, topic, owner);
      KeptCons(rows, next, topic, owner);
    }
  }

  /** With neither a topic nor an owner, every row is kept. */
  lemma {:induction false} KeptAll(rows: seq<MemoryRow>)
    ensures Kept(rows, "", "") == rows
  {
    if rows != [] {
      KeptAll(rows[1..]);
    }
  }

  // ---------------------------------------------------------------------
  // The store

  class Store {
    var memory: seq<MemoryRow>
    var nextMemoryId: nat
    var messages: seq<MessageRow>
    var nextMessageId: nat
    var conversations: seq<(string, ConversationRow)>

    ghost predicate Valid()
      reads this
    {
      IdsIncreasing(memory, nextMemoryId)
      && MessageIdsIncreasing(messages, nextMessageId)
      && UniqueKeys(conversations)
    }

    /** init_db on a fresh file: three empty tables. */
    constructor ()
      ensures Valid()
      ensures memory == [] && messages == [] && conversations == []
    {
      memory := [];
      nextMemoryId := 1;
      messages := [];
      nextMessageId := 1;
      conversations := [];
    }

    /** save_memory_entry: one row appended, with topic from "topic" else "key"
        and owner from "owner" else "owner_id".  A list or dict in either column
        makes the driver raise; then nothing is written. */
    method SaveMemoryEntry(entry: Obj, source: string, verbatim: bool, now: string, numText: real -> string)
      returns (ok: bool)
      requires Valid()
      modifies this
      ensures Valid()
      ensures var topic := ToColumn(FirstTruthy(entry, "topic", "key"), numText);
        var owner := ToColumn(FirstTruthy(entry, "owner", "owner_id"), numText);
        ok == (topic.Value? && owner.Value?)
        && (ok ==> memory == old(memory) + [MemoryRow(old(nextMemoryId), source, topic.text, owner.text, entry, verbatim, now)])
        && (!ok ==> memory == old(memory))
      ensures ok == Storable(entry, numText)
      ensures messages == old(messages) && conversations == old(conversations)
      ensures nextMessageId == old(nextMessageId)
      ensures !ok ==> nextMemoryId == old(nextMemoryId)
    {
      var topic := ToColumn(FirstTruthy(entry, "topic", "key"), numText);
      var owner := ToColumn(FirstTruthy(entry, "owner", "owner_id"), numText);
      if topic.Unsupported? || owner.Unsupported? {
        return false;
      }
      memory := memory + [MemoryRow(nextMemoryId, source, topic.text, owner.text, entry, verbatim, now)];
      nextMemoryId := nextMemoryId + 1;
      ok := true;
    }

    /** forget_memory: delete by topic and owner, by topic, or by owner; with
        neither (both empty), nothing is deleted. */
    method ForgetMemory(topic: string, owner: string)
      requires Valid()
      modifies this
      ensures Valid()
      ensures memory == Kept(old(memory), topic, owner)
      ensures topic == "" && owner == "" ==> memory == old(memory)
      ensures messages == old(messages) && conversations == old(conversations)
      ensures nextMemoryId == old(nextMemoryId) && nextMessageId == old(nextMessageId)
    {
      if topic == "" && owner == "" {
        KeptAll(memory);
        return;
      }
      KeptIncreasing(memory, nextMemoryId, topic, owner);
      memory := Kept(memory, topic, owner);
    }

    /** get_memory_summary: the number of rows, the newest `limit` rows (newest id
        first), and the number of rows per non-null topic, computed row by row as
        GROUP BY does. */
    method GetMemorySummary(limit: int) returns (s: Summary)
      requires Valid()
      ensures s.total == |memory|
      ensures s.recent == RecentRows(memory, limit)
      ensures UniqueKeys(s.topicCounts)
      ensures forall t :: Lookup(s.topicCounts, t) == if TopicCount(memory, t) == 0 then None
                                                       else Some(TopicCount(memory, t))
      ensures SumCounts(s.topicCounts) == NonNullCount(memory)
    {
      var counts: seq<(string, nat)> := [];
      var i := 0;
      while i < |memory|
        invariant 0 <= i <= |memory|
        invariant CountsOf(counts, memory[..i])
      {
        assert memory[..i + 1] == memory[..i] + [memory[i]];
        CountsOfSnoc(counts, memory[..i], memory[i]);
        if memory[i].topic.Some? {
          counts := Bump(counts, memory[i].topic.value);
        }
        i := i + 1;
      }
      assert memory[..i] == memory;
      s := Summary(|memory|, RecentRows(memory, limit), counts);
    }

    /** append_message: the message row is appended and the conversation row is
        REPLACEd with no title, meta {"id": id} and the current time. */
    method AppendMessage(cid: string, role: string, text: string, now: string)
      requires Valid()
      modifies this
      ensures Valid()
      ensures messages == old(messages) + [MessageRow(old(nextMessageId), cid, role, text, now)]
      ensures conversations == Replace(old(conversations), cid, ConversationRow(None, map["id" := JStr(cid)], now))
      ensures memory == old(memory) && nextMemoryId == old(nextMemoryId)
    {
      ReplaceSpec(conversations, cid, ConversationRow(None, map["id" := JStr(cid)], now));
      messages := messages + [MessageRow(nextMessageId, cid, role, text, now)];
      nextMessageId := nextMessageId + 1;
      conversations := Replace(conversations, cid, ConversationRow(None, map["id" := JStr(cid)], now));
    }

    /** load_conversation on the current tables. */
    function LoadConversation(cid: string): (r: Loaded)
      reads this
      ensures r.id == cid
      ensures r.Found? <==> HasKey(conversations, cid)
      ensures r.Found? ==> (cid, ConversationRow(r.title, r.meta, r.updatedAt)) in conversations
      ensures r.Found? ==> r.messages == MessagesOf(messages, cid)
    {
      Load(conversations, messages, cid)
    }

    /** list_conversations: newest first. */
    function ListConversations(): (r: seq<ListedConversation>)
      reads this
      ensures |r| == |conversations|
      ensures forall k :: 0 <= k < |r| ==> r[k].id == conversations[|conversations| - 1 - k].0
    {
      var rows := Reverse(conversations);
      seq(|rows|, k requires 0 <= k < |rows| => ListedConversation(rows[k].0, rows[k].1.title, rows[k].1.updatedAt))
    }

    /** process_model_output: the stripped reply is appended as an assistant
        message; a truthy parsed block is saved first, verbatim iff its "value"
        is truthy.  A truthy block that is not an object makes parsed.get raise. */
    method ProcessModelOutput(cid: string, text: string, source: string, now: string,
                              parse: string -> Option<Json>, numText: real -> string)
      returns (ok: bool, sanitized: string, parsed: Option<Json>)
      requires Valid()
      modifies this
      ensures Valid()
      ensures sanitized == StripCoreBlocks(text) && parsed == ExtractCoreJson(text, parse)
      ensures ok <==> !(parsed.Some? && PyTruthy(parsed.value))
                      || (parsed.value.JObj? && Storable(parsed.value.fields, numText))
      ensures parsed.Some? && PyTruthy(parsed.value) && !parsed.value.JObj? ==> !ok && unchanged(this)
      ensures !ok ==> memory == old(memory) && messages == old(messages) && conversations == old(conversations)
                      && nextMemoryId == old(nextMemoryId) && nextMessageId == old(nextMessageId)
      ensures ok ==> messages == old(messages) + [MessageRow(old(nextMessageId), cid, "assistant", sanitized, now)]
      ensures ok ==> conversations == Replace(old(conversations), cid, ConversationRow(None, map["id" := JStr(cid)], now))
      ensures ok && parsed.Some? && PyTruthy(parsed.value) ==>
                |memory| == |old(memory)| + 1 && memory[..|old(memory)|] == old(memory)
                && memory[|old(memory)|].entry == parsed.value.fields
                && memory[|old(memory)|].verbatim == ("value" in parsed.value.fields && PyTruthy(parsed.value.fields["value"]))
      ensures ok && !(parsed.Some? && PyTruthy(parsed.value)) ==> memory == old(memory)
    {
      parsed := ExtractCoreJson(text, parse);
      sanitized := StripCoreBlocks(text);
      if parsed.Some? && PyTruthy(parsed.value) {
        if !parsed.value.JObj? {
          return false, sanitized, parsed;
        }
        var fields := parsed.value.fields;
        var verbatim := "value" in fields && PyTruthy(fields["value"]);
        var saved := SaveMemoryEntry(fields, source, verbatim, now, numText);
        if !saved {
          return false, sanitized, parsed;
        }
      }
      AppendMessage(cid, "assistant", sanitized, now);
      ok := true;
    }
  }

  function ChatOf(m: MessageRow): ChatMessage {
    ChatMessage(m.role, m.text, m.ts)
  }

  function MessagesOf(msgs: seq<MessageRow>, cid: string): (r: seq<ChatMessage>)
    ensures |r| <= |msgs|
  {
    if msgs == [] then []
    else (if msgs[0].conversationId == cid then [ChatOf(msgs[0])] else []) + MessagesOf(msgs[1..], cid)
  }

  lemma {:induction false} MessagesOfSnoc(msgs: seq<MessageRow>, m: MessageRow, cid: string)
    ensures MessagesOf(msgs + [m], cid) == MessagesOf(msgs, cid) + if m.conversationId == cid then [ChatOf(m)] else []
  {
    var last := if m.conversationId == cid then [ChatOf(m)] else [];
    if msgs == [] {
      assert [m][1..] == [];
      assert MessagesOf([m], cid) == last + MessagesOf([], cid);
    } else {
      var h := if msgs[0].conversationId == cid then [ChatOf(msgs[0])] else [];
      assert (msgs + [m])[1..] == msgs[1..] + [m];
      assert MessagesOf(msgs + [m], cid) == h + MessagesOf(msgs[1..] + [m], cid);
      MessagesOfSnoc(msgs[1..], m, cid);
      assert h + (MessagesOf(msgs[1..], cid) + last) == (h + MessagesOf(msgs[1..], cid)) + last;
    }
  }

  /** load_conversation: an unknown id gives just the id and no messages; a known
      one gives its row and its messages in ascending id order. */
  function Load(convs: seq<(string, ConversationRow)>, msgs: seq<MessageRow>, cid: string): Loaded {
    match Lookup(convs, cid)
    case None => Missing(cid)
    case Some(c) => Found(cid, c.title, c.meta, c.updatedAt, MessagesOf(msgs, cid))
  }

  /** After append_message, loading the conversation gives the earlier messages
      followed by the new one, and the title is reset to None. */
  lemma {:induction false} AppendThenLoad(convs: seq<(string, ConversationRow)>, msgs: seq<MessageRow>,
                                          id: nat, cid: string, role: string, text: string, now: string)
    requires UniqueKeys(convs)
    ensures var convs' := Replace(convs, cid, ConversationRow(None, map["id" := JStr(cid)], now));
      var msgs' := msgs + [MessageRow(id, cid, role, text, now)];
      Load(convs', msgs', cid) == Found(cid, None, map["id" := JStr(cid)], now,
                                        MessagesOf(msgs, cid) + [ChatMessage(role, text, now)])
  {
    ReplaceSpec(convs, cid, ConversationRow(None, map["id" := JStr(cid)], now));
    MessagesOfSnoc(msgs, MessageRow(id, cid, role, text, now), cid);
  }

  /** Appending to one conversation does not change how another one loads,
      except that both rows are kept. */
  lemma {:induction false} AppendKeepsOthers(convs: seq<(string, ConversationRow)>, msgs: seq<MessageRow>,
                                             id: nat, cid: string, other: string, role: string, text: string, now: string)
    requires UniqueKeys(convs) && other != cid
    ensures var convs' := Replace(convs, cid, ConversationRow(None, map["id" := JStr(cid)], now));
      Load(convs', msgs + [MessageRow(id, cid, role, text, now)], other) == Load(convs, msgs, other)
  {
    ReplaceSpec(convs, cid, ConversationRow(None, map["id" := JStr(cid)], now));
    MessagesOfSnoc(msgs, MessageRow(id, cid, role, text, now), other);
  }
}
