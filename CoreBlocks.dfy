/**
 * The three CORE_MEMORY_UPDATE block grammars of the gateway, as
 * deterministic matchers.
 *
 *   Storage   (gateway/seedai_storage.py:14)
 *     CORE_MEMORY_UPDATE \s* ( \{ .*? \} ) \s* END_CORE_MEMORY_UPDATE
 *     case-insensitive, '.' matches newlines
 *   Handler   (gateway/core_memory_handler.py:30)
 *     CORE_MEMORY_UPDATE \s* \n ( \{ [\s\S]*? \} ) \s* \n END_CORE_MEMORY_UPDATE
 *     case-sensitive
 *   CoreStore (gateway/core_store.py:7-10)
 *     CORE \s+ MEMORY \s+ UPDATE \s* ( \{ .*? \} ) \s* END_CORE_MEMORY_UPDATE
 *     case-insensitive, '.' matches newlines
 *
 * Each whitespace run is followed by a non-whitespace literal, so a greedy
 * run always stops at the end of the maximal run (for Handler, the run must
 * end with the newline).  The only real choice is the lazy body: the regex
 * engine tries '}' positions from left to right and takes the first one
 * after which the closing part matches.  A search takes the leftmost start
 * at which a match exists; a substitution removes the matches found by
 * successive searches that start where the previous match ended.
 *
 * The letters of the sentinels (c o r e m y u p d a t n) have no non-ASCII
 * case variants, so ASCII lower-casing decides case-insensitive equality.
 */
module CoreBlocks {
  import opened Common

  datatype Grammar = Storage | Handler | CoreStore

  /** A match: [start, end) is the whole block, [bodyStart, bodyEnd) the braces and what they enclose. */
  datatype Match = Match(start: nat, bodyStart: nat, bodyEnd: nat, end: nat)

  const OPEN: string := "core_memory_update"
  const CLOSE: string := "end_core_memory_update"
  const OPEN_CS: string := "CORE_MEMORY_UPDATE"
  const CLOSE_CS: string := "END_CORE_MEMORY_UPDATE"

  /** The lower-case word w occurs at i, ignoring ASCII case. */
  predicate CiAt(t: string, w: string, i: int) {
    0 <= i && i + |w| <= |t| && Lower(t[i..i + |w|]) == w
  }

  predicate ContainsCi(t: string, w: string) {
    exists i :: 0 <= i <= |t| && CiAt(t, w, i)
  }

  /** The end of the maximal whitespace run starting at i. */
  function SkipWs(t: string, i: nat): (r: nat)
    requires i <= |t|
    ensures i <= r <= |t|
    ensures forall k :: i <= k < r ==> PyIsSpace(t[k])
    ensures r < |t| ==> !PyIsSpace(t[r])
    decreases |t| - i
  {
    if i < |t| && PyIsSpace(t[i]) then SkipWs(t, i + 1) else i
  }

  /** Where the '{' must stand when the grammar's opening part matches at i. */
  function OpenerEnd(g: Grammar, t: string, i: nat): (r: Option<nat>)
    requires i <= |t|
    ensures r.Some? ==> i < r.value <= |t|
  {
    match g
    case Storage =>
      if CiAt(t, OPEN, i) then Some(SkipWs(t, i + |OPEN|)) else None
    case Handler =>
      if OccursAt(t, OPEN_CS, i) then
        var q := SkipWs(t, i + |OPEN_CS|);
        if q > i + |OPEN_CS| && t[q - 1] == '\n' then Some(q) else None
      else None
    case CoreStore =>
      if CiAt(t, "core", i) then
        var a := SkipWs(t, i + 4);
        if a > i + 4 && CiAt(t, "memory", a) then
          var b := SkipWs(t, a + 6);
          if b > a + 6 && CiAt(t, "update", b) then Some(SkipWs(t, b + 6)) else None
        else None
      else None
  }

  /** The end of the match when the closing part matches from j (just after a '}'). */
  function CloserEnd(g: Grammar, t: string, j: nat): (r: Option<nat>)
    requires j <= |t|
    ensures r.Some? ==> j < r.value <= |t|
  {
    var r := SkipWs(t, j);
    match g
    case Handler =>
      if r > j && t[r - 1] == '\n' && OccursAt(t, CLOSE_CS, r) then Some(r + |CLOSE_CS|) else None
    case _ =>
      if CiAt(t, CLOSE, r) then Some(r + |CLOSE|) else None
  }

  /** A '}' at k after which the closing part matches. */
  predicate Closes(g: Grammar, t: string, k: int) {
    0 <= k < |t| && t[k] == '}' && CloserEnd(g, t, k + 1).Some?
  }

  predicate WellFormed(t: string, m: Match) {
    m.start < m.bodyStart < m.bodyEnd <= m.end <= |t|
  }

  /** The lazy body: the first closing '}' at or after j. */
  function LazyBody(g: Grammar, t: string, i: nat, q: nat, j: nat): (r: Option<Match>)
    requires i < q <= j <= |t|
    ensures r.Some? ==> r.value.start == i && r.value.bodyStart == q && j < r.value.bodyEnd
    ensures r.Some? ==> WellFormed(t, r.value) && Closes(g, t, r.value.bodyEnd - 1)
    ensures r.Some? ==> CloserEnd(g, t, r.value.bodyEnd) == Some(r.value.end)
    ensures r.Some? ==> forall k :: j <= k < r.value.bodyEnd - 1 ==> !Closes(g, t, k)
    ensures r.None? ==> forall k :: j <= k ==> !Closes(g, t, k)
    decreases |t| - j
  {
    if j == |t| then None
    else if Closes(g, t, j) then Some(Match(i, q, j + 1, CloserEnd(g, t, j + 1).value))
    else LazyBody(g, t, i, q, j + 1)
  }

  /** The match starting at i, if the pattern matches there. */
  function MatchAt(g: Grammar, t: string, i: nat): (r: Option<Match>)
    requires i <= |t|
    ensures r.Some? ==> r.value.start == i && WellFormed(t, r.value)
    ensures r.Some? ==> OpenerEnd(g, t, i) == Some(r.value.bodyStart) && t[r.value.bodyStart] == '{'
  {
    match OpenerEnd(g, t, i)
    case None => None
    case Some(q) => if q < |t| && t[q] == '{' then LazyBody(g, t, i, q, q) else None
  }

  /** pattern.search(t, from): the leftmost match starting at or after from. */
  function Search(g: Grammar, t: string, from: nat): (r: Option<Match>)
    requires from <= |t|
    ensures r.Some? ==> from <= r.value.start <= |t| && MatchAt(g, t, r.value.start) == r
    ensures r.Some? ==> forall k :: from <= k < r.value.start ==> MatchAt(g, t, k).None?
    ensures r.None? ==> forall k :: from <= k <= |t| ==> MatchAt(g, t, k).None?
    decreases |t| - from
  {
    var m := MatchAt(g, t, from);
    if m.Some? then m
    else if from == |t| then None
    else Search(g, t, from + 1)
  }

  /** The text of the captured group. */
  function Body(t: string, m: Match): string
    requires WellFormed(t, m)
  {
    t[m.bodyStart..m.bodyEnd]
  }

  /** pattern.sub("", t[from..]): every match found left to right removed. */
  function Sub(g: Grammar, t: string, from: nat): (r: string)
    requires from <= |t|
    ensures |r| <= |t| - from
    ensures Search(g, t, from).Some? ==> |r| < |t| - from
    decreases |t| - from
  {
    match Search(g, t, from)
    case None => t[from..]
    case Some(m) => t[from..m.start] + Sub(g, t, m.end)
  }

  /** One block, then none: sub removes exactly that block. */
  lemma SubOneBlock(g: Grammar, t: string, m: Match)
    requires Search(g, t, 0) == Some(m) && m.end <= |t| && Search(g, t, m.end).None?
    ensures Sub(g, t, 0) == t[..m.start] + t[m.end..]
  {
  }

  // ---------------------------------------------------------------------
  // Comparing the grammars

  lemma LowerOpenCs()
    ensures Lower(OPEN_CS) == OPEN
    ensures Lower(CLOSE_CS) == CLOSE
  {
    assert forall k :: 0 <= k < |OPEN| ==> LowerChar(OPEN_CS[k]) == OPEN[k];
    assert forall k :: 0 <= k < |CLOSE| ==> LowerChar(CLOSE_CS[k]) == CLOSE[k];
  }

  /** Every block the case-sensitive Handler grammar accepts at i is also accepted
      at i by the Storage grammar, with the same opening brace and a body that
      ends no later: the lazy Storage body may stop at an earlier '}'. */
  lemma HandlerMatchIsStorageMatch(t: string, i: nat)
    requires i <= |t|
    requires MatchAt(Handler, t, i).Some?
    ensures MatchAt(Storage, t, i).Some?
    ensures MatchAt(Storage, t, i).value.bodyStart == MatchAt(Handler, t, i).value.bodyStart
    ensures MatchAt(Storage, t, i).value.bodyEnd <= MatchAt(Handler, t, i).value.bodyEnd
  {
    LowerOpenCs();
    var h := MatchAt(Handler, t, i).value;
    assert t[i..i + |OPEN_CS|] == OPEN_CS;
    assert CiAt(t, OPEN, i);
    assert OpenerEnd(Storage, t, i) == Some(h.bodyStart);
    var k := h.bodyEnd - 1;
    var r := SkipWs(t, k + 1);
    assert t[r..r + |CLOSE_CS|] == CLOSE_CS;
    assert CiAt(t, CLOSE, r);
    assert Closes(Storage, t, k);
  }

  /** A text without a newline never holds a Handler block: single-line blocks
      are not recognised. */
  lemma HandlerNeedsNewline(t: string, from: nat)
    requires from <= |t|
    requires forall k :: 0 <= k < |t| ==> t[k] != '\n'
    ensures Search(Handler, t, from).None?
  {
  }

  /** The CoreStore opener needs whitespace after "core"; a text in which every
      "core" is followed by '_' (the underscore spelling) holds no CoreStore block. */
  lemma UnderscoreFormNotMatched(t: string, from: nat)
    requires from <= |t|
    requires forall i :: CiAt(t, "core", i) ==> i + 4 < |t| && t[i + 4] == '_'
    ensures Search(CoreStore, t, from).None?
  {
  }

  // ---------------------------------------------------------------------
  // Positions of the sentinels inside a Storage match

  /** A Storage match starts with the opener and ends with the closer, and the
      closer begins after the opener ends. */
  lemma StorageMatchShape(t: string, i: nat)
    requires i <= |t|
    requires MatchAt(Storage, t, i).Some?
    ensures CiAt(t, OPEN, i)
    ensures var e := MatchAt(Storage, t, i).value.end;
      e - |CLOSE| > i + |OPEN| && CiAt(t, CLOSE, e - |CLOSE|)
  {
  }

  /** The opener and the closer of the leftmost Storage block. */
  lemma StorageSearchShape(t: string, from: nat) returns (i: nat, e: nat)
    requires from <= |t| && Search(Storage, t, from).Some?
    ensures i == Search(Storage, t, from).value.start
    ensures from <= i && CiAt(t, OPEN, i) && CiAt(t, CLOSE, e) && i + |OPEN| < e
  {
    i := Search(Storage, t, from).value.start;
    StorageMatchShape(t, i);
    e := MatchAt(Storage, t, i).value.end - |CLOSE|;
  }

  /** The closer contains the opener four characters in. */
  lemma CloseHoldsOpen(t: string, r: int)
    requires CiAt(t, CLOSE, r)
    ensures CiAt(t, OPEN, r + 4)
  {
    assert t[r + 4..r + 4 + |OPEN|] == t[r..r + |CLOSE|][4..];
    assert Lower(t[r..r + |CLOSE|])[4..] == Lower(t[r + 4..r + 4 + |OPEN|]);
    assert CLOSE[4..] == OPEN;
  }

  lemma CiAtSlice(t: string, x: nat, y: nat, w: string, k: int)
    requires x <= y <= |t|
    requires CiAt(t[x..y], w, k)
    ensures CiAt(t, w, x + k)
  {
    var s := t[x..y];
    var a, b := s[k..k + |w|], t[x + k..x + k + |w|];
    forall n | 0 <= n < |w| ensures a[n] == b[n] {
      assert s[k + n] == t[x + k + n];
    }
    assert a == b;
  }

  lemma CiAtSplit(a: string, b: string, w: string, k: int)
    requires CiAt(a + b, w, k)
    ensures k + |w| <= |a| ==> CiAt(a, w, k)
    ensures k >= |a| ==> CiAt(b, w, k - |a|)
  {
    var u := a + b;
    if k + |w| <= |a| {
      assert u[k..k + |w|] == a[k..k + |w|];
    }
    if k >= |a| {
      assert u[k..k + |w|] == b[k - |a|..k - |a| + |w|];
    }
  }

  // ---------------------------------------------------------------------
  // A Storage match inside a slice is a match in the whole text

  lemma SkipWsSlice(t: string, x: nat, y: nat, k: nat)
    requires x <= y <= |t|
    requires k <= y - x
    requires SkipWs(t[x..y], k) < y - x
    ensures SkipWs(t, x + k) == x + SkipWs(t[x..y], k)
    decreases y - x - k
  {
    var s := t[x..y];
    assert s[k] == t[x + k];
    if PyIsSpace(s[k]) {
      SkipWsSlice(t, x, y, k + 1);
    }
  }

  lemma ClosesSlice(t: string, x: nat, y: nat, k: nat)
    requires x <= y <= |t|
    requires Closes(Storage, t[x..y], k)
    ensures Closes(Storage, t, x + k)
  {
    var s := t[x..y];
    var r := SkipWs(s, k + 1);
    assert CloserEnd(Storage, s, k + 1).Some?;
    assert CiAt(s, CLOSE, r);
    SkipWsSlice(t, x, y, k + 1);
    CiAtSlice(t, x, y, CLOSE, r);
    assert SkipWs(t, x + k + 1) == x + r;
    assert CloserEnd(Storage, t, x + k + 1) == Some(x + r + |CLOSE|);
    assert s[k] == t[x + k];
  }

  lemma MatchAtSlice(t: string, x: nat, y: nat, i: nat)
    requires x <= y <= |t|
    requires i <= y - x
    requires MatchAt(Storage, t[x..y], i).Some?
    ensures MatchAt(Storage, t, x + i).Some?
  {
    var m := MatchAt(Storage, t[x..y], i).value;
    OpenerSlice(t, x, y, i, m.bodyStart);
    assert t[x + m.bodyStart] == t[x..y][m.bodyStart];
    ClosesSlice(t, x, y, m.bodyEnd - 1);
  }

  lemma OpenerSlice(t: string, x: nat, y: nat, i: nat, q: nat)
    requires x <= y <= |t|
    requires i <= y - x && q < y - x
    requires OpenerEnd(Storage, t[x..y], i) == Some(q)
    ensures OpenerEnd(Storage, t, x + i) == Some(x + q)
  {
    CiAtSlice(t, x, y, OPEN, i);
    SkipWsSlice(t, x, y, i + |OPEN|);
  }

  /** Trimming cannot create a Storage block: if t holds none, neither does any slice of it. */
  lemma NoMatchInSlice(t: string, x: nat, y: nat)
    requires x <= y <= |t|
    requires Search(Storage, t, 0).None?
    ensures Search(Storage, t[x..y], 0).None?
  {
    if Search(Storage, t[x..y], 0).Some? {
      var i := Search(Storage, t[x..y], 0).value.start;
      MatchAtSlice(t, x, y, i);
    }
  }

  // ---------------------------------------------------------------------
  // Helpers for locating concrete blocks

  /** The leftmost match, found once every earlier start has failed. */
  lemma SearchFinds(g: Grammar, t: string, from: nat, k: nat)
    requires from <= k <= |t|
    requires forall j :: from <= j < k ==> MatchAt(g, t, j).None?
    requires MatchAt(g, t, k).Some?
    ensures Search(g, t, from) == MatchAt(g, t, k)
  {
  }

  lemma SkipWsRun(t: string, a: nat, b: nat)
    requires a <= b < |t|
    requires forall k :: a <= k < b ==> PyIsSpace(t[k])
    requires !PyIsSpace(t[b])
    ensures SkipWs(t, a) == b
    decreases b - a
  {
    if a < b {
      SkipWsRun(t, a + 1, b);
    }
  }

  lemma LowerAt(t: string, w: string, i: nat, d: nat)
    requires CiAt(t, w, i) && d < |w|
    ensures LowerChar(t[i + d]) == w[d]
  {
    assert Lower(t[i..i + |w|])[d] == LowerChar(t[i..i + |w|][d]);
  }

  lemma OpenLetters(d: nat)
    requires 1 <= d < 18
    ensures OPEN[d] != 'c'
  {
  }

  /** Two occurrences of the opener never overlap: no proper suffix of
      "core_memory_update" is a prefix of it. */
  lemma OpenerBorderFree(t: string, k: nat, i: nat)
    requires CiAt(t, OPEN, k) && CiAt(t, OPEN, i) && k < i
    ensures k + |OPEN| <= i
  {
    if i < k + |OPEN| {
      var d := i - k;
      LowerAt(t, OPEN, k, d);
      LowerAt(t, OPEN, i, 0);
      OpenLetters(d);
    }
  }

  /** A Storage match located piece by piece: the opener at i, whitespace up to
      the '{' at q, no '}' before the one at j, whitespace up to the closer at r. */
  lemma StorageBlockAt(t: string, i: nat, q: nat, j: nat, r: nat)
    requires i + |OPEN_CS| <= q < j < r && r + |CLOSE_CS| <= |t|
    requires t[i..i + |OPEN_CS|] == OPEN_CS
    requires forall k :: i + |OPEN_CS| <= k < q ==> PyIsSpace(t[k])
    requires t[q] == '{' && t[j] == '}'
    requires forall k :: q <= k < j ==> t[k] != '}'
    requires forall k :: j + 1 <= k < r ==> PyIsSpace(t[k])
    requires t[r..r + |CLOSE_CS|] == CLOSE_CS
    ensures MatchAt(Storage, t, i) == Some(Match(i, q, j + 1, r + |CLOSE_CS|))
  {
    StorageOpenerAt(t, i, q);
    StorageCloserAt(t, j, r);
    var m := LazyBody(Storage, t, i, q, q);
    assert m.Some? && m.value.bodyEnd - 1 == j;
  }

  lemma StorageOpenerAt(t: string, i: nat, q: nat)
    requires i + |OPEN_CS| <= q < |t|
    requires t[i..i + |OPEN_CS|] == OPEN_CS
    requires forall k :: i + |OPEN_CS| <= k < q ==> PyIsSpace(t[k])
    requires t[q] == '{'
    ensures OpenerEnd(Storage, t, i) == Some(q)
  {
    LowerOpenCs();
    assert CiAt(t, OPEN, i);
    SkipWsRun(t, i + |OPEN_CS|, q);
  }

  lemma StorageCloserAt(t: string, j: nat, r: nat)
    requires j < r && r + |CLOSE_CS| <= |t|
    requires t[j] == '}'
    requires forall k :: j + 1 <= k < r ==> PyIsSpace(t[k])
    requires t[r..r + |CLOSE_CS|] == CLOSE_CS
    ensures Closes(Storage, t, j) && CloserEnd(Storage, t, j + 1) == Some(r + |CLOSE_CS|)
  {
    LowerOpenCs();
    assert t[r] == CLOSE_CS[0];
    SkipWsRun(t, j + 1, r);
    assert CiAt(t, CLOSE, r);
  }
}
