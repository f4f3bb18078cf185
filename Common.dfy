/**
 * Shared vocabulary of the model: optional values, JSON values, and the
 * handful of Python and JavaScript string operations that the modelled code
 * relies on (whitespace, ASCII case mapping, strip/trim, split, join and
 * Python's slice semantics for negative bounds).
 */
module Common {

  datatype Option<T> = None | Some(value: T)

  /** A value, or the Python exception (by class name) that replaced it. */
  datatype Result<T> = Ok(value: T) | Err(error: string)

  /** A JSON value as produced by json.loads / JSON.parse.  Objects are maps;
      the insertion order of a Python dict is not modelled. */
  datatype Json =
    | JNull
    | JBool(b: bool)
    | JNum(n: real)
    | JStr(s: string)
    | JArr(items: seq<Json>)
    | JObj(fields: map<string, Json>)

  type Obj = map<string, Json>

  /** A JSON file on disk, held as the value it parses to: None when the file
      is missing or does not parse.  Writing json.dumps(v) stores Some(v). */
  class JsonFile {
    var data: Option<Json>

    constructor (d: Option<Json>)
      ensures data == d
    {
      data := d;
    }

    /** The pattern every loader of a JSON file follows: the value the file
        holds, or {} when it is missing or does not parse. */
    function Loaded(): (r: Json)
      reads this
      ensures data.Some? ==> r == data.value
      ensures data.None? ==> r == JObj(map[])
    {
      if data.Some? then data.value else JObj(map[])
    }
  }

  /** bool(v) in Python: empty containers, "", 0 and None are false. */
  predicate PyTruthy(v: Json) {
    match v
    case JNull => false
    case JBool(b) => b
    case JNum(n) => n != 0.0
    case JStr(s) => s != ""
    case JArr(items) => items != []
    case JObj(fields) => fields != map[]
  }

  /** Truthiness in JavaScript: every array and object is true. */
  predicate JsTruthy(v: Json) {
    match v
    case JNull => false
    case JBool(b) => b
    case JNum(n) => n != 0.0
    case JStr(s) => s != ""
    case JArr(_) => true
    case JObj(_) => true
  }

  /** d.get(k) of a Python dict. */
  function Get(d: Obj, k: string): Option<Json> {
    if k in d then Some(d[k]) else None
  }

  // ---------------------------------------------------------------------
  // Python slices s[:n] and s[n:], including negative n

  function SliceTo<T>(s: seq<T>, n: int): (r: seq<T>)
    ensures 0 <= n <= |s| ==> r == s[..n]
    ensures n >= |s| ==> r == s
    ensures n < 0 ==> r == s[..if |s| + n < 0 then 0 else |s| + n]
  {
    if n >= 0 then (if n <= |s| then s[..n] else s)
    else if |s| + n < 0 then [] else s[..|s| + n]
  }

  function SliceFrom<T>(s: seq<T>, n: int): (r: seq<T>)
    ensures 0 <= n <= |s| ==> r == s[n..]
    ensures n >= |s| ==> r == []
    ensures n < 0 ==> r == s[if |s| + n < 0 then 0 else |s| + n..]
  {
    if n >= 0 then (if n <= |s| then s[n..] else [])
    else if |s| + n < 0 then s else s[|s| + n..]
  }

  /** s[-n:] for n > 0: the last n elements (all of s when it is shorter). */
  lemma SliceFromNegIsSuffix<T>(s: seq<T>, n: int)
    requires n > 0
    ensures |SliceFrom(s, -n)| == if n <= |s| then n else |s|
    ensures SliceFrom(s, -n) == s[|s| - |SliceFrom(s, -n)|..]
  {
  }

  // ---------------------------------------------------------------------
  // Characters

  /** str.isspace() of Python, which is also what \s matches in a str pattern. */
  predicate PyIsSpace(c: char) {
    ('\t' <= c <= '\r') || ('\U{1C}' <= c <= '\U{1F}') || c == ' ' || c == '\U{85}'
    || c == '\U{A0}' || c == '\U{1680}' || ('\U{2000}' <= c <= '\U{200A}')
    || c == '\U{2028}' || c == '\U{2029}' || c == '\U{202F}' || c == '\U{205F}' || c == '\U{3000}'
  }

  /** WhiteSpace or LineTerminator of ECMAScript: what String.prototype.trim removes
      and what \s matches in a JavaScript regular expression. */
  predicate JsIsSpace(c: char) {
    ('\t' <= c <= '\r') || c == ' ' || c == '\U{A0}' || c == '\U{1680}'
    || ('\U{2000}' <= c <= '\U{200A}') || c == '\U{2028}' || c == '\U{2029}'
    || c == '\U{202F}' || c == '\U{205F}' || c == '\U{3000}' || c == '\U{FEFF}'
  }

  predicate IsAsciiAlnum(c: char) {
    ('a' <= c <= 'z') || ('A' <= c <= 'Z') || ('0' <= c <= '9')
  }

  function LowerChar(c: char): char {
    if 'A' <= c <= 'Z' then (c as int + 32) as char else c
  }

  function UpperChar(c: char): char {
    if 'a' <= c <= 'z' then (c as int - 32) as char else c
  }

  /** str.lower() restricted to ASCII letters. */
  function Lower(s: string): (r: string)
    ensures |r| == |s|
    ensures forall i :: 0 <= i < |s| ==> r[i] == LowerChar(s[i])
  {
    seq(|s|, i requires 0 <= i < |s| => LowerChar(s[i]))
  }

  /** str.upper() restricted to ASCII letters. */
  function Upper(s: string): (r: string)
    ensures |r| == |s|
    ensures forall i :: 0 <= i < |s| ==> r[i] == UpperChar(s[i])
  {
    seq(|s|, i requires 0 <= i < |s| => UpperChar(s[i]))
  }

  lemma LowerAppend(a: string, b: string)
    ensures Lower(a + b) == Lower(a) + Lower(b)
  {
  }

  lemma LowerSlice(s: string, i: nat, j: nat)
    requires i <= j <= |s|
    ensures Lower(s[i..j]) == Lower(s)[i..j]
  {
  }

  // ---------------------------------------------------------------------
  // Substrings

  predicate StartsWith(s: string, p: string) {
    |p| <= |s| && s[..|p|] == p
  }

  /** p occurs in s at index i. */
  predicate OccursAt(s: string, p: string, i: int) {
    0 <= i && i + |p| <= |s| && s[i..i + |p|] == p
  }

  /** `p in s` for Python strings. */
  predicate Contains(s: string, p: string) {
    exists i :: 0 <= i <= |s| - |p| && OccursAt(s, p, i)
  }

  /** Recursive search for p in s: the index of the first occurrence at or after `from`. */
  function FindFrom(s: string, p: string, from: nat): (r: Option<nat>)
    requires from <= |s|
    ensures r.Some? ==> from <= r.value && OccursAt(s, p, r.value)
    ensures r.Some? ==> forall j :: from <= j < r.value ==> !OccursAt(s, p, j)
    ensures r.None? ==> forall j :: from <= j ==> !OccursAt(s, p, j)
    decreases |s| - from
  {
    if OccursAt(s, p, from) then Some(from)
    else if from == |s| then None
    else FindFrom(s, p, from + 1)
  }

  /** `p in s`, decided by FindFrom. */
  lemma ContainsIffFind(s: string, p: string)
    ensures Contains(s, p) <==> FindFrom(s, p, 0).Some?
  {
    if FindFrom(s, p, 0).Some? {
      assert OccursAt(s, p, FindFrom(s, p, 0).value);
    }
  }

  // ---------------------------------------------------------------------
  // Stripping

  function TrimStart(s: string, sp: char -> bool): (r: string)
    ensures |r| <= |s| && r == s[|s| - |r|..]
    ensures r != [] ==> !sp(r[0])
    decreases |s|
  {
    if s != [] && sp(s[0]) then TrimStart(s[1..], sp) else s
  }

  function TrimEnd(s: string, sp: char -> bool): (r: string)
    ensures |r| <= |s| && r == s[..|r|]
    ensures r != [] ==> !sp(r[|r| - 1])
    decreases |s|
  {
    if s != [] && sp(s[|s| - 1]) then TrimEnd(s[..|s| - 1], sp) else s
  }

  function Trim(s: string, sp: char -> bool): string {
    TrimEnd(TrimStart(s, sp), sp)
  }

  /** str.strip() of Python. */
  function PyStrip(s: string): string {
    Trim(s, PyIsSpace)
  }

  /** String.prototype.trim() of JavaScript. */
  function JsTrim(s: string): string {
    Trim(s, JsIsSpace)
  }

  /** A stripped string is a slice of the input with no whitespace at either end. */
  lemma TrimEnds(s: string, sp: char -> bool)
    ensures var r := Trim(s, sp);
      var a := |s| - |TrimStart(s, sp)|;
      a + |r| <= |s| && r == s[a..a + |r|]
      && (r != [] ==> !sp(r[0]) && !sp(r[|r| - 1]))
  {
    TrimIsSlice(s, sp);
    TrimEndsNotSpace(s, sp);
  }

  lemma TrimIsSlice(s: string, sp: char -> bool)
    ensures var t := TrimStart(s, sp);
      var r := TrimEnd(t, sp);
      var a := |s| - |t|;
      a + |r| <= |s| && r == s[a..a + |r|]
  {
    var t := TrimStart(s, sp);
    var r := TrimEnd(t, sp);
    SliceOfSlice(s, |s| - |t|, |r|);
  }

  /** str.strip() keeps a contiguous slice of its argument. */
  lemma PyStripSlice(s: string) returns (x: nat, y: nat)
    ensures x <= y <= |s| && PyStrip(s) == s[x..y]
  {
    var t := TrimStart(s, PyIsSpace);
    var r := TrimEnd(t, PyIsSpace);
    TrimIsSlice(s, PyIsSpace);
    x, y := |s| - |t|, |s| - |t| + |r|;
  }

  lemma TrimEndsNotSpace(s: string, sp: char -> bool)
    ensures var r := Trim(s, sp);
      r != [] ==> !sp(r[0]) && !sp(r[|r| - 1])
  {
    var t := TrimStart(s, sp);
    var r := TrimEnd(t, sp);
    if r != [] {
      assert r[0] == t[0];
    }
  }

  lemma SliceOfSlice<T>(s: seq<T>, a: nat, n: nat)
    requires a <= |s| && n <= |s| - a
    ensures s[a..][..n] == s[a..a + n]
  {
  }

  /** Stripping twice is stripping once. */
  lemma TrimIdempotent(s: string, sp: char -> bool)
    ensures Trim(Trim(s, sp), sp) == Trim(s, sp)
  {
    var r := Trim(s, sp);
    TrimEnds(s, sp);
    assert TrimStart(r, sp) == r;
    assert TrimEnd(r, sp) == r;
  }

  /** Text with no whitespace at either end strips to itself. */
  lemma TrimNoSpaceEnds(s: string, sp: char -> bool)
    requires s != [] ==> !sp(s[0]) && !sp(s[|s| - 1])
    ensures Trim(s, sp) == s
  {
  }

  /** Text that is all whitespace strips to the empty string. */
  lemma TrimAllSpace(s: string, sp: char -> bool)
    requires forall i :: 0 <= i < |s| ==> sp(s[i])
    ensures Trim(s, sp) == ""
    decreases |s|
  {
    if s != [] {
      assert TrimStart(s, sp) == TrimStart(s[1..], sp);
      TrimAllSpace(s[1..], sp);
    }
  }

  // ---------------------------------------------------------------------
  // Splitting and joining

  /** Length of the leading run of non-whitespace characters. */
  function WordLen(s: string): (n: nat)
    ensures n <= |s|
    ensures forall i :: 0 <= i < n ==> !PyIsSpace(s[i])
    ensures n < |s| ==> PyIsSpace(s[n])
    decreases |s|
  {
    if s == [] || PyIsSpace(s[0]) then 0 else 1 + WordLen(s[1..])
  }

  /** str.split() with no separator: the maximal runs of non-whitespace. */
  function SplitWs(s: string): (r: seq<string>)
    ensures forall k :: 0 <= k < |r| ==> r[k] != ""
    ensures forall k, i :: 0 <= k < |r| && 0 <= i < |r[k]| ==> !PyIsSpace(r[k][i])
    decreases |s|
  {
    if s == [] then []
    else if PyIsSpace(s[0]) then SplitWs(s[1..])
    else
      var n := WordLen(s);
      [s[..n]] + SplitWs(s[n..])
  }

  /** sep.join(parts). */
  function Join(parts: seq<string>, sep: string): string {
    if parts == [] then ""
    else if |parts| == 1 then parts[0]
    else parts[0] + sep + Join(parts[1..], sep)
  }

  lemma JoinSnoc(parts: seq<string>, x: string, sep: string)
    requires parts != []
    ensures Join(parts + [x], sep) == Join(parts, sep) + sep + x
  {
    if |parts| == 1 {
      assert (parts + [x])[1..] == [x];
    } else {
      assert (parts + [x])[1..] == parts[1..] + [x];
      JoinSnoc(parts[1..], x, sep);
    }
  }

  /** Length of a join: the parts plus one separator between each pair. */
  lemma {:induction false} JoinLength(parts: seq<string>, sep: string)
    ensures |Join(parts, sep)| == SumLengths(parts) + (if parts == [] then 0 else (|parts| - 1) * |sep|)
  {
    if |parts| > 1 {
      JoinLength(parts[1..], sep);
    }
  }

  function SumLengths(parts: seq<string>): nat {
    if parts == [] then 0 else |parts[0]| + SumLengths(parts[1..])
  }

  lemma {:induction false} SumLengthsAppend(a: seq<string>, b: seq<string>)
    ensures SumLengths(a + b) == SumLengths(a) + SumLengths(b)
  {
    if a != [] {
      assert (a + b)[0] == a[0];
      assert (a + b)[1..] == a[1..] + b;
      SumLengthsAppend(a[1..], b);
    } else {
      assert a + b == b;
    }
  }

  /** s.split(c) for a one-character separator. */
  function SplitOn(s: string, c: char): (r: seq<string>)
    ensures |r| >= 1
    decreases |s|
  {
    if s == [] then [""]
    else
      var rest := SplitOn(s[1..], c);
      if s[0] == c then [""] + rest else [[s[0]] + rest[0]] + rest[1..]
  }

  /** Splitting a text that starts with a separator-free piece and a separator. */
  lemma {:induction false} SplitOnHead(a: string, c: char, b: string)
    requires c !in a
    ensures SplitOn(a + [c] + b, c) == [a] + SplitOn(b, c)
  {
    if a == [] {
      assert a + [c] + b == [c] + b;
      assert ([c] + b)[1..] == b;
    } else {
      assert (a + [c] + b)[1..] == a[1..] + [c] + b;
      SplitOnHead(a[1..], c, b);
      assert [a[0]] + a[1..] == a;
    }
  }

  lemma {:induction false} SplitOnFree(a: string, c: char)
    requires c !in a
    ensures SplitOn(a, c) == [a]
  {
    if a != [] {
      SplitOnFree(a[1..], c);
      assert [a[0]] + a[1..] == a;
    }
  }

  /** Splitting a join on its one-character separator gives the parts back
      when no part holds that character. */
  lemma {:induction false} SplitJoin(parts: seq<string>, c: char)
    requires parts != []
    requires forall k :: 0 <= k < |parts| ==> c !in parts[k]
    ensures SplitOn(Join(parts, [c]), c) == parts
  {
    if |parts| == 1 {
      SplitOnFree(parts[0], c);
    } else {
      SplitJoin(parts[1..], c);
      SplitOnHead(parts[0], c, Join(parts[1..], [c]));
      assert [parts[0]] + parts[1..] == parts;
    }
  }

  /** Joining the pieces of a split on a one-character separator gives the
      text back. */
  lemma {:induction false} JoinSplit(s: string, c: char)
    ensures Join(SplitOn(s, c), [c]) == s
    decreases |s|
  {
    if s != [] {
      var rest := SplitOn(s[1..], c);
      JoinSplit(s[1..], c);
      if s[0] == c {
        assert SplitOn(s, c) == [""] + rest;
        assert ([""] + rest)[1..] == rest;
      } else {
        assert SplitOn(s, c) == [[s[0]] + rest[0]] + rest[1..];
        if |rest| > 1 {
          assert ([[s[0]] + rest[0]] + rest[1..])[1..] == rest[1..];
          assert Join(rest, [c]) == rest[0] + [c] + Join(rest[1..], [c]);
        }
        assert [s[0]] + s[1..] == s;
      }
    }
  }

  /** Joining two non-empty lists of parts: the joins of both, with one
      separator between them. */
  lemma {:induction false} JoinAppend(a: seq<string>, b: seq<string>, sep: string)
    requires a != [] && b != []
    ensures Join(a + b, sep) == Join(a, sep) + sep + Join(b, sep)
    decreases |b|
  {
    if |b| == 1 {
      assert a + b == a + [b[0]];
      JoinSnoc(a, b[0], sep);
    } else {
      var init := b[..|b| - 1];
      JoinAppend(a, init, sep);
      assert a + b == (a + init) + [b[|b| - 1]];
      assert init + [b[|b| - 1]] == b;
      JoinSnoc(a + init, b[|b| - 1], sep);
      JoinSnoc(init, b[|b| - 1], sep);
    }
  }
}
