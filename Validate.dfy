/**
 * scripts/seedai_validate.py: the pure parts of the validator.  These are
 * the truncation of collected files, the redaction of .env files, the
 * redact-then-truncate order in collect_files, and the two health
 * predicates over the gateway's replies.
 *
 * Globbing, reading files, the zip archive and the HTTP requests are
 * collaborators.  The files a pattern matched arrive as a parameter, with
 * what reading each gave.  The archive is the sequence of (path, bytes)
 * entries written to it.  UTF-8 decoding (with "ignore") and encoding are
 * function parameters.
 */
module Validate {
  import opened Common

  newtype byte = x: int | 0 <= x < 256

  type Bytes = seq<byte>

  const REDACT_KEYS: seq<string> :=
    ["API_KEY", "OPENAI_API_KEY", "GATEWAY_API_KEY", "AUTH", "PASSWORD", "SECRET", "TOKEN"]
  const REDACTED := "***redacted***"

  /** The bytes of an ASCII text. */
  function Ascii(s: string): (r: Bytes)
    requires forall i :: 0 <= i < |s| ==> s[i] as int < 128
    ensures |r| == |s|
    ensures forall i :: 0 <= i < |s| ==> r[i] as int == s[i] as int
  {
    seq(|s|, i requires 0 <= i < |s| => s[i] as int as byte)
  }

  /** The marker appended to a truncated file. */
  const MARKER: Bytes := Ascii("\n\n[...truncated...]\n")

  // ---------------------------------------------------------------------
  // truncate

  /** truncate as written: the marker is built as b"...".encode(), and bytes
      have no encode method, so every call on a file longer than n raises. */
  function TruncateAsWritten(b: Bytes, n: int): (r: Result<Bytes>)
    ensures |b| <= n ==> r == Ok(b)
    ensures |b| > n ==> r == Err("AttributeError")
  {
    if |b| <= n then Ok(b) else Err("AttributeError")
  }

  /** truncate as intended: b itself when it fits in n bytes, otherwise its
      first n bytes followed by the marker. */
  function Truncate(b: Bytes, n: int): (r: Bytes)
    ensures |b| <= n ==> r == b
    ensures 0 <= n < |b| ==> |r| == n + |MARKER| && r[..n] == b[..n] && r[n..] == MARKER
  {
    if |b| <= n then b else SliceTo(b, n) + MARKER
  }

  /** A truncated file is never longer than the cap plus the marker. */
  lemma TruncateBound(b: Bytes, n: nat)
    ensures |Truncate(b, n)| <= n + |MARKER|
  {
  }

  /** Truncating a truncated file changes nothing. */
  lemma TruncateIdempotent(b: Bytes, n: nat)
    ensures Truncate(Truncate(b, n), n) == Truncate(b, n)
  {
    if |b| > n {
      var r := Truncate(b, n);
      assert |r| > n;
      assert r[..n] + MARKER == r;
    }
  }

  // ---------------------------------------------------------------------
  // str.splitlines()

  /** The characters str.splitlines() breaks lines at. */
  predicate IsLineBreak(c: char) {
    c == '\n' || c == '\r' || c == '\U{B}' || c == '\U{C}' || c == '\U{1C}' || c == '\U{1D}'
    || c == '\U{1E}' || c == '\U{85}' || c == '\U{2028}' || c == '\U{2029}'
  }

  predicate NoLineBreak(s: string) {
    forall i :: 0 <= i < |s| ==> !IsLineBreak(s[i])
  }

  /** Length of the first line: the run before the first line break. */
  function LineLen(s: string): (n: nat)
    ensures n <= |s| && NoLineBreak(s[..n])
    ensures n < |s| ==> IsLineBreak(s[n])
    decreases |s|
  {
    if s == [] || IsLineBreak(s[0]) then 0
    else
      var n := 1 + LineLen(s[1..]);
      assert s[..n] == [s[0]] + s[1..][..n - 1];
      n
  }

  /** text.splitlines(): "\r\n" is one break, and a final break does not
      start an empty line. */
  function SplitLines(s: string): (r: seq<string>)
    ensures forall k :: 0 <= k < |r| ==> NoLineBreak(r[k])
    ensures s == "" <==> r == []
    decreases |s|
  {
    if s == [] then []
    else
      var n := LineLen(s);
      if n == |s| then [s]
      else
        var brk := if s[n] == '\r' && n + 1 < |s| && s[n + 1] == '\n' then 2 else 1;
        [s[..n]] + SplitLines(s[n + brk..])
  }

  // ---------------------------------------------------------------------
  // redact_env

  /** Length of the key: the text before the first "=". */
  function KeyLen(line: string): (n: nat)
    ensures n <= |line| && '=' !in line[..n]
    ensures n < |line| ==> line[n] == '='
    ensures '=' in line ==> n < |line|
    decreases |line|
  {
    if line == [] || line[0] == '=' then 0
    else
      var n := 1 + KeyLen(line[1..]);
      assert line[..n] == [line[0]] + line[1..][..n - 1];
      n
  }

  /** any(key in k.upper() for key in REDACT_KEYS). */
  predicate Sensitive(key: string) {
    exists j :: 0 <= j < |REDACT_KEYS| && Contains(Upper(key), REDACT_KEYS[j])
  }

  /** One line of redact_env's output.  A line without "=" is kept as it is.
      A line with one keeps its key, and its value becomes ***redacted***
      exactly when the key is sensitive. */
  function RedactLine(line: string): (r: string)
    ensures '=' !in line ==> r == line
    ensures '=' in line && !Sensitive(line[..KeyLen(line)]) ==> r == line
    ensures '=' in line && Sensitive(line[..KeyLen(line)]) ==> r == line[..KeyLen(line) + 1] + REDACTED
  {
    if '=' !in line then line
    else
      var i := KeyLen(line);
      var k, v := line[..i], line[i + 1..];
      assert line == k + "=" + v;
      if Sensitive(k) then k + "=" + REDACTED else k + "=" + v
  }

  /** The redacted lines, one per input line, in order. */
  function RedactAll(lines: seq<string>): (r: seq<string>)
    ensures |r| == |lines|
    ensures forall k :: 0 <= k < |lines| ==> r[k] == RedactLine(lines[k])
  {
    seq(|lines|, k requires 0 <= k < |lines| => RedactLine(lines[k]))
  }

  /** What redact_env returns for a text. */
  function RedactedText(text: string): string {
    Join(RedactAll(SplitLines(text)), "\n")
  }

  /** redact_env: builds the redacted lines in a loop and joins them. */
  method RedactEnv(text: string) returns (r: string)
    ensures r == RedactedText(text)
  {
    var lines := SplitLines(text);
    var out: seq<string> := [];
    var i := 0;
    while i < |lines|
      invariant i <= |lines|
      invariant |out| == i
      invariant forall k :: 0 <= k < i ==> out[k] == RedactLine(lines[k])
    {
      var line := lines[i];
      if '=' in line {
        var n := KeyLen(line);
        var k, v := line[..n], line[n + 1..];
        if Sensitive(k) {
          v := REDACTED;
        }
        assert k + "=" + v == RedactLine(line);
        out := out + [k + "=" + v];
      } else {
        out := out + [line];
      }
      i := i + 1;
    }
    assert out == RedactAll(lines);
    r := Join(out, "\n");
  }

  /** A redacted line never holds a line break. */
  lemma RedactLineNoBreak(line: string)
    requires NoLineBreak(line)
    ensures NoLineBreak(RedactLine(line))
  {
    if '=' in line {
      var i := KeyLen(line);
      assert line[..i + 1] == line[..i] + "=";
      assert NoLineBreak(line[..i + 1]);
    }
  }

  /** redact_env keeps the number of lines: splitting its result on "\n"
      gives back exactly one redacted line per line of the input. */
  lemma {:induction false} RedactEnvLines(text: string)
    requires text != ""
    ensures SplitOn(RedactedText(text), '\n') == RedactAll(SplitLines(text))
    ensures |SplitOn(RedactedText(text), '\n')| == |SplitLines(text)|
  {
    var lines := SplitLines(text);
    var out := RedactAll(lines);
    forall k | 0 <= k < |out| ensures '\n' !in out[k] {
      RedactLineNoBreak(lines[k]);
      assert forall j :: 0 <= j < |out[k]| ==> out[k][j] != '\n';
    }
    SplitJoin(out, '\n');
  }

  /** A text without "=" comes back line for line. */
  lemma RedactWithoutAssignments(text: string)
    requires forall k :: 0 <= k < |SplitLines(text)| ==> '=' !in SplitLines(text)[k]
    ensures RedactAll(SplitLines(text)) == SplitLines(text)
  {
  }

  // ---------------------------------------------------------------------
  // collect_files

  /** A file a pattern matched: its path, its name and suffix, and the bytes
      reading it gave or the exception reading it raised. */
  datatype Found = Found(path: string, name: string, suffix: string, read: Result<Bytes>)

  /** The file is redacted: p.name == ".env" or p.suffix == ".env". */
  predicate IsEnvFile(f: Found) {
    f.name == ".env" || f.suffix == ".env"
  }

  /** The bytes of a file before truncation: .env files are decoded, redacted
      and encoded again, all other files are kept as read. */
  function Prepared(b: Bytes, isEnv: bool, decode: Bytes -> string, encode: string -> Bytes): Bytes {
    if isEnv then encode(RedactedText(decode(b))) else b
  }

  /** What collect_files archives for one file as intended, or the error it
      records instead. */
  function Outcome(f: Found, maxBytes: int, decode: Bytes -> string, encode: string -> Bytes): Result<Bytes> {
    match f.read
    case Err(e) => Err(e)
    case Ok(b) => Ok(Truncate(Prepared(b, IsEnvFile(f), decode, encode), maxBytes))
  }

  /** The same, with truncate as written. */
  function OutcomeAsWritten(f: Found, maxBytes: int, decode: Bytes -> string, encode: string -> Bytes): Result<Bytes> {
    match f.read
    case Err(e) => Err(e)
    case Ok(b) => TruncateAsWritten(Prepared(b, IsEnvFile(f), decode, encode), maxBytes)
  }

  /** Redaction comes before truncation: what is archived from a .env file
      starts with a prefix of its redacted text, and is that text in full
      when it fits. */
  lemma RedactThenTruncate(f: Found, maxBytes: nat, decode: Bytes -> string, encode: string -> Bytes)
    requires f.read.Ok? && IsEnvFile(f)
    ensures var red := encode(RedactedText(decode(f.read.value)));
      var out := Outcome(f, maxBytes, decode, encode);
      && out.Ok?
      && (|red| <= maxBytes ==> out.value == red)
      && (|red| > maxBytes ==> out.value == red[..maxBytes] + MARKER)
  {
  }

  /** As written, a file longer than its cap is never archived: collect_files
      records AttributeError for it, while the intended truncate archives its
      first maxBytes bytes and the marker. */
  lemma LongFileDroppedAsWritten(f: Found, maxBytes: nat, decode: Bytes -> string, encode: string -> Bytes)
    requires f.read.Ok? && |Prepared(f.read.value, IsEnvFile(f), decode, encode)| > maxBytes
    ensures OutcomeAsWritten(f, maxBytes, decode, encode) == Err("AttributeError")
    ensures Outcome(f, maxBytes, decode, encode).Ok?
    ensures |Outcome(f, maxBytes, decode, encode).value| == maxBytes + |MARKER|
  {
  }

  /** The same for one concrete file: a 40-byte log under a 32-byte cap. */
  lemma LongLogAsWritten(decode: Bytes -> string, encode: string -> Bytes)
    ensures var f := Found("data/gateway.log", "gateway.log", ".log", Ok(seq(40, _ => 97 as byte)));
      OutcomeAsWritten(f, 32, decode, encode) == Err("AttributeError")
      && Outcome(f, 32, decode, encode).Ok?
  {
  }

  /** The zip archive and the report's two lists that collect_files appends to. */
  class Report {
    var archive: seq<(string, Bytes)>
    var collected: seq<(string, nat)>
    var errors: seq<(string, string)>

    constructor ()
      ensures archive == [] && collected == [] && errors == []
    {
      archive, collected, errors := [], [], [];
    }
  }

  /** The matched files of a sequence of patterns, in order, each with its
      pattern's cap. */
  function Flat(patterns: seq<(seq<Found>, int)>): (r: seq<(Found, int)>)
    ensures patterns == [] ==> r == []
  {
    if patterns == [] then []
    else
      var (files, maxBytes) := patterns[|patterns| - 1];
      Flat(patterns[..|patterns| - 1]) + Paired(files, maxBytes)
  }

  /** The (path, bytes) entries archived for a sequence of files. */
  function Archived(fs: seq<(Found, int)>, decode: Bytes -> string, encode: string -> Bytes): seq<(string, Bytes)> {
    if fs == [] then []
    else
      var last := fs[|fs| - 1];
      var out := Outcome(last.0, last.1, decode, encode);
      Archived(fs[..|fs| - 1], decode, encode) + (if out.Ok? then [(last.0.path, out.value)] else [])
  }

  /** The (path, error) entries recorded for a sequence of files. */
  function Failed(fs: seq<(Found, int)>, decode: Bytes -> string, encode: string -> Bytes): seq<(string, string)> {
    if fs == [] then []
    else
      var last := fs[|fs| - 1];
      var out := Outcome(last.0, last.1, decode, encode);
      Failed(fs[..|fs| - 1], decode, encode) + (if out.Err? then [(last.0.path, out.error)] else [])
  }

  function Sizes(entries: seq<(string, Bytes)>): (r: seq<(string, nat)>)
    ensures |r| == |entries|
  {
    seq(|entries|, k requires 0 <= k < |entries| => (entries[k].0, |entries[k].1|))
  }

  function TotalBytes(entries: seq<(string, Bytes)>): nat {
    if entries == [] then 0 else TotalBytes(entries[..|entries| - 1]) + |entries[|entries| - 1].1|
  }

  /** Every file ends in exactly one of the archive and the error list. */
  lemma {:induction false} ArchivedOrFailed(fs: seq<(Found, int)>, decode: Bytes -> string, encode: string -> Bytes)
    ensures |Archived(fs, decode, encode)| + |Failed(fs, decode, encode)| == |fs|
  {
    if fs != [] {
      ArchivedOrFailed(fs[..|fs| - 1], decode, encode);
    }
  }

  /** One more file: what the archive and the error list gain. */
  lemma StepFile(fs: seq<(Found, int)>, f: Found, maxBytes: int, decode: Bytes -> string, encode: string -> Bytes)
    ensures var out := Outcome(f, maxBytes, decode, encode);
      && Archived(fs + [(f, maxBytes)], decode, encode)
         == Archived(fs, decode, encode) + (if out.Ok? then [(f.path, out.value)] else [])
      && Failed(fs + [(f, maxBytes)], decode, encode)
         == Failed(fs, decode, encode) + (if out.Err? then [(f.path, out.error)] else [])
  {
    assert (fs + [(f, maxBytes)])[..|fs|] == fs;
  }

  lemma TotalBytesSnoc(entries: seq<(string, Bytes)>, e: (string, Bytes))
    ensures TotalBytes(entries + [e]) == TotalBytes(entries) + |e.1|
  {
    assert (entries + [e])[..|entries|] == entries;
  }

  lemma SizesSnoc(entries: seq<(string, Bytes)>, e: (string, Bytes))
    ensures Sizes(entries + [e]) == Sizes(entries) + [(e.0, |e.1|)]
  {
  }

  /** The pairs of a pattern's matched files with its cap. */
  function Paired(files: seq<Found>, maxBytes: int): (r: seq<(Found, int)>)
    ensures |r| == |files|
  {
    seq(|files|, k requires 0 <= k < |files| => (files[k], maxBytes))
  }

  lemma PairedNext(files: seq<Found>, maxBytes: int, j: nat)
    requires j < |files|
    ensures Paired(files[..j + 1], maxBytes) == Paired(files[..j], maxBytes) + [(files[j], maxBytes)]
  {
  }

  /** The three lists collect_files appends to, as values. */
  datatype Log = Log(archive: seq<(string, Bytes)>, collected: seq<(string, nat)>, errors: seq<(string, string)>)

  function Snapshot(report: Report): Log
    reads report
  {
    Log(report.archive, report.collected, report.errors)
  }

  /** The lists after one more file. */
  function Logged(log: Log, f: Found, maxBytes: int, decode: Bytes -> string, encode: string -> Bytes): Log {
    match Outcome(f, maxBytes, decode, encode)
    case Ok(b) => Log(log.archive + [(f.path, b)], log.collected + [(f.path, |b|)], log.errors)
    case Err(e) => Log(log.archive, log.collected, log.errors + [(f.path, e)])
  }

  /** The lists after the files fs. */
  function After(base: Log, fs: seq<(Found, int)>, decode: Bytes -> string, encode: string -> Bytes): Log {
    Log(base.archive + Archived(fs, decode, encode),
        base.collected + Sizes(Archived(fs, decode, encode)),
        base.errors + Failed(fs, decode, encode))
  }

  lemma AfterStep(base: Log, fs: seq<(Found, int)>, f: Found, maxBytes: int, decode: Bytes -> string, encode: string -> Bytes)
    ensures After(base, fs + [(f, maxBytes)], decode, encode) == Logged(After(base, fs, decode, encode), f, maxBytes, decode, encode)
    ensures TotalBytes(Archived(fs + [(f, maxBytes)], decode, encode))
         == TotalBytes(Archived(fs, decode, encode))
            + (var out := Outcome(f, maxBytes, decode, encode); if out.Ok? then |out.value| else 0)
  {
    StepFile(fs, f, maxBytes, decode, encode);
    var out := Outcome(f, maxBytes, decode, encode);
    if out.Ok? {
      SizesSnoc(Archived(fs, decode, encode), (f.path, out.value));
      TotalBytesSnoc(Archived(fs, decode, encode), (f.path, out.value));
    } else {
      assert Archived(fs + [(f, maxBytes)], decode, encode) == Archived(fs, decode, encode);
    }
  }

  /** The body of collect_files' try block for one file: archive what the
      file gives, or record the exception reading it raised. */
  method CollectFile(p: Found, maxBytes: int, decode: Bytes -> string, encode: string -> Bytes, report: Report)
    returns (n: nat)
    modifies report
    ensures Snapshot(report) == Logged(old(Snapshot(report)), p, maxBytes, decode, encode)
    ensures var out := Outcome(p, maxBytes, decode, encode); n == if out.Ok? then |out.value| else 0
  {
    match p.read {
      case Err(e) =>
        report.errors := report.errors + [(p.path, e)];
        n := 0;
      case Ok(b) =>
        if IsEnvFile(p) {
          var text := RedactEnv(decode(b));
          b := encode(text);
        }
        b := Truncate(b, maxBytes);
        report.archive := report.archive + [(p.path, b)];
        report.collected := report.collected + [(p.path, |b|)];
        n := |b|;
    }
  }

  /** The files of one pattern, in order. */
  method CollectPattern(files: seq<Found>, maxBytes: int, decode: Bytes -> string, encode: string -> Bytes,
                        report: Report, ghost base: Log, ghost done: seq<(Found, int)>, added0: nat)
    returns (added: nat)
    requires Snapshot(report) == After(base, done, decode, encode)
    requires added0 == TotalBytes(Archived(done, decode, encode))
    modifies report
    ensures Snapshot(report) == After(base, done + Paired(files, maxBytes), decode, encode)
    ensures added == TotalBytes(Archived(done + Paired(files, maxBytes), decode, encode))
  {
    added := added0;
    var j := 0;
    assert done + Paired(files[..0], maxBytes) == done;
    while j < |files|
      invariant j <= |files|
      invariant Snapshot(report) == After(base, done + Paired(files[..j], maxBytes), decode, encode)
      invariant added == TotalBytes(Archived(done + Paired(files[..j], maxBytes), decode, encode))
    {
      ghost var fs := done + Paired(files[..j], maxBytes);
      AfterStep(base, fs, files[j], maxBytes, decode, encode);
      PairedNext(files, maxBytes, j);
      assert fs + [(files[j], maxBytes)] == done + Paired(files[..j + 1], maxBytes);
      var n := CollectFile(files[j], maxBytes, decode, encode, report);
      added := added + n;
      j := j + 1;
    }
    assert files[..j] == files;
  }

  /** collect_files: for every matched file of every pattern, in order,
      redact a .env file, truncate to the pattern's cap and archive it,
      recording its size; a file that cannot be read is recorded as an error
      instead.  Returns the number of bytes archived. */
  method CollectFiles(patterns: seq<(seq<Found>, int)>, decode: Bytes -> string, encode: string -> Bytes, report: Report)
    returns (added: nat)
    modifies report
    ensures Snapshot(report) == After(old(Snapshot(report)), Flat(patterns), decode, encode)
    ensures added == TotalBytes(Archived(Flat(patterns), decode, encode))
  {
    ghost var base := Snapshot(report);
    added := 0;
    var n := 0;
    assert After(base, [], decode, encode) == base;
    while n < |patterns|
      invariant n <= |patterns|
      invariant Snapshot(report) == After(base, Flat(patterns[..n]), decode, encode)
      invariant added == TotalBytes(Archived(Flat(patterns[..n]), decode, encode))
    {
      var (files, maxBytes) := patterns[n];
      assert patterns[..n + 1][..n] == patterns[..n];
      assert Flat(patterns[..n + 1]) == Flat(patterns[..n]) + Paired(files, maxBytes);
      added := CollectPattern(files, maxBytes, decode, encode, report, base, Flat(patterns[..n]), added);
      n := n + 1;
    }
    assert patterns[..n] == patterns;
  }

  // ---------------------------------------------------------------------
  // The health predicates of main

  /** any(d.get("id") == "seedai" for d in items), which stops at the first
      match and raises on an entry that is not a dict. */
  function AnySeedai(items: seq<Json>): Result<bool> {
    if items == [] then Ok(false)
    else if !items[0].JObj? then Err("AttributeError")
    else if Get(items[0].fields, "id") == Some(JStr("seedai")) then Ok(true)
    else AnySeedai(items[1..])
  }

  /** The generator finds "seedai" exactly when some entry has that id and
      every entry before it is a dict; it ends false exactly when every
      entry is a dict with another id. */
  lemma {:induction false} AnySeedaiIff(items: seq<Json>)
    ensures AnySeedai(items) == Ok(true) <==>
      exists i :: 0 <= i < |items| && items[i].JObj? && Get(items[i].fields, "id") == Some(JStr("seedai"))
        && forall j :: 0 <= j < i ==> items[j].JObj?
    ensures AnySeedai(items) == Ok(false) <==>
      forall i :: 0 <= i < |items| ==> items[i].JObj? && Get(items[i].fields, "id") != Some(JStr("seedai"))
  {
    if items != [] && items[0].JObj? && Get(items[0].fields, "id") != Some(JStr("seedai")) {
      var tail := items[1..];
      AnySeedaiIff(tail);
      assert forall i :: 1 <= i < |items| ==> items[i] == tail[i - 1];
      if AnySeedai(tail) == Ok(true) {
        var i :| 0 <= i < |tail| && tail[i].JObj? && Get(tail[i].fields, "id") == Some(JStr("seedai"))
          && forall j :: 0 <= j < i ==> tail[j].JObj?;
        assert items[i + 1] == tail[i];
        assert forall j :: 0 <= j < i + 1 ==> items[j].JObj?;
      }
      if exists i :: (0 <= i < |items| && items[i].JObj? && Get(items[i].fields, "id") == Some(JStr("seedai"))
                      && forall j :: 0 <= j < i ==> items[j].JObj?) {
        var i :| 0 <= i < |items| && items[i].JObj? && Get(items[i].fields, "id") == Some(JStr("seedai"))
          && forall j :: 0 <= j < i ==> items[j].JObj?;
        assert i > 0;
        assert tail[i - 1] == items[i];
        assert forall j :: 0 <= j < i - 1 ==> tail[j].JObj?;
      }
    }
  }

  /** model_ok: the models reply is a dict whose "data" lists an entry with
      id "seedai".  Iterating a "data" that is not a list of dicts raises. */
  function ModelOk(status: int, data: Json): (r: Result<bool>)
    ensures r == Ok(true) ==> status == 200 && data.JObj? && "data" in data.fields
  {
    if status != 200 || !data.JObj? || "data" !in data.fields then Ok(false)
    else
      match data.fields["data"]
      case JArr(items) => AnySeedai(items)
      case JObj(m) => if m == map[] then Ok(false) else Err("AttributeError")
      case JStr(s) => if s == "" then Ok(false) else Err("AttributeError")
      case _ => Err("TypeError")
  }

  /** The models reply of a healthy gateway: a list holding an entry with id
      "seedai" and only dicts before it. */
  lemma ModelOkIff(status: int, data: Json)
    ensures ModelOk(status, data) == Ok(true) <==>
      status == 200 && data.JObj? && "data" in data.fields && data.fields["data"].JArr?
      && var items := data.fields["data"].items;
      exists i :: 0 <= i < |items| && items[i].JObj? && Get(items[i].fields, "id") == Some(JStr("seedai"))
        && forall j :: 0 <= j < i ==> items[j].JObj?
  {
    if status == 200 && data.JObj? && "data" in data.fields && data.fields["data"].JArr? {
      AnySeedaiIff(data.fields["data"].items);
    }
  }

  /** chat_ok: a 200 reply that is a dict whose object is "chat.completion". */
  function ChatOk(status: int, data: Json): (r: bool)
    ensures r ==> status == 200 && data.JObj? && "object" in data.fields
    ensures r <==> status == 200 && data.JObj? && Get(data.fields, "object") == Some(JStr("chat.completion"))
  {
    status == 200 && data.JObj? && Get(data.fields, "object") == Some(JStr("chat.completion"))
  }
}
