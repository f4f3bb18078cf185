/**
 * memory_manager.py: the MemoryManager SQLite store of Aurelia.
 *
 * The committed database is a Db value held by a MemoryManager object.  A
 * keyed table (PRIMARY KEY or UNIQUE column) is a sequence of (key, row)
 * pairs as in Tables; a log table is a sequence of rows whose INTEGER
 * PRIMARY KEY is the row's 1-based position (nothing deletes from them, so
 * max(rowid) + 1 is always the next position).  CURRENT_TIMESTAMP and
 * datetime.utcnow() are the parameter `now`, and ORDER BY timestamp DESC is
 * newest-inserted first.  Whether an attempt runs into a locked database is
 * the parameter `fault`; urlparse, the HTTP fetch and the HTML parser are
 * the functions of a Web value.
 */
module MemoryManager {
  import opened Common
  import opened Tables

  const MAX_CONTENT_BYTES: nat := 2 * 1024 * 1024

  /** The sleeps of with_retry between attempts, in seconds. */
  const DELAYS: seq<real> := [0.01, 0.02, 0.05, 0.1, 0.2, 0.4]

  const GATE_MSG: string := "crawl must be approved by Father or Mother"

  // ---------------------------------------------------------------------
  // _redact_key

  /** _redact_key: a non-empty key shows at most its first four and last four
      characters around "****"; a key of eight or fewer shows only its tail. */
  function RedactKey(key: string): (r: string)
    ensures r == "" <==> key == ""
    ensures 0 < |key| <= 8 ==> |r| == 4 + Min(4, |key|) && r[..4] == "****" && r[4..] == key[|key| - Min(4, |key|)..]
    ensures |key| > 8 ==> |r| == 12 && r[..4] == key[..4] && r[4..8] == "****" && r[8..] == key[|key| - 4..]
  {
    if key == "" then ""
    else if |key| <= 8 then "****" + SliceFrom(key, -4)
    else key[..4] + "****" + SliceFrom(key, -4)
  }

  function Min(a: int, b: int): int {
    if a <= b then a else b
  }

  // ---------------------------------------------------------------------
  // Exceptions and with_retry

  datatype Exc = OperationalError(msg: string) | AureliaError(msg: string) | OtherError(msg: string)

  /** What a call returns or raises. */
  datatype Outcome<T> = Done(value: T) | Raised(exc: Exc)

  /** The test with_retry applies to the lower-cased message of an OperationalError. */
  predicate IsLockError(e: Exc) {
    && e.OperationalError?
    && var m := Lower(e.msg);
       Contains(m, "database is locked") || Contains(m, "database table is locked") || Contains(m, "locked")
  }

  /** with_retry from the n-th call on (counting from 0), when the i-th call
      gives o(i): what the wrapper returns or raises, and how many calls it has
      made.  `last` is the last lock error caught. */
  function RetryFrom<T>(o: nat -> Outcome<T>, n: nat, last: Option<Exc>): (Outcome<T>, nat)
    requires n <= |DELAYS|
    decreases |DELAYS| - n
  {
    if n < |DELAYS| then
      match o(n)
      case Done(v) => (Done(v), n + 1)
      case Raised(e) => if IsLockError(e) then RetryFrom(o, n + 1, Some(e)) else (Raised(e), n + 1)
    else
      match o(n)
      case Done(v) => (Done(v), n + 1)
      case Raised(e) =>
        if last.Some? then (Raised(AureliaError("SQLite busy: " + last.value.msg)), n + 1)
        else (Raised(e), n + 1)
  }

  function Retry<T>(o: nat -> Outcome<T>): (Outcome<T>, nat) {
    RetryFrom(o, 0, None)
  }

  /** The calls before j all ran into a lock. */
  predicate LockedBefore<T>(o: nat -> Outcome<T>, n: nat, j: nat) {
    forall i :: n <= i < j ==> o(i).Raised? && IsLockError(o(i).exc)
  }

  /** with_retry makes between one and seven calls. */
  lemma {:induction false} RetryCalls<T>(o: nat -> Outcome<T>, n: nat, last: Option<Exc>)
    requires n <= |DELAYS|
    ensures n + 1 <= RetryFrom(o, n, last).1 <= |DELAYS| + 1
    decreases |DELAYS| - n
  {
    if n < |DELAYS| && o(n).Raised? && IsLockError(o(n).exc) {
      RetryCalls(o, n + 1, Some(o(n).exc));
    }
  }

  /** Lock errors are skipped over, remembering the last one. */
  lemma {:induction false} RetrySkipsLocks<T>(o: nat -> Outcome<T>, n: nat, last: Option<Exc>, j: nat)
    requires n <= j <= |DELAYS| && LockedBefore(o, n, j)
    ensures RetryFrom(o, n, last) == RetryFrom(o, j, if j == n then last else Some(o(j - 1).exc))
    decreases j - n
  {
    if n < j {
      RetrySkipsLocks(o, n + 1, Some(o(n).exc), j);
    }
  }

  /** The first of the six delayed calls that does not run into a lock decides:
      its value is returned or its exception propagates unchanged. */
  lemma RetryFirstNonLock<T>(o: nat -> Outcome<T>, j: nat)
    requires j < |DELAYS| && LockedBefore(o, 0, j)
    requires !(o(j).Raised? && IsLockError(o(j).exc))
    ensures Retry(o) == (o(j), j + 1)
  {
    RetrySkipsLocks(o, 0, None, j);
  }

  /** After six lock errors the seventh call is the last: its value is returned,
      and any exception it raises becomes AureliaError("SQLite busy: ...") with
      the message of the sixth lock error. */
  lemma RetryFinal<T>(o: nat -> Outcome<T>)
    requires LockedBefore(o, 0, |DELAYS|)
    ensures Retry(o).1 == |DELAYS| + 1
    ensures o(|DELAYS|).Done? ==> Retry(o).0 == o(|DELAYS|)
    ensures o(|DELAYS|).Raised? ==> Retry(o).0 == Raised(AureliaError("SQLite busy: " + o(|DELAYS| - 1).exc.msg))
  {
    RetrySkipsLocks(o, 0, None, |DELAYS|);
  }

  /** The total of the sleeps, added up from the last. */
  function SumReals(s: seq<real>): real {
    if s == [] then 0.0 else SumReals(s[..|s| - 1]) + s[|s| - 1]
  }

  /** The time slept before call k + 1 of with_retry. */
  const SLEPT: seq<real> := [0.0, 0.01, 0.03, 0.08, 0.18, 0.38, 0.78]

  lemma {:induction false} SleptBefore(k: nat)
    requires k <= |DELAYS|
    ensures SumReals(DELAYS[..k]) == SLEPT[k]
  {
    if k > 0 {
      SleptBefore(k - 1);
      assert DELAYS[..k][..k - 1] == DELAYS[..k - 1];
    }
  }

  /** All the sleeps of one with_retry call add up to at most 0.78 seconds. */
  lemma SleepBound(k: nat)
    requires k <= |DELAYS|
    ensures SumReals(DELAYS[..k]) <= 0.78
  {
    SleptBefore(k);
  }

  // ---------------------------------------------------------------------
  // Tables

  datatype VocabRow = VocabRow(definition: Option<string>, examples: Option<string>)
  datatype UnknownRow = UnknownRow(context: Option<string>, firstSeen: string, resolved: bool)
  datatype FactRow = FactRow(subject: string, pred: Option<string>, obj: string, source: Option<string>, timestamp: string)
  datatype MemoryRow = MemoryRow(kind: string, content: string, emotion: Option<string>, importance: int, timestamp: string)
  datatype CrawlRow = CrawlRow(title: string, content: string, links: seq<string>, crawledOn: string, approvedBy: string)
  datatype ConceptRow = ConceptRow(concept: string, description: Option<string>, relatedTerms: Option<string>, learnedOn: string)
  datatype LogRow = LogRow(event: string, details: Option<string>, timestamp: string)
  datatype ApiKeyRow = ApiKeyRow(key: string, addedOn: string)

  datatype Db = Db(
    identity: seq<(string, string)>,
    vocab: seq<(string, VocabRow)>,
    unknownWords: seq<(string, UnknownRow)>,
    facts: seq<FactRow>,
    memories: seq<MemoryRow>,
    crawls: seq<(string, CrawlRow)>,
    concepts: seq<ConceptRow>,
    logs: seq<LogRow>,
    apiKeys: seq<(string, ApiKeyRow)>)

  const EmptyDb: Db := Db([], [], [], [], [], [], [], [], [])

  /** Every keyed table holds at most one row per key. */
  predicate WellFormed(d: Db) {
    UniqueKeys(d.identity) && UniqueKeys(d.vocab) && UniqueKeys(d.unknownWords)
    && UniqueKeys(d.crawls) && UniqueKeys(d.apiKeys)
  }

  /** The SQL statements the manager issues. */
  datatype Stmt =
    | ReplaceIdentity(key: string, value: string)          // REPLACE INTO identity
    | ReplaceVocab(word: string, vocabRow: VocabRow)        // REPLACE INTO vocab
    | InsertUnknown(uword: string, unknownRow: UnknownRow)  // INSERT OR IGNORE INTO unknown_words
    | MarkResolved(rword: string)                           // UPDATE unknown_words SET resolved = 1
    | InsertFact(fact: FactRow)
    | InsertMemory(memory: MemoryRow)
    | InsertConcept(conceptRow: ConceptRow)
    | InsertLog(log: LogRow)
    | ReplaceCrawl(url: string, crawl: CrawlRow)            // INSERT OR REPLACE INTO crawls
    | ReplaceApiKey(service: string, apiKey: ApiKeyRow)     // REPLACE INTO api_keys

  function Resolved(u: UnknownRow): UnknownRow {
    u.(resolved := true)
  }

  function Apply(d: Db, s: Stmt): Db {
    match s
    case ReplaceIdentity(k, v) => d.(identity := Replace(d.identity, k, v))
    case ReplaceVocab(w, row) => d.(vocab := Replace(d.vocab, w, row))
    case InsertUnknown(w, row) => d.(unknownWords := InsertOrIgnore(d.unknownWords, w, row))
    case MarkResolved(w) => d.(unknownWords := UpdateAt(d.unknownWords, w, Resolved))
    case InsertFact(f) => d.(facts := d.facts + [f])
    case InsertMemory(m) => d.(memories := d.memories + [m])
    case InsertConcept(c) => d.(concepts := d.concepts + [c])
    case InsertLog(l) => d.(logs := d.logs + [l])
    case ReplaceCrawl(u, c) => d.(crawls := Replace(d.crawls, u, c))
    case ReplaceApiKey(sv, k) => d.(apiKeys := Replace(d.apiKeys, sv, k))
  }

  /** No statement puts a second row under a key. */
  lemma ApplyWellFormed(d: Db, s: Stmt)
    ensures WellFormed(d) ==> WellFormed(Apply(d, s))
  {
    if WellFormed(d) {
      match s
      case ReplaceIdentity(k, v) => ReplaceSpec(d.identity, k, v);
      case ReplaceVocab(w, row) => ReplaceSpec(d.vocab, w, row);
      case InsertUnknown(w, row) => InsertOrIgnoreSpec(d.unknownWords, w, row);
      case MarkResolved(w) => UpdateAtSpec(d.unknownWords, w, Resolved);
      case ReplaceCrawl(u, c) => ReplaceSpec(d.crawls, u, c);
      case ReplaceApiKey(sv, k) => ReplaceSpec(d.apiKeys, sv, k);
      case _ =>
    }
  }

  /** The statements run one after another. */
  function ApplyAll(d: Db, stmts: seq<Stmt>): Db
    decreases |stmts|
  {
    if stmts == [] then d else ApplyAll(Apply(d, stmts[0]), stmts[1..])
  }

  /** A transaction never puts a second row under a key. */
  lemma {:induction false} ApplyAllWellFormed(d: Db, stmts: seq<Stmt>)
    requires WellFormed(d)
    ensures WellFormed(ApplyAll(d, stmts))
    decreases |stmts|
  {
    if stmts != [] {
      ApplyWellFormed(d, stmts[0]);
      ApplyAllWellFormed(Apply(d, stmts[0]), stmts[1..]);
    }
  }

  /** Running the statements from i on is running statement i and then the rest. */
  lemma ApplyFrom(d: Db, stmts: seq<Stmt>, i: nat)
    requires i < |stmts|
    ensures ApplyAll(d, stmts[i..]) == ApplyAll(Apply(d, stmts[i]), stmts[i + 1..])
  {
    assert stmts[i..][0] == stmts[i];
    assert stmts[i..][1..] == stmts[i + 1..];
  }

  lemma ApplyOne(d: Db, s: Stmt)
    ensures ApplyAll(d, [s]) == Apply(d, s)
  {
    assert [s][1..] == [];
  }

  lemma ApplyTwo(d: Db, s: Stmt, t: Stmt)
    ensures ApplyAll(d, [s, t]) == Apply(Apply(d, s), t)
  {
    assert [s, t][1..] == [t];
    ApplyOne(Apply(d, s), t);
  }

  /** Where an attempt fails: step 0 is BEGIN, step i the i-th statement and
      step |stmts| + 1 the COMMIT; a later step means no failure. */
  datatype Fault = Clean | FailAt(step: nat, exc: Exc)

  predicate Faulted(fault: Fault, n: nat) {
    fault.FailAt? && fault.step <= n + 1
  }

  // ---------------------------------------------------------------------
  // The writing methods, as operations run under with_retry

  datatype Op =
    | StoreIdentity(key: string, value: Option<string>)
    | AddVocab(word: string, definition: Option<string>, examples: Option<string>)
    | AddUnknownWord(uword: string, context: Option<string>, now: string)
    | ResolveUnknownWord(rword: string, rdefinition: Option<string>, rexamples: Option<string>)
    | AddFact(subject: Option<string>, pred: Option<string>, obj: Option<string>, source: Option<string>, now: string)
    | AddMemory(kind: string, content: Option<string>, emotion: Option<string>, importance: int, now: string)
    | AddConcept(concept: string, description: Option<string>, relatedTerms: Option<string>, now: string)
    | LogEvent(event: string, details: Option<string>, now: string)
    | AddApiKey(service: string, apiKey: string, now: string)

  /** What a method does before its transaction: raise, return at once, or run statements. */
  datatype Plan = Reject(msg: string) | Skip | Run(stmts: seq<Stmt>)

  function OrEmpty(s: Option<string>): string {
    if s.Some? then s.value else ""
  }

  function PlanOf(op: Op): Plan {
    match op
    case StoreIdentity(k, v) =>
      if k == "" then Reject("identity key required") else Run([ReplaceIdentity(k, OrEmpty(v))])
    case AddVocab(w, def, ex) =>
      if w == "" then Reject("word required") else Run([ReplaceVocab(w, VocabRow(def, ex))])
    case AddUnknownWord(w, ctx, now) =>
      if w == "" then Skip else Run([InsertUnknown(w, UnknownRow(ctx, now, false))])
    case ResolveUnknownWord(w, def, ex) =>
      Run([ReplaceVocab(w, VocabRow(def, ex)), MarkResolved(w)])
    case AddFact(s, p, o, src, now) =>
      if s.None? then Reject("subject required")
      else Run([InsertFact(FactRow(s.value, p, OrEmpty(o), src, now))])
    case AddMemory(kind, c, e, imp, now) =>
      Run([InsertMemory(MemoryRow(kind, CapContent(OrEmpty(c)), e, imp, now))])
    case AddConcept(c, desc, rel, now) =>
      if c == "" then Reject("concept required") else Run([InsertConcept(ConceptRow(c, desc, rel, now))])
    case LogEvent(ev, det, now) =>
      Run([InsertLog(LogRow(ev, det, now))])
    case AddApiKey(sv, k, now) =>
      if sv == "" || k == "" then Reject("service and key required")
      else Run([ReplaceApiKey(sv, ApiKeyRow(k, now))])
  }

  /** The database after op has committed. */
  function Committed(op: Op, d: Db): Db {
    match PlanOf(op)
    case Run(stmts) => ApplyAll(d, stmts)
    case _ => d
  }

  /** A committed operation never puts a second row under a key. */
  lemma CommittedWellFormed(op: Op, d: Db)
    requires WellFormed(d)
    ensures WellFormed(Committed(op, d))
  {
    if PlanOf(op).Run? {
      ApplyAllWellFormed(d, PlanOf(op).stmts);
    }
  }

  /** cursor.lastrowid for the methods that return it. */
  function Returned(op: Op, d: Db): Option<nat> {
    match op
    case AddFact(_, _, _, _, _) => Some(|d.facts|)
    case AddMemory(_, _, _, _, _) => Some(|d.memories|)
    case AddConcept(_, _, _, _) => Some(|d.concepts|)
    case LogEvent(_, _, _) => Some(|d.logs|)
    case _ => None
  }

  /** One call of the wrapped method on database d. */
  function AttemptResult(op: Op, d: Db, fault: Fault): Outcome<Option<nat>> {
    match PlanOf(op)
    case Reject(msg) => Raised(AureliaError(msg))
    case Skip => Done(None)
    case Run(stmts) =>
      if Faulted(fault, |stmts|) then Raised(fault.exc) else Done(Returned(op, ApplyAll(d, stmts)))
  }

  /** The calls with_retry makes: each starts from d, since a failed call keeps nothing. */
  function Attempts(op: Op, d: Db, faults: nat -> Fault): nat -> Outcome<Option<nat>> {
    (n: nat) => AttemptResult(op, d, faults(n))
  }

  // ---------------------------------------------------------------------
  // add_memory's size cap

  /** The number of bytes of c in UTF-8. */
  function Utf8Len(c: char): nat {
    if c < '\U{80}' then 1 else if c < '\U{800}' then 2 else if c < '\U{10000}' then 3 else 4
  }

  function Utf8Size(s: string): nat {
    if s == [] then 0 else Utf8Size(s[..|s| - 1]) + Utf8Len(s[|s| - 1])
  }

  lemma {:induction false} Utf8SizeMonotone(s: string, j: nat, k: nat)
    requires j <= k <= |s|
    ensures Utf8Size(s[..j]) <= Utf8Size(s[..k])
    decreases k - j
  {
    if j < k {
      assert s[..k][..k - 1] == s[..k - 1];
      Utf8SizeMonotone(s, j, k - 1);
    }
  }

  /** The longest prefix of s whose encoding fits in n bytes, searched from k. */
  function FitFrom(s: string, n: nat, k: nat): (r: nat)
    requires k <= |s| && Utf8Size(s[..k]) <= n
    ensures k <= r <= |s| && Utf8Size(s[..r]) <= n
    ensures r < |s| ==> Utf8Size(s[..r + 1]) > n
    decreases |s| - k
  {
    if k < |s| && Utf8Size(s[..k + 1]) <= n then FitFrom(s, n, k + 1) else k
  }

  /** content.encode('utf-8')[:MAX_CONTENT_BYTES].decode('utf-8', errors='ignore')
      when the content is too long: the cut falls inside or after a character,
      the partial character is dropped, and what is left is the longest prefix
      of whole characters that fits. */
  function CapContent(s: string): (r: string)
    ensures Utf8Size(r) <= MAX_CONTENT_BYTES
    ensures |r| <= |s| && r == s[..|r|]
    ensures Utf8Size(s) <= MAX_CONTENT_BYTES ==> r == s
    ensures |r| < |s| ==> forall k :: |r| < k <= |s| ==> Utf8Size(s[..k]) > MAX_CONTENT_BYTES
  {
    if Utf8Size(s) <= MAX_CONTENT_BYTES then
      assert s[..|s|] == s;
      s
    else
      assert s[..0] == [];
      var k := FitFrom(s, MAX_CONTENT_BYTES, 0);
      assert s[..|s|] == s;
      forall j | k < j <= |s| ensures Utf8Size(s[..j]) > MAX_CONTENT_BYTES {
        Utf8SizeMonotone(s, k + 1, j);
      }
      s[..k]
  }

  // ---------------------------------------------------------------------
  // The LIKE fallback of the search helpers

  /** SQLite's LIKE without ESCAPE: '%' matches any run, '_' any one
      character, and other characters match ignoring ASCII case. */
  predicate Like(s: string, p: string)
    decreases |s| + |p|
  {
    if p == [] then s == []
    else if p[0] == '%' then Like(s, p[1..]) || (s != [] && Like(s[1..], p))
    else s != [] && (p[0] == '_' || LowerChar(p[0]) == LowerChar(s[0])) && Like(s[1..], p[1..])
  }

  predicate NoWildcards(q: string) {
    forall i :: 0 <= i < |q| ==> q[i] != '%' && q[i] != '_'
  }

  /** q occurs in s at i, ignoring ASCII case. */
  predicate OccursCiAt(s: string, q: string, i: int) {
    0 <= i && i + |q| <= |s| && Lower(s[i..i + |q|]) == Lower(q)
  }

  lemma {:induction false} LikeAnyRest(s: string)
    ensures Like(s, "%")
    decreases |s|
  {
    assert "%"[1..] == [];
    if s != [] {
      LikeAnyRest(s[1..]);
    }
  }

  lemma {:induction false} LikePrefix(s: string, q: string)
    requires NoWildcards(q)
    ensures Like(s, q + "%") <==> OccursCiAt(s, q, 0)
    decreases |q|
  {
    if q == [] {
      assert q + "%" == "%";
      LikeAnyRest(s);
    } else {
      assert (q + "%")[1..] == q[1..] + "%";
      assert NoWildcards(q[1..]) by {
        forall i | 0 <= i < |q[1..]| ensures q[1..][i] != '%' && q[1..][i] != '_' {
          assert q[1..][i] == q[i + 1];
        }
      }
      assert q[0] != '%' && q[0] != '_';
      if s != [] {
        LikePrefix(s[1..], q[1..]);
        if |q| <= |s| {
          assert Lower(s[..|q|]) == Lower(q) <==>
                 LowerChar(s[0]) == LowerChar(q[0]) && Lower(s[1..][..|q| - 1]) == Lower(q[1..]) by {
            assert s[..|q|] == [s[0]] + s[1..][..|q| - 1];
            assert q == [q[0]] + q[1..];
            LowerAppend([s[0]], s[1..][..|q| - 1]);
            LowerAppend([q[0]], q[1..]);
          }
        }
      }
    }
  }

  lemma {:induction false} LikeLeadingAny(s: string, p: string)
    ensures Like(s, "%" + p) <==> exists i :: 0 <= i <= |s| && Like(s[i..], p)
    decreases |s|
  {
    assert ("%" + p)[1..] == p;
    assert s[0..] == s;
    if s != [] {
      LikeLeadingAny(s[1..], p);
      assert forall i :: 1 <= i <= |s| ==> s[1..][i - 1..] == s[i..];
      if exists i :: 0 <= i <= |s| && Like(s[i..], p) {
        var i :| 0 <= i <= |s| && Like(s[i..], p);
        if i > 0 {
          assert Like(s[1..][i - 1..], p);
        }
      }
    }
  }

  /** The fallback filter `col LIKE '%q%'` is containment ignoring ASCII case,
      for a query without wildcard characters. */
  lemma LikeIsContainment(s: string, q: string)
    requires NoWildcards(q)
    ensures Like(s, "%" + q + "%") <==> exists i :: 0 <= i <= |s| && OccursCiAt(s, q, i)
  {
    assert "%" + q + "%" == "%" + (q + "%");
    LikeLeadingAny(s, q + "%");
    forall i | 0 <= i <= |s| ensures Like(s[i..], q + "%") <==> OccursCiAt(s, q, i) {
      LikeAt(s, q, i);
    }
  }

  lemma LikeAt(s: string, q: string, i: nat)
    requires NoWildcards(q) && i <= |s|
    ensures Like(s[i..], q + "%") <==> OccursCiAt(s, q, i)
  {
    LikePrefix(s[i..], q);
    if i + |q| <= |s| {
      assert s[i..][..|q|] == s[i..i + |q|];
    }
  }

  /** A nullable column in a LIKE test: NULL never matches. */
  predicate LikeCol(col: Option<string>, q: string) {
    col.Some? && Like(col.value, "%" + q + "%")
  }

  /** `SELECT ... WHERE <hit> LIMIT limit` in table order, after the empty-query check. */
  function SearchRows<T(==)>(rows: seq<T>, query: string, hit: T -> bool, limit: int): (r: seq<T>)
    ensures query == "" ==> r == []
    ensures limit >= 0 ==> |r| <= limit
    ensures forall i :: 0 <= i < |r| ==> r[i] in rows && hit(r[i])
    ensures query != "" && (limit < 0 || Count(rows, hit) <= limit) ==>
      forall i :: 0 <= i < |rows| && hit(rows[i]) ==> rows[i] in r
  {
    if query == "" then [] else Limit(Filter(rows, hit), limit)
  }

  // ---------------------------------------------------------------------
  // crawl_url's helpers

  /** urlparse, the HTTP GET and the HTML parser, as functions. */
  datatype Web = Web(
    scheme: string -> string,                               // urlparse(u).scheme
    hostname: string -> Option<string>,                      // urlparse(u).hostname
    fetch: string -> Result<string>,                         // requests.get(u).text or the error
    parse: (string, string) -> (string, seq<string>))        // (get_text(), get_links()) for (base, html)

  /** _sanitize_url: "url required" for an empty url, "http://" in front of a
      url without a scheme, and only http and https accepted. */
  function SanitizeUrl(url: string, scheme: string -> string): (r: Result<string>)
    ensures url == "" ==> r == Err("url required")
    ensures r.Ok? ==> r.value != "" && scheme(r.value) in {"http", "https"}
    ensures r.Ok? ==> r.value == (if scheme(url) == "" then "http://" + url else url)
    ensures url != "" && scheme(url) in {"http", "https"} ==> r == Ok(url)
    ensures r.Err? && url != "" ==> r == Err("unsupported url scheme")
  {
    if url == "" then Err("url required")
    else
      var u := if scheme(url) == "" then "http://" + url else url;
      if scheme(u) in {"http", "https"} then Ok(u) else Err("unsupported url scheme")
  }

  /** A character of the "<title>" pattern under re.IGNORECASE: ASCII case is
      ignored, and 'i' also matches U+0130 and U+0131. */
  predicate ReCiEq(c: char, p: char) {
    LowerChar(c) == p || (p == 'i' && (c == '\U{130}' || c == '\U{131}'))
  }

  predicate ReCiAt(t: string, w: string, i: int) {
    0 <= i && i + |w| <= |t| && forall k :: 0 <= k < |w| ==> ReCiEq(t[i + k], w[k])
  }

  function FindReCi(t: string, w: string, from: nat): (r: Option<nat>)
    requires from <= |t|
    ensures r.Some? ==> from <= r.value && ReCiAt(t, w, r.value)
    ensures forall j :: from <= j && (r.None? || j < r.value) ==> !ReCiAt(t, w, j)
    decreases |t| - from
  {
    if ReCiAt(t, w, from) then Some(from)
    else if from == |t| then None
    else FindReCi(t, w, from + 1)
  }

  /** Group 1 of re.search(r'<title>(.*?)</title>', html, re.I | re.S): the text
      between the leftmost opening tag that has a closing tag after it and the
      first such closing tag. */
  function TitleTag(html: string): (r: Option<string>)
    ensures r.Some? ==> exists i, j ::
      && ReCiAt(html, "<title>", i) && i + 7 <= j && ReCiAt(html, "</title>", j)
      && r.value == html[i + 7..j]
      && (forall i' :: 0 <= i' < i ==> !ReCiAt(html, "<title>", i'))
      && (forall j' :: i + 7 <= j' < j ==> !ReCiAt(html, "</title>", j'))
    ensures r.None? ==> forall i, j :: ReCiAt(html, "<title>", i) && i + 7 <= j ==> !ReCiAt(html, "</title>", j)
  {
    match FindReCi(html, "<title>", 0)
    case None => None
    case Some(i) =>
      match FindReCi(html, "</title>", i + 7)
      case None => None
      case Some(j) => Some(html[i + 7..j])
  }

  /** The stored title: the stripped <title> text, else the host name, else the url. */
  function TitleOf(html: string, url: string, hostname: string -> Option<string>): (r: string)
    ensures url != "" ==> r != ""
    ensures TitleTag(html).Some? && PyStrip(TitleTag(html).value) != "" ==> r == PyStrip(TitleTag(html).value)
  {
    var t := if TitleTag(html).Some? then PyStrip(TitleTag(html).value) else "";
    if t != "" then t
    else match hostname(url)
      case Some(h) => if h != "" then h else url
      case None => url
  }

  predicate IsSep(c: char) {
    c == '.' || c == '\n'
  }

  /** The index of the first '.' or newline at or after i, or |s|. */
  function NextSep(s: string, i: nat): (r: nat)
    requires i <= |s|
    ensures i <= r <= |s|
    ensures forall k :: i <= k < r ==> !IsSep(s[k])
    ensures r < |s| ==> IsSep(s[r])
    decreases |s| - i
  {
    if i == |s| || IsSep(s[i]) then i else NextSep(s, i + 1)
  }

  function SkipSpace(s: string, i: nat): (r: nat)
    requires i <= |s|
    ensures i <= r <= |s|
    decreases |s| - i
  {
    if i < |s| && PyIsSpace(s[i]) then SkipSpace(s, i + 1) else i
  }

  /** re.split(r'[\.\n]\s*', s): the pieces between separators, where each
      separator takes the whitespace that follows it. */
  function SplitSentences(s: string): (r: seq<string>)
    ensures |r| >= 1
    ensures forall k, i :: 0 <= k < |r| && 0 <= i < |r[k]| ==> !IsSep(r[k][i])
    decreases |s|
  {
    var k := NextSep(s, 0);
    if k == |s| then [s]
    else [s[..k]] + SplitSentences(s[SkipSpace(s, k + 1)..])
  }

  function NonEmpty(parts: seq<string>): (r: seq<string>)
    ensures forall k :: 0 <= k < |r| ==> r[k] != "" && r[k] in parts
    ensures |r| <= |parts|
  {
    if parts == [] then []
    else if parts[0] == "" then NonEmpty(parts[1..])
    else [parts[0]] + NonEmpty(parts[1..])
  }

  /** The concept description: the non-empty ones of the first two sentences,
      joined by ". " and stripped. */
  function Summary(content: string): string {
    PyStrip(Join(NonEmpty(SliceTo(SplitSentences(content), 2)), ". "))
  }

  /** A content without '.' or newline is its own summary, stripped. */
  lemma SummaryOfOneSentence(content: string)
    requires forall i :: 0 <= i < |content| ==> !IsSep(content[i])
    ensures Summary(content) == PyStrip(content)
  {
    SplitWithoutSep(content);
    var ne := NonEmpty(SliceTo([content], 2));
    assert ne == if content == "" then [] else [content] by {
      assert SliceTo([content], 2) == [content];
      assert [content][1..] == [];
    }
    assert Join(ne, ". ") == content;
  }

  lemma SplitWithoutSep(content: string)
    requires forall i :: 0 <= i < |content| ==> !IsSep(content[i])
    ensures SplitSentences(content) == [content]
  {
    assert NextSep(content, 0) == |content|;
  }

  /** Whether a link's host name is h (a falsy name counts for no host). */
  function HostIs(hostname: string -> Option<string>, h: string): string -> bool {
    (l: string) => h != "" && hostname(l) == Some(h)
  }

  /** The number of links whose host name is h. */
  function HostTally(links: seq<string>, hostname: string -> Option<string>, h: string): nat {
    Count(links, HostIs(hostname, h))
  }

  /** What hosts.get(h) gives once every link is counted. */
  function Tallied(links: seq<string>, hostname: string -> Option<string>, h: string): Option<nat> {
    if HostTally(links, hostname, h) == 0 then None else Some(HostTally(links, hostname, h))
  }

  /** The dict after one more link. */
  function CountLink(c: seq<(string, nat)>, l: string, hostname: string -> Option<string>): seq<(string, nat)> {
    var h := hostname(l);
    if h.Some? && h.value != "" then Bump(c, h.value) else c
  }

  lemma CountLinkTally(c: seq<(string, nat)>, links: seq<string>, l: string, hostname: string -> Option<string>)
    requires UniqueKeys(c)
    requires forall h :: Lookup(c, h) == Tallied(links, hostname, h)
    ensures UniqueKeys(CountLink(c, l, hostname))
    ensures forall h :: Lookup(CountLink(c, l, hostname), h) == Tallied(links + [l], hostname, h)
  {
    var n := hostname(l);
    if n.Some? && n.value != "" {
      BumpSpec(c, n.value);
    }
    forall h ensures Lookup(CountLink(c, l, hostname), h) == Tallied(links + [l], hostname, h) {
      CountLinkTallyAt(c, links, l, hostname, h);
    }
  }

  lemma CountLinkTallyAt(c: seq<(string, nat)>, links: seq<string>, l: string, hostname: string -> Option<string>, h: string)
    requires UniqueKeys(c)
    requires Lookup(c, h) == Tallied(links, hostname, h)
    ensures Lookup(CountLink(c, l, hostname), h) == Tallied(links + [l], hostname, h)
  {
    var before, after := HostTally(links, hostname, h), HostTally(links + [l], hostname, h);
    var hit := h != "" && hostname(l) == Some(h);
    assert after == before + if hit then 1 else 0 by {
      TallyStep(links, l, hostname, h);
    }
    assert Lookup(CountLink(c, l, hostname), h) == if hit then Some(before + 1) else Lookup(c, h) by {
      var n := hostname(l);
      if n.Some? && n.value != "" {
        if n.value == h {
          BumpHit(c, h, before);
        } else {
          BumpMiss(c, n.value, h);
        }
      }
    }
    TallyArith(Lookup(c, h), before, after, hit, Lookup(CountLink(c, l, hostname), h));
    assert Tallied(links + [l], hostname, h) == if after == 0 then None else Some(after);
  }

  lemma TallyArith(x: Option<nat>, before: nat, after: nat, hit: bool, y: Option<nat>)
    requires x == if before == 0 then None else Some(before)
    requires after == before + if hit then 1 else 0
    requires y == if hit then Some(before + 1) else x
    ensures y == if after == 0 then None else Some(after)
  {
  }

  lemma BumpHit(c: seq<(string, nat)>, h: string, before: nat)
    requires UniqueKeys(c)
    requires Lookup(c, h) == if before == 0 then None else Some(before)
    ensures Lookup(Bump(c, h), h) == Some(before + 1)
  {
    BumpSpec(c, h);
  }

  lemma BumpMiss(c: seq<(string, nat)>, t: string, h: string)
    requires UniqueKeys(c) && t != h
    ensures Lookup(Bump(c, t), h) == Lookup(c, h)
  {
    BumpSpec(c, t);
  }

  /** One more link adds one to its own host's tally and nothing to others. */
  lemma TallyStep(links: seq<string>, l: string, hostname: string -> Option<string>, h: string)
    ensures HostTally(links + [l], hostname, h)
         == HostTally(links, hostname, h) + if h != "" && hostname(l) == Some(h) then 1 else 0
  {
    CountSnoc(links, l, HostIs(hostname, h));
  }

  /** hosts[h] = hosts.get(h, 0) + 1 for every link with a host name, in link
      order: each host that occurs is counted once per link naming it, and no
      other key is present. */
  function HostCounts(links: seq<string>, hostname: string -> Option<string>): (r: seq<(string, nat)>)
    ensures UniqueKeys(r)
    ensures forall h :: Lookup(r, h) == Tallied(links, hostname, h)
  {
    if links == [] then []
    else
      var init := links[..|links| - 1];
      var c := HostCounts(init, hostname);
      assert links == init + [links[|links| - 1]];
      CountLinkTally(c, init, links[|links| - 1], hostname);
      CountLink(c, links[|links| - 1], hostname)
  }

  /** The hosts dict's items with their dict position, the tie-break of the
      stable sort. */
  function Ranked(hosts: seq<(string, nat)>): (r: seq<(string, nat, int)>)
    ensures |r| == |hosts|
    ensures forall i :: 0 <= i < |r| ==> r[i] == (hosts[i].0, hosts[i].1, i)
  {
    seq(|hosts|, i requires 0 <= i < |hosts| => (hosts[i].0, hosts[i].1, i))
  }

  /** The sort key of the ranking: the count, descending ... */
  function CountKey(e: (string, nat, int)): real {
    e.1 as real
  }

  /** ... then the dict position, ascending. */
  function PosKey(e: (string, nat, int)): int {
    -e.2
  }

  /** sorted(hosts.items(), key=lambda x: -x[1])[:5]: Python's sort is stable,
      so equal counts keep dict order (the smaller position sorts first). */
  function TopRanked(hosts: seq<(string, nat)>): (r: seq<(string, nat, int)>)
    ensures |r| == Min(5, |hosts|)
    ensures forall x :: x in r ==> x in Ranked(hosts)
    ensures forall i, j :: 0 <= i < |hosts| && 0 <= j < |hosts| && Ranked(hosts)[i] in r && Ranked(hosts)[j] !in r ==>
      hosts[i].1 > hosts[j].1 || (hosts[i].1 == hosts[j].1 && i < j)
  {
    var ranked := Ranked(hosts);
    var sorted := SortDesc(ranked, CountKey, PosKey);
    var top := Limit(sorted, 5);
    forall x | x in top ensures x in ranked {
      assert x in multiset(sorted);
    }
    forall i, j | 0 <= i < |hosts| && 0 <= j < |hosts| && ranked[i] in top && ranked[j] !in top
      ensures hosts[i].1 > hosts[j].1 || (hosts[i].1 == hosts[j].1 && i < j)
    {
      assert ranked[j] in multiset(ranked);
      TopBeforeRest(sorted, |top|, ranked[i], ranked[j]);
    }
    top
  }

  /** In a sorted list, an entry among the first m sorts no later than one
      outside them. */
  lemma TopBeforeRest(sorted: seq<(string, nat, int)>, m: nat, x: (string, nat, int), y: (string, nat, int))
    requires SortedDesc(sorted, CountKey, PosKey) && m <= |sorted|
    requires x in sorted[..m] && y in multiset(sorted) && y !in sorted[..m]
    ensures !Before(y, x, CountKey, PosKey)
  {
    var a :| 0 <= a < m && sorted[a] == x;
    var b :| 0 <= b < |sorted| && sorted[b] == y;
    assert b >= m;
  }

  /** The names of the top five hosts. */
  function TopHosts(hosts: seq<(string, nat)>): (r: seq<string>)
    ensures |r| == Min(5, |hosts|)
    ensures forall k :: 0 <= k < |r| ==> r[k] == TopRanked(hosts)[k].0
  {
    var top := TopRanked(hosts);
    seq(|top|, i requires 0 <= i < |top| => top[i].0)
  }

  /** On a dict (unique keys), a listed host has a count at least that of any
      host left out, and on equal counts it comes earlier in the dict; every
      listed name is a key. */
  lemma TopHostsSpec(hosts: seq<(string, nat)>)
    requires UniqueKeys(hosts)
    ensures forall h :: h in TopHosts(hosts) ==> HasKey(hosts, h)
    ensures forall i, j :: 0 <= i < |hosts| && 0 <= j < |hosts| && hosts[i].0 in TopHosts(hosts) && hosts[j].0 !in TopHosts(hosts) ==>
      hosts[i].1 > hosts[j].1 || (hosts[i].1 == hosts[j].1 && i < j)
  {
    var r, top, ranked := TopHosts(hosts), TopRanked(hosts), Ranked(hosts);
    forall h | h in r ensures HasKey(hosts, h) {
      var k :| 0 <= k < |r| && r[k] == h;
      assert top[k] in ranked;
    }
    forall i, j | 0 <= i < |hosts| && 0 <= j < |hosts| && hosts[i].0 in r && hosts[j].0 !in r
      ensures hosts[i].1 > hosts[j].1 || (hosts[i].1 == hosts[j].1 && i < j)
    {
      var k :| 0 <= k < |r| && r[k] == hosts[i].0;
      assert top[k] in ranked;
      var m :| 0 <= m < |ranked| && ranked[m] == top[k];
      assert m == i;
      if ranked[j] in top {
        var n :| 0 <= n < |top| && top[n] == ranked[j];
        assert r[n] == hosts[j].0;
      }
    }
  }

  /** The dict crawl_url returns. */
  datatype CrawlInfo = CrawlInfo(url: string, title: string, words: nat, linksCount: nat, crawledOn: string)

  /** What crawl_url has in hand before it writes: the sanitized url, the
      title, the text cut to MAX_CONTENT_BYTES characters and the links. */
  datatype Page = Page(url: string, title: string, content: string, links: seq<string>)

  /** crawl_url up to its first write: the approval gate before anything else,
      then the url check, then the fetch; any of them raises AureliaError. */
  function FetchPage(url: string, approvedBy: string, web: Web): (r: Result<Page>)
    ensures approvedBy !in {"Father", "Mother"} ==> r == Err(GATE_MSG)
    ensures approvedBy in {"Father", "Mother"} && SanitizeUrl(url, web.scheme).Err? ==>
      r == Err(SanitizeUrl(url, web.scheme).error)
    ensures (approvedBy in {"Father", "Mother"} && SanitizeUrl(url, web.scheme).Ok?
             && web.fetch(SanitizeUrl(url, web.scheme).value).Err?) ==>
      r == Err("fetch failed: " + web.fetch(SanitizeUrl(url, web.scheme).value).error)
    ensures r.Ok? ==>
      && approvedBy in {"Father", "Mother"}
      && SanitizeUrl(url, web.scheme) == Ok(r.value.url)
      && web.fetch(r.value.url).Ok?
      && var html := web.fetch(r.value.url).value;
         && r.value.title == TitleOf(html, r.value.url, web.hostname) && r.value.title != ""
         && r.value.content == SliceTo(web.parse(r.value.url, html).0, MAX_CONTENT_BYTES)
         && r.value.links == web.parse(r.value.url, html).1
  {
    if approvedBy !in {"Father", "Mother"} then Err(GATE_MSG)
    else match SanitizeUrl(url, web.scheme)
      case Err(e) => Err(e)
      case Ok(u) =>
        match web.fetch(u)
        case Err(e) => Err("fetch failed: " + e)
        case Ok(html) =>
          var page := web.parse(u, html);
          Ok(Page(u, TitleOf(html, u, web.hostname), SliceTo(page.0, MAX_CONTENT_BYTES), page.1))
  }

  /** What one call of crawl_url's body returns or raises: the errors of
      FetchPage as AureliaError, then the crawls write's exception, then the
      crawl info. */
  function CrawlAttempt(url: string, approvedBy: string, web: Web, now: string, storeFault: Fault): (r: Outcome<CrawlInfo>)
    ensures FetchPage(url, approvedBy, web).Err? ==> r == Raised(AureliaError(FetchPage(url, approvedBy, web).error))
    ensures FetchPage(url, approvedBy, web).Ok? && Faulted(storeFault, 1) ==> r == Raised(storeFault.exc)
    ensures FetchPage(url, approvedBy, web).Ok? && !Faulted(storeFault, 1) ==>
      r == Done(InfoOf(FetchPage(url, approvedBy, web).value, now))
  {
    match FetchPage(url, approvedBy, web)
    case Err(e) => Raised(AureliaError(e))
    case Ok(p) => if Faulted(storeFault, 1) then Raised(storeFault.exc) else Done(InfoOf(p, now))
  }

  /** The calls @with_retry makes of crawl_url's body. */
  function CrawlAttempts(url: string, approvedBy: string, web: Web, now: string, storeFaults: nat -> Fault): nat -> Outcome<CrawlInfo> {
    (n: nat) => CrawlAttempt(url, approvedBy, web, now, storeFaults(n))
  }

  /** A crawl whose page cannot be had raises at once: the gate, url and fetch
      errors are AureliaErrors, which with_retry does not retry. */
  lemma CrawlPageErrorNotRetried(url: string, approvedBy: string, web: Web, now: string, storeFaults: nat -> Fault)
    requires FetchPage(url, approvedBy, web).Err?
    ensures Retry(CrawlAttempts(url, approvedBy, web, now, storeFaults))
      == (Raised(AureliaError(FetchPage(url, approvedBy, web).error)), 1)
  {
    var o := CrawlAttempts(url, approvedBy, web, now, storeFaults);
    assert o(0) == CrawlAttempt(url, approvedBy, web, now, storeFaults(0));
  }

  /** A crawls write that runs into a lock on all seven calls ends in
      AureliaError("SQLite busy: ...") with the sixth lock error's message. */
  lemma CrawlBusy(url: string, approvedBy: string, web: Web, now: string, storeFaults: nat -> Fault, lock: Exc)
    requires FetchPage(url, approvedBy, web).Ok? && IsLockError(lock)
    requires forall n :: 0 <= n <= |DELAYS| ==> storeFaults(n) == FailAt(1, lock)
    ensures Retry(CrawlAttempts(url, approvedBy, web, now, storeFaults))
      == (Raised(AureliaError("SQLite busy: " + lock.msg)), |DELAYS| + 1)
  {
    var o := CrawlAttempts(url, approvedBy, web, now, storeFaults);
    RetrySkipsLocks(o, 0, None, |DELAYS|);
  }

  /** The crawls row: crawled_on takes the time of the write, since REPLACE
      inserts a new row. */
  function RowOf(p: Page, approvedBy: string, now: string): CrawlRow {
    CrawlRow(p.title, p.content, p.links, now, approvedBy)
  }

  function InfoOf(p: Page, now: string): CrawlInfo {
    CrawlInfo(p.url, p.title, |SplitWs(p.content)|, |p.links|, now)
  }

  /** The derived knowledge of a crawl, from d to d': the fact about the first
      200 characters, the concept named by the title with the summary and the
      top hosts, and the log entry, each either added or not (its failure is
      ignored); the other tables apart from crawls are left as they were. */
  ghost predicate DerivedWrites(p: Page, web: Web, now: string, d: Db, d': Db) {
    && d'.identity == d.identity && d'.vocab == d.vocab && d'.unknownWords == d.unknownWords
    && d'.memories == d.memories && d'.apiKeys == d.apiKeys
    && (d'.facts == d.facts
        || d'.facts == d.facts + [FactRow(p.url, Some("contains_text"), SliceTo(p.content, 200), Some(p.url), now)])
    && (d'.concepts == d.concepts
        || d'.concepts == d.concepts + [ConceptRow(p.title, Some(Summary(p.content)),
                                                   Some(Join(TopHosts(HostCounts(p.links, web.hostname)), ",")), now)])
    && (d'.logs == d.logs
        || d'.logs == d.logs + [LogRow("crawl", Some("url=" + p.url + "; title=" + p.title), now)])
  }

  // ---------------------------------------------------------------------
  // The manager

  class MemoryManager {
    var db: Db

    ghost predicate Valid()
      reads this
    {
      WellFormed(db)
    }

    /** A new manager on a fresh database file: every table empty. */
    constructor ()
      ensures Valid() && db == EmptyDb
    {
      db := EmptyDb;
    }

    /** _transaction around a list of statements: BEGIN, the statements on a
        working copy, COMMIT.  A failure at any step rolls back and re-raises,
        so either all statements are kept or none. */
    method Transaction(stmts: seq<Stmt>, fault: Fault) returns (r: Outcome<()>)
      requires Valid()
      modifies this
      ensures Valid()
      ensures r.Raised? <==> Faulted(fault, |stmts|)
      ensures r.Raised? ==> r.exc == fault.exc && db == old(db)
      ensures r.Done? ==> db == ApplyAll(old(db), stmts)
    {
      if fault.FailAt? && fault.step == 0 {
        return Raised(fault.exc);
      }
      var run := RunStatements(db, stmts, fault);
      if run.Raised? {
        return Raised(run.exc);
      }
      if fault.FailAt? && fault.step == |stmts| + 1 {
        return Raised(fault.exc);
      }
      ApplyAllWellFormed(db, stmts);
      db := run.value;
      r := Done(());
    }

    /** The statements of a transaction, one by one on a working copy of d:
        the statement at step i (1-based) can fail. */
    method RunStatements(d: Db, stmts: seq<Stmt>, fault: Fault) returns (r: Outcome<Db>)
      ensures r.Raised? <==> fault.FailAt? && 1 <= fault.step <= |stmts|
      ensures r.Raised? ==> r.exc == fault.exc
      ensures r.Done? ==> r.value == ApplyAll(d, stmts)
    {
      var cur := d;
      var i := 0;
      assert stmts[0..] == stmts;
      while i < |stmts|
        invariant 0 <= i <= |stmts|
        invariant ApplyAll(cur, stmts[i..]) == ApplyAll(d, stmts)
        invariant !(fault.FailAt? && 1 <= fault.step <= i)
      {
        if fault.FailAt? && fault.step == i + 1 {
          return Raised(fault.exc);
        }
        ApplyFrom(cur, stmts, i);
        cur := Apply(cur, stmts[i]);
        i := i + 1;
      }
      assert stmts[i..] == [];
      r := Done(cur);
    }

    /** One call of a writing method: its argument checks, then its transaction. */
    method Attempt(op: Op, fault: Fault) returns (r: Outcome<Option<nat>>)
      requires Valid()
      modifies this
      ensures Valid()
      ensures r == AttemptResult(op, old(db), fault)
      ensures db == if r.Done? then Committed(op, old(db)) else old(db)
    {
      match PlanOf(op)
      case Reject(msg) =>
        r := Raised(AureliaError(msg));
      case Skip =>
        r := Done(None);
      case Run(stmts) =>
        var t := Transaction(stmts, fault);
        if t.Raised? {
          r := Raised(t.exc);
        } else {
          r := Done(Returned(op, db));
        }
    }

    /** A writing method under with_retry: up to six calls, each followed by a
        sleep from DELAYS while it runs into a lock, then one final call. */
    method Execute(op: Op, faults: nat -> Fault) returns (r: Outcome<Option<nat>>, calls: nat, slept: seq<real>)
      requires Valid()
      modifies this
      ensures Valid()
      ensures (r, calls) == Retry(Attempts(op, old(db), faults))
      ensures 1 <= calls <= |DELAYS| + 1 && slept == DELAYS[..calls - 1]
      ensures db == if r.Done? then Committed(op, old(db)) else old(db)
    {
      ghost var o := Attempts(op, db, faults);
      RetryCalls(o, 0, None);
      var last: Option<Exc> := None;
      calls, slept := 0, [];
      var i := 0;
      while i < |DELAYS|
        invariant 0 <= i <= |DELAYS|
        invariant db == old(db) && o == Attempts(op, old(db), faults)
        invariant calls == i && slept == DELAYS[..i]
        invariant Retry(o) == RetryFrom(o, i, last)
        invariant i > 0 ==> last.Some?
      {
        var a := Attempt(op, faults(i));
        calls := calls + 1;
        if a.Done? || !IsLockError(a.exc) {
          return a, calls, slept;
        }
        last := Some(a.exc);
        assert DELAYS[..i + 1] == DELAYS[..i] + [DELAYS[i]];
        slept := slept + [DELAYS[i]];
        i := i + 1;
      }
      var a := Attempt(op, faults(i));
      calls := calls + 1;
      if a.Raised? && last.Some? {
        r := Raised(AureliaError("SQLite busy: " + last.value.msg));
      } else {
        r := a;
      }
    }

    /** get_identity. */
    function GetIdentity(key: string): (r: Option<string>)
      reads this
      ensures r.Some? <==> HasKey(db.identity, key)
      ensures r.Some? ==> (key, r.value) in db.identity
    {
      Lookup(db.identity, key)
    }

    /** get_vocab. */
    function GetVocab(word: string): (r: Option<VocabRow>)
      reads this
      ensures r.Some? <==> HasKey(db.vocab, word)
      ensures r.Some? ==> (word, r.value) in db.vocab
    {
      Lookup(db.vocab, word)
    }

    /** get_api_key. */
    function GetApiKey(service: string): (r: Option<string>)
      reads this
      ensures r.Some? <==> HasKey(db.apiKeys, service)
      ensures UniqueKeys(db.apiKeys) ==>
        forall i :: 0 <= i < |db.apiKeys| && db.apiKeys[i].0 == service ==> r == Some(db.apiKeys[i].1.key)
    {
      var row := Lookup(db.apiKeys, service);
      if row.Some? then Some(row.value.key) else None
    }

    /** list_api_keys: service and added_on only, newest first. */
    function ListApiKeys(): (r: seq<(string, string)>)
      reads this
      ensures |r| == |db.apiKeys|
      ensures forall i :: 0 <= i < |r| ==> r[i] == (db.apiKeys[|db.apiKeys| - 1 - i].0, db.apiKeys[|db.apiKeys| - 1 - i].1.addedOn)
    {
      var newest := Reverse(db.apiKeys);
      seq(|newest|, i requires 0 <= i < |newest| => (newest[i].0, newest[i].1.addedOn))
    }

    /** get_facts: the facts about a non-empty subject, else all facts, newest first. */
    function GetFacts(subject: Option<string>): (r: seq<FactRow>)
      reads this
      ensures subject.Some? && subject.value != "" ==> forall x :: x in r <==> x in db.facts && x.subject == subject.value
      ensures subject.Some? && subject.value != "" ==>
        var about := Filter(db.facts, About(subject.value));
        |r| == |about| && forall i :: 0 <= i < |r| ==> r[i] == about[|about| - 1 - i]
      ensures !(subject.Some? && subject.value != "") ==> r == Reverse(db.facts)
    {
      FactsAboutMembers(db.facts, subject);
      FactsAbout(db.facts, subject)
    }

    /** get_memories: the memories of a non-empty type, else all, newest first, LIMIT limit. */
    function GetMemories(kind: string, limit: int): (r: seq<MemoryRow>)
      reads this
      ensures limit >= 0 ==> |r| <= limit
      ensures forall i :: 0 <= i < |r| ==> r[i] in db.memories && (kind != "" ==> r[i].kind == kind)
      ensures var rows := TypedMemories(db.memories, kind);
        && |r| == (if limit < 0 || limit > |rows| then |rows| else limit)
        && forall i :: 0 <= i < |r| ==> r[i] == rows[|rows| - 1 - i]
    {
      RecentMemories(db.memories, kind, limit)
    }

    /** get_crawl_by_url. */
    function GetCrawlByUrl(url: string): (r: Option<CrawlRow>)
      reads this
      ensures r.Some? <==> HasKey(db.crawls, url)
      ensures r.Some? ==> (url, r.value) in db.crawls
    {
      Lookup(db.crawls, url)
    }

    /** search_memories by its LIKE fallback: content contains the query. */
    function SearchMemories(query: string, limit: int): (r: seq<MemoryRow>)
      reads this
      ensures query == "" ==> r == []
      ensures limit >= 0 ==> |r| <= limit
      ensures forall i :: 0 <= i < |r| ==> r[i] in db.memories && Like(r[i].content, "%" + query + "%")
    {
      SearchRows(db.memories, query, (m: MemoryRow) => Like(m.content, "%" + query + "%"), limit)
    }

    /** search_crawls by its LIKE fallback: content or title contains the query. */
    function SearchCrawls(query: string, limit: int): (r: seq<(string, CrawlRow)>)
      reads this
      ensures query == "" ==> r == []
      ensures limit >= 0 ==> |r| <= limit
      ensures forall i :: 0 <= i < |r| ==>
        r[i] in db.crawls && (Like(r[i].1.content, "%" + query + "%") || Like(r[i].1.title, "%" + query + "%"))
    {
      SearchRows(db.crawls, query,
        (c: (string, CrawlRow)) => Like(c.1.content, "%" + query + "%") || Like(c.1.title, "%" + query + "%"), limit)
    }

    /** search_vocab by its LIKE fallback: definition or word contains the query. */
    function SearchVocab(query: string, limit: int): (r: seq<(string, VocabRow)>)
      reads this
      ensures query == "" ==> r == []
      ensures limit >= 0 ==> |r| <= limit
      ensures forall i :: 0 <= i < |r| ==>
        r[i] in db.vocab && (LikeCol(r[i].1.definition, query) || Like(r[i].0, "%" + query + "%"))
    {
      SearchRows(db.vocab, query,
        (v: (string, VocabRow)) => LikeCol(v.1.definition, query) || Like(v.0, "%" + query + "%"), limit)
    }

    /** One call of crawl_url's body: the page, then the crawls row in its
        own transaction, then the derived fact, concept and log entry. */
    method CrawlOnce(url: string, approvedBy: string, web: Web, now: string,
                     storeFault: Fault, factFaults: nat -> Fault, conceptFaults: nat -> Fault, logFaults: nat -> Fault)
      returns (r: Outcome<CrawlInfo>)
      requires Valid()
      modifies this
      ensures Valid()
      ensures r == CrawlAttempt(url, approvedBy, web, now, storeFault)
      ensures r.Raised? ==> db == old(db)
      ensures r.Done? ==> FetchPage(url, approvedBy, web).Ok?
      ensures r.Done? ==>
        var p := FetchPage(url, approvedBy, web).value;
        && db.crawls == Replace(old(db).crawls, p.url, RowOf(p, approvedBy, now))
        && DerivedWrites(p, web, now, old(db), db)
    {
      var fetched := FetchPage(url, approvedBy, web);
      if fetched.Err? {
        return Raised(AureliaError(fetched.error));
      }
      var p := fetched.value;
      var stored := Transaction([ReplaceCrawl(p.url, RowOf(p, approvedBy, now))], storeFault);
      if stored.Raised? {
        return Raised(stored.exc);
      }
      ApplyOne(old(db), ReplaceCrawl(p.url, RowOf(p, approvedBy, now)));
      Derive(p, web, now, factFaults, conceptFaults, logFaults);
      r := Done(InfoOf(p, now));
    }

    /** crawl_url under its @with_retry: the body is called again while the
        crawls write runs into a lock, and after six such calls the seventh
        call's failure becomes AureliaError("SQLite busy: ...").  A failed call
        keeps nothing, so every call starts from the same tables. */
    method CrawlUrl(url: string, approvedBy: string, web: Web, now: string,
                    storeFaults: nat -> Fault, factFaults: nat -> Fault, conceptFaults: nat -> Fault, logFaults: nat -> Fault)
      returns (r: Outcome<CrawlInfo>, calls: nat)
      requires Valid()
      modifies this
      ensures Valid()
      ensures (r, calls) == Retry(CrawlAttempts(url, approvedBy, web, now, storeFaults))
      ensures r.Raised? ==> db == old(db)
      ensures r.Done? ==> FetchPage(url, approvedBy, web).Ok?
      ensures r.Done? ==>
        var p := FetchPage(url, approvedBy, web).value;
        && db.crawls == Replace(old(db).crawls, p.url, RowOf(p, approvedBy, now))
        && DerivedWrites(p, web, now, old(db), db)
    {
      ghost var o := CrawlAttempts(url, approvedBy, web, now, storeFaults);
      RetryCalls(o, 0, None);
      var last: Option<Exc> := None;
      calls := 0;
      var i := 0;
      while i < |DELAYS|
        invariant 0 <= i <= |DELAYS|
        invariant db == old(db) && calls == i
        invariant Retry(o) == RetryFrom(o, i, last)
        invariant i > 0 ==> last.Some?
      {
        var a := CrawlOnce(url, approvedBy, web, now, storeFaults(i), factFaults, conceptFaults, logFaults);
        calls := calls + 1;
        if a.Done? || !IsLockError(a.exc) {
          return a, calls;
        }
        last := Some(a.exc);
        i := i + 1;
      }
      var a := CrawlOnce(url, approvedBy, web, now, storeFaults(i), factFaults, conceptFaults, logFaults);
      calls := calls + 1;
      if a.Raised? && last.Some? {
        r := Raised(AureliaError("SQLite busy: " + last.value.msg));
      } else {
        r := a;
      }
    }

    /** crawl_url's derived knowledge: each write under with_retry, its failure
        ignored, so each table either gains its one row or is left as it was. */
    method Derive(p: Page, web: Web, now: string, factFaults: nat -> Fault, conceptFaults: nat -> Fault, logFaults: nat -> Fault)
      requires Valid() && p.title != ""
      modifies this
      ensures Valid()
      ensures db.crawls == old(db).crawls && DerivedWrites(p, web, now, old(db), db)
    {
      ghost var d0 := db;
      var _, _, _ := Execute(AddFact(Some(p.url), Some("contains_text"), Some(SliceTo(p.content, 200)), Some(p.url), now), factFaults);
      FactCommit(d0, p.url, Some("contains_text"), Some(SliceTo(p.content, 200)), Some(p.url), now);
      var hosts := CountHosts(p.links, web.hostname);
      ghost var d1 := db;
      var _, _, _ := Execute(AddConcept(p.title, Some(Summary(p.content)), Some(Join(TopHosts(hosts), ",")), now), conceptFaults);
      ConceptCommit(d1, p.title, Some(Summary(p.content)), Some(Join(TopHosts(hosts), ",")), now);
      ghost var d2 := db;
      var _, _, _ := Execute(LogEvent("crawl", Some("url=" + p.url + "; title=" + p.title), now), logFaults);
      LogCommit(d2, "crawl", Some("url=" + p.url + "; title=" + p.title), now);
    }

    /** The hosts dict of crawl_url, counted link by link. */
    method CountHosts(links: seq<string>, hostname: string -> Option<string>) returns (hosts: seq<(string, nat)>)
      ensures hosts == HostCounts(links, hostname)
    {
      hosts := [];
      var i := 0;
      while i < |links|
        invariant 0 <= i <= |links|
        invariant hosts == HostCounts(links[..i], hostname)
      {
        assert links[..i + 1][..i] == links[..i];
        var h := hostname(links[i]);
        if h.Some? && h.value != "" {
          hosts := Bump(hosts, h.value);
        }
        i := i + 1;
      }
      assert links[..i] == links;
    }
  }

  function About(subject: string): FactRow -> bool {
    (x: FactRow) => x.subject == subject
  }

  function OfKind(kind: string): MemoryRow -> bool {
    (m: MemoryRow) => m.kind == kind
  }

  /** The rows get_memories selects: those of a non-empty type, else every memory, oldest first. */
  function TypedMemories(memories: seq<MemoryRow>, kind: string): seq<MemoryRow> {
    if kind != "" then Filter(memories, OfKind(kind)) else memories
  }

  /** get_memories on the memories table: the newest `limit` selected rows,
      newest first, and all of them for a negative limit. */
  function RecentMemories(memories: seq<MemoryRow>, kind: string, limit: int): (r: seq<MemoryRow>)
    ensures var rows := TypedMemories(memories, kind);
      && |r| == (if limit < 0 || limit > |rows| then |rows| else limit)
      && forall i :: 0 <= i < |r| ==> r[i] == rows[|rows| - 1 - i]
  {
    Limit(Reverse(TypedMemories(memories, kind)), limit)
  }

  /** A memory just added heads get_memories for its own type and for no type,
      ahead of the older rows. */
  lemma AddedMemoryFirst(d: Db, kind: string, c: Option<string>, e: Option<string>, imp: int, now: string, asked: string, limit: int)
    requires asked == "" || asked == kind
    requires limit != 0
    ensures var d' := Committed(AddMemory(kind, c, e, imp, now), d);
      RecentMemories(d'.memories, asked, limit)
        == [MemoryRow(kind, CapContent(OrEmpty(c)), e, imp, now)] + RecentMemories(d.memories, asked, if limit < 0 then limit else limit - 1)
  {
    MemoryCommit(d, kind, c, e, imp, now);
    var m := MemoryRow(kind, CapContent(OrEmpty(c)), e, imp, now);
    var rows := TypedMemories(d.memories, asked);
    assert TypedMemories(d.memories + [m], asked) == rows + [m] by {
      if asked != "" { FilterSnoc(d.memories, m, OfKind(asked)); }
    }
    ReverseSnoc(rows, m);
  }

  /** The facts about a non-empty subject (all facts for None or ""), newest first. */
  function FactsAbout(facts: seq<FactRow>, subject: Option<string>): seq<FactRow> {
    if subject.Some? && subject.value != "" then Reverse(Filter(facts, About(subject.value)))
    else Reverse(facts)
  }

  /** get_facts(subject) for a non-empty subject lists exactly the facts about
      it; for None or '' it lists every fact, newest first. */
  lemma FactsAboutMembers(facts: seq<FactRow>, subject: Option<string>)
    ensures var r := FactsAbout(facts, subject);
      && (subject.Some? && subject.value != "" ==>
            forall x :: x in r <==> x in facts && x.subject == subject.value)
      && (!(subject.Some? && subject.value != "") ==> r == Reverse(facts))
  {
    if subject.Some? && subject.value != "" {
      var f := Filter(facts, About(subject.value));
      forall x ensures x in Reverse(f) <==> x in facts && x.subject == subject.value {
        ReverseHas(f, x);
        if x in facts && x.subject == subject.value {
          var i :| 0 <= i < |facts| && facts[i] == x;
          assert About(subject.value)(facts[i]);
        }
      }
    }
  }

  lemma IdentityCommit(d: Db, key: string, value: Option<string>)
    requires key != ""
    ensures Committed(StoreIdentity(key, value), d) == d.(identity := Replace(d.identity, key, OrEmpty(value)))
  {
    ApplyOne(d, ReplaceIdentity(key, OrEmpty(value)));
  }

  lemma VocabCommit(d: Db, word: string, def: Option<string>, ex: Option<string>)
    requires word != ""
    ensures Committed(AddVocab(word, def, ex), d) == d.(vocab := Replace(d.vocab, word, VocabRow(def, ex)))
  {
    ApplyOne(d, ReplaceVocab(word, VocabRow(def, ex)));
  }

  lemma ApiKeyCommit(d: Db, service: string, key: string, now: string)
    requires service != "" && key != ""
    ensures Committed(AddApiKey(service, key, now), d) == d.(apiKeys := Replace(d.apiKeys, service, ApiKeyRow(key, now)))
  {
    ApplyOne(d, ReplaceApiKey(service, ApiKeyRow(key, now)));
  }

  lemma UnknownCommit(d: Db, word: string, ctx: Option<string>, now: string)
    requires word != ""
    ensures Committed(AddUnknownWord(word, ctx, now), d)
      == d.(unknownWords := InsertOrIgnore(d.unknownWords, word, UnknownRow(ctx, now, false)))
  {
    ApplyOne(d, InsertUnknown(word, UnknownRow(ctx, now, false)));
  }

  lemma MemoryCommit(d: Db, kind: string, c: Option<string>, e: Option<string>, imp: int, now: string)
    ensures Committed(AddMemory(kind, c, e, imp, now), d)
      == d.(memories := d.memories + [MemoryRow(kind, CapContent(OrEmpty(c)), e, imp, now)])
  {
    ApplyOne(d, InsertMemory(MemoryRow(kind, CapContent(OrEmpty(c)), e, imp, now)));
  }

  lemma FactCommit(d: Db, s: string, p: Option<string>, o: Option<string>, src: Option<string>, now: string)
    ensures Committed(AddFact(Some(s), p, o, src, now), d) == d.(facts := d.facts + [FactRow(s, p, OrEmpty(o), src, now)])
  {
    ApplyOne(d, InsertFact(FactRow(s, p, OrEmpty(o), src, now)));
  }

  lemma ConceptCommit(d: Db, c: string, desc: Option<string>, rel: Option<string>, now: string)
    requires c != ""
    ensures Committed(AddConcept(c, desc, rel, now), d) == d.(concepts := d.concepts + [ConceptRow(c, desc, rel, now)])
  {
    ApplyOne(d, InsertConcept(ConceptRow(c, desc, rel, now)));
  }

  lemma LogCommit(d: Db, ev: string, det: Option<string>, now: string)
    ensures Committed(LogEvent(ev, det, now), d) == d.(logs := d.logs + [LogRow(ev, det, now)])
  {
    ApplyOne(d, InsertLog(LogRow(ev, det, now)));
  }

  // ---------------------------------------------------------------------
  // What each writing method does to the tables

  /** store_identity: an empty key raises before any write; a committed write
      makes get_identity(key) the value ('' for None) and changes nothing else. */
  lemma StoreIdentitySpec(d: Db, key: string, value: Option<string>, fault: Fault)
    requires WellFormed(d)
    ensures key == "" ==> AttemptResult(StoreIdentity(key, value), d, fault) == Raised(AureliaError("identity key required"))
    ensures key == "" ==> Committed(StoreIdentity(key, value), d) == d
    ensures var d' := Committed(StoreIdentity(key, value), d);
      && (key != "" ==> Lookup(d'.identity, key) == Some(OrEmpty(value)))
      && (forall k :: k != key ==> Lookup(d'.identity, k) == Lookup(d.identity, k))
      && d' == d.(identity := d'.identity)
  {
    if key != "" {
      IdentityCommit(d, key, value);
      ReplaceSpec(d.identity, key, OrEmpty(value));
    }
  }

  /** add_vocab: an empty word raises; otherwise get_vocab(word) is the new row
      and every other word keeps its row. */
  lemma AddVocabSpec(d: Db, word: string, def: Option<string>, ex: Option<string>, fault: Fault)
    requires WellFormed(d)
    ensures word == "" ==> AttemptResult(AddVocab(word, def, ex), d, fault) == Raised(AureliaError("word required"))
    ensures var d' := Committed(AddVocab(word, def, ex), d);
      && (word != "" ==> Lookup(d'.vocab, word) == Some(VocabRow(def, ex)))
      && (forall w :: w != word ==> Lookup(d'.vocab, w) == Lookup(d.vocab, w))
      && d' == d.(vocab := d'.vocab)
  {
    if word != "" {
      VocabCommit(d, word, def, ex);
      ReplaceSpec(d.vocab, word, VocabRow(def, ex));
    }
  }

  /** add_api_key: an empty service or key raises; otherwise get_api_key(service)
      is the new key and every other service keeps its key. */
  lemma AddApiKeySpec(d: Db, service: string, key: string, now: string, fault: Fault)
    requires WellFormed(d)
    ensures service == "" || key == "" ==>
      AttemptResult(AddApiKey(service, key, now), d, fault) == Raised(AureliaError("service and key required"))
    ensures var d' := Committed(AddApiKey(service, key, now), d);
      && (service != "" && key != "" ==> Lookup(d'.apiKeys, service) == Some(ApiKeyRow(key, now)))
      && (forall s :: s != service ==> Lookup(d'.apiKeys, s) == Lookup(d.apiKeys, s))
      && d' == d.(apiKeys := d'.apiKeys)
  {
    if service != "" && key != "" {
      ApiKeyCommit(d, service, key, now);
      ReplaceSpec(d.apiKeys, service, ApiKeyRow(key, now));
    }
  }

  /** add_unknown_word: an empty word returns without a transaction; a word seen
      before keeps its first context and time; a new word gets an unresolved row. */
  lemma AddUnknownWordSpec(d: Db, word: string, ctx: Option<string>, now: string, fault: Fault)
    requires WellFormed(d)
    ensures word == "" ==> AttemptResult(AddUnknownWord(word, ctx, now), d, fault) == Done(None)
    ensures var d' := Committed(AddUnknownWord(word, ctx, now), d);
      && (word == "" ==> d' == d)
      && (word != "" ==>
            Lookup(d'.unknownWords, word) ==
            if HasKey(d.unknownWords, word) then Lookup(d.unknownWords, word) else Some(UnknownRow(ctx, now, false)))
      && (forall w :: w != word ==> Lookup(d'.unknownWords, w) == Lookup(d.unknownWords, w))
      && d' == d.(unknownWords := d'.unknownWords)
  {
    if word != "" {
      UnknownCommit(d, word, ctx, now);
      InsertOrIgnoreSpec(d.unknownWords, word, UnknownRow(ctx, now, false));
    }
  }

  /** resolve_unknown_word: in one transaction the word's vocab row becomes the
      definition and its unknown-word row, if any, is marked resolved but kept. */
  lemma ResolveUnknownWordSpec(d: Db, word: string, def: Option<string>, ex: Option<string>)
    requires WellFormed(d)
    ensures var d' := Committed(ResolveUnknownWord(word, def, ex), d);
      && Lookup(d'.vocab, word) == Some(VocabRow(def, ex))
      && (forall w :: w != word ==> Lookup(d'.vocab, w) == Lookup(d.vocab, w))
      && (HasKey(d.unknownWords, word) <==> HasKey(d'.unknownWords, word))
      && (HasKey(d.unknownWords, word) ==> Lookup(d'.unknownWords, word) == Some(Lookup(d.unknownWords, word).value.(resolved := true)))
      && (forall w :: w != word ==> Lookup(d'.unknownWords, w) == Lookup(d.unknownWords, w))
      && d' == d.(vocab := d'.vocab, unknownWords := d'.unknownWords)
  {
    ResolveCommits(d, word, def, ex);
    ResolvedTables(d.vocab, d.unknownWords, word, VocabRow(def, ex));
  }

  lemma ResolvedTables(vocab: seq<(string, VocabRow)>, unknown: seq<(string, UnknownRow)>, word: string, row: VocabRow)
    requires UniqueKeys(vocab) && UniqueKeys(unknown)
    ensures Lookup(Replace(vocab, word, row), word) == Some(row)
    ensures forall w :: w != word ==> Lookup(Replace(vocab, word, row), w) == Lookup(vocab, w)
    ensures HasKey(unknown, word) <==> HasKey(UpdateAt(unknown, word, Resolved), word)
    ensures HasKey(unknown, word) ==> Lookup(UpdateAt(unknown, word, Resolved), word) == Some(Lookup(unknown, word).value.(resolved := true))
    ensures forall w :: w != word ==> Lookup(UpdateAt(unknown, word, Resolved), w) == Lookup(unknown, w)
  {
    ReplaceSpec(vocab, word, row);
    UpdateAtSpec(unknown, word, Resolved);
    UpdateAtHasKey(unknown, word, Resolved, word);
  }

  /** resolve_unknown_word's two statements, one after the other. */
  lemma ResolveCommits(d: Db, word: string, def: Option<string>, ex: Option<string>)
    ensures Committed(ResolveUnknownWord(word, def, ex), d)
      == d.(vocab := Replace(d.vocab, word, VocabRow(def, ex)), unknownWords := UpdateAt(d.unknownWords, word, Resolved))
  {
    ApplyTwo(d, ReplaceVocab(word, VocabRow(def, ex)), MarkResolved(word));
  }

  /** add_fact: a None subject raises; a committed fact is appended with '' for a
      None object, its id is the new row count, and get_facts(subject) for a
      non-empty subject lists it first. */
  lemma AddFactSpec(d: Db, s: Option<string>, p: Option<string>, o: Option<string>, src: Option<string>, now: string, fault: Fault)
    ensures s.None? ==> AttemptResult(AddFact(s, p, o, src, now), d, fault) == Raised(AureliaError("subject required"))
    ensures s.Some? ==>
      var d' := Committed(AddFact(s, p, o, src, now), d);
      && d'.facts == d.facts + [FactRow(s.value, p, OrEmpty(o), src, now)]
      && d' == d.(facts := d'.facts)
      && (!Faulted(fault, 1) ==> AttemptResult(AddFact(s, p, o, src, now), d, fault) == Done(Some(|d.facts| + 1)))
      && (s.value != "" ==> FactsAbout(d'.facts, s) == [FactRow(s.value, p, OrEmpty(o), src, now)] + FactsAbout(d.facts, s))
  {
    if s.Some? {
      FactCommit(d, s.value, p, o, src, now);
      if s.value != "" {
        FactsAboutSnoc(d.facts, FactRow(s.value, p, OrEmpty(o), src, now));
      }
    }
  }

  /** A new fact about a subject comes first among the facts about it. */
  lemma FactsAboutSnoc(facts: seq<FactRow>, f: FactRow)
    requires f.subject != ""
    ensures FactsAbout(facts + [f], Some(f.subject)) == [f] + FactsAbout(facts, Some(f.subject))
  {
    FilterSnoc(facts, f, About(f.subject));
    ReverseSnoc(Filter(facts, About(f.subject)), f);
  }

  /** add_memory: a None content is stored as '', a content over the limit is cut
      to whole characters, and the stored content never exceeds
      MAX_CONTENT_BYTES bytes of UTF-8. */
  lemma AddMemorySpec(d: Db, kind: string, c: Option<string>, e: Option<string>, imp: int, now: string)
    ensures var d' := Committed(AddMemory(kind, c, e, imp, now), d);
      && |d'.memories| == |d.memories| + 1 && d'.memories[..|d.memories|] == d.memories
      && d' == d.(memories := d'.memories)
      && var stored := d'.memories[|d.memories|].content;
         Utf8Size(stored) <= MAX_CONTENT_BYTES
         && (c.None? ==> stored == "")
         && (c.Some? && Utf8Size(c.value) <= MAX_CONTENT_BYTES ==> stored == c.value)
         && (c.Some? ==> |stored| <= |c.value| && stored == c.value[..|stored|])
  {
    MemoryCommit(d, kind, c, e, imp, now);
  }
}
