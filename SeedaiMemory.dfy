/**
 * seedai_memory.py: SQLiteMemory, the adapter that keeps the older in-memory
 * structures (a vocabulary set, an unknown-word set, a list of beliefs and a
 * buffer of staged learning) in front of a MemoryManager database.
 *
 * The database is the Db value of the MemoryManager model.  Each call the
 * adapter makes into the manager either commits (Committed) or, when it
 * raises and the adapter swallows the exception, leaves the database as it
 * was; which calls raise beyond their own argument checks is a parameter.
 */
module SeedaiMemory {
  import opened Common
  import opened Tables
  import opened MemoryManager

  // ---------------------------------------------------------------------
  // Calls into the manager

  /** The call commits: its arguments pass its checks and it does not fail. */
  predicate WriteOk(op: Op, failed: bool) {
    !failed && !PlanOf(op).Reject?
  }

  /** The database after a call whose exception, if any, is swallowed. */
  function Write(op: Op, d: Db, failed: bool): Db {
    if WriteOk(op, failed) then Committed(op, d) else d
  }

  lemma WriteWellFormed(op: Op, d: Db, failed: bool)
    requires WellFormed(d)
    ensures WellFormed(Write(op, d, failed))
  {
    if WriteOk(op, failed) {
      CommittedWellFormed(op, d);
    }
  }

  // ---------------------------------------------------------------------
  // Staged learning

  /** What stage_learning_drafts is given: (word, info) tuples and other values. */
  datatype Fact = Pair(word: string, info: string) | Plain(content: Json)

  /** The body of a staged item, by its 'type' field; Untyped is an item read
      back from the database whose type is neither. */
  datatype Kind = Vocabulary(word: string, info: string) | General(content: Json) | Untyped

  datatype Item = Item(kind: Kind, tag: string, timestamp: real)

  /** The staged item for one fact, stamped with time.time(). */
  function Draft(f: Fact, t: real): Item {
    match f
    case Pair(w, info) => Item(Vocabulary(w, info), "ephemeral", t)
    case Plain(c) => Item(General(c), "ephemeral", t)
  }

  /** The items for facts in order, the i-th stamped with clock(i). */
  function Drafts(facts: seq<Fact>, clock: nat -> real): (r: seq<Item>)
    ensures |r| == |facts|
    ensures forall i :: 0 <= i < |facts| ==> r[i] == Draft(facts[i], clock(i))
  {
    if facts == [] then []
    else Drafts(facts[..|facts| - 1], clock) + [Draft(facts[|facts| - 1], clock(|facts| - 1))]
  }

  /** One draft per fact: tuples become vocabulary items with their word and
      info, anything else a general item with the value as content, all tagged
      ephemeral. */
  lemma DraftsShape(facts: seq<Fact>, clock: nat -> real, i: nat)
    requires i < |facts|
    ensures Drafts(facts, clock)[i].tag == "ephemeral"
    ensures facts[i].Pair? <==> Drafts(facts, clock)[i].kind.Vocabulary?
    ensures facts[i].Pair? ==> Drafts(facts, clock)[i].kind == Vocabulary(facts[i].word, facts[i].info)
    ensures facts[i].Plain? ==> Drafts(facts, clock)[i].kind == General(facts[i].content)
  {
  }

  // ---------------------------------------------------------------------
  // Committing

  /** The adapter's state as commit_staged_learning sees it. */
  datatype Mind = Mind(db: Db, vocab: set<string>, unknown: set<string>, beliefs: seq<string>, general: seq<Json>)

  function Belief(word: string, info: string): string {
    word + ": " + info
  }

  /** An item is counted: a general item always, a vocabulary item when both its
      add_concept and its add_vocab commit. */
  predicate Succeeds(it: Item, conceptFails: bool, vocabFails: bool, stamp: string) {
    match it.kind
    case Vocabulary(w, info) =>
      WriteOk(AddConcept(w, Some(info), None, stamp), conceptFails) && WriteOk(AddVocab(w, Some(info), None), vocabFails)
    case General(_) => true
    case Untyped => false
  }

  /** One item of commit_staged_learning.  A vocabulary item whose add_concept
      commits but whose add_vocab raises keeps the concept row and nothing else. */
  function CommitItem(m: Mind, it: Item, conceptFails: bool, vocabFails: bool, stamp: string): Mind {
    match it.kind
    case Vocabulary(w, info) =>
      var c := AddConcept(w, Some(info), None, stamp);
      var v := AddVocab(w, Some(info), None);
      if !WriteOk(c, conceptFails) then m
      else if !WriteOk(v, vocabFails) then m.(db := Committed(c, m.db))
      else
        var b := Belief(w, info);
        m.(db := Committed(v, Committed(c, m.db)), vocab := m.vocab + {w}, unknown := m.unknown - {w},
           beliefs := if b in m.beliefs then m.beliefs else m.beliefs + [b])
    case General(content) => m.(general := m.general + [content])
    case Untyped => m
  }

  /** The items from i on, the k-th with conceptFails(k) and vocabFails(k):
      the final state and the number counted. */
  function CommitFrom(m: Mind, items: seq<Item>, i: nat, conceptFails: nat -> bool, vocabFails: nat -> bool, stamp: nat -> string): (Mind, nat)
    requires i <= |items|
    decreases |items| - i
  {
    if i == |items| then (m, 0)
    else
      var r := CommitFrom(CommitItem(m, items[i], conceptFails(i), vocabFails(i), stamp(i)), items, i + 1, conceptFails, vocabFails, stamp);
      (r.0, r.1 + if Succeeds(items[i], conceptFails(i), vocabFails(i), stamp(i)) then 1 else 0)
  }

  /** The number of items from i on that are counted. */
  function CountSucceeding(items: seq<Item>, i: nat, conceptFails: nat -> bool, vocabFails: nat -> bool, stamp: nat -> string): nat
    requires i <= |items|
    decreases |items| - i
  {
    if i == |items| then 0
    else CountSucceeding(items, i + 1, conceptFails, vocabFails, stamp)
         + if Succeeds(items[i], conceptFails(i), vocabFails(i), stamp(i)) then 1 else 0
  }

  /** The words of the vocabulary items from i on that are committed. */
  function CommittedWords(items: seq<Item>, i: nat, conceptFails: nat -> bool, vocabFails: nat -> bool, stamp: nat -> string): set<string>
    requires i <= |items|
    decreases |items| - i
  {
    if i == |items| then {}
    else CommittedWords(items, i + 1, conceptFails, vocabFails, stamp)
         + if items[i].kind.Vocabulary? && Succeeds(items[i], conceptFails(i), vocabFails(i), stamp(i))
           then {items[i].kind.word} else {}
  }

  /** The count commit_staged_learning returns is the number of general items
      plus the number of vocabulary items whose writes commit, whatever the state. */
  lemma {:induction false} CommitCount(m: Mind, items: seq<Item>, i: nat, cf: nat -> bool, vf: nat -> bool, stamp: nat -> string)
    requires i <= |items|
    ensures CommitFrom(m, items, i, cf, vf, stamp).1 == CountSucceeding(items, i, cf, vf, stamp)
    decreases |items| - i
  {
    if i < |items| {
      CommitCount(CommitItem(m, items[i], cf(i), vf(i), stamp(i)), items, i + 1, cf, vf, stamp);
    }
  }

  /** Committing adds exactly the committed words to the vocabulary set and
      removes exactly those from the unknown-word set. */
  lemma {:induction false} CommitSets(m: Mind, items: seq<Item>, i: nat, cf: nat -> bool, vf: nat -> bool, stamp: nat -> string)
    requires i <= |items|
    ensures var r := CommitFrom(m, items, i, cf, vf, stamp).0;
      && r.vocab == m.vocab + CommittedWords(items, i, cf, vf, stamp)
      && r.unknown == m.unknown - CommittedWords(items, i, cf, vf, stamp)
    decreases |items| - i
  {
    if i < |items| {
      CommitSets(CommitItem(m, items[i], cf(i), vf(i), stamp(i)), items, i + 1, cf, vf, stamp);
    }
  }

  predicate NoDuplicates(s: seq<string>) {
    forall i, j :: 0 <= i < j < |s| ==> s[i] != s[j]
  }

  /** The number of times b occurs in s. */
  function Occurrences(s: seq<string>, b: string): nat {
    if s == [] then 0 else Occurrences(s[..|s| - 1], b) + if s[|s| - 1] == b then 1 else 0
  }

  lemma {:induction false} OccursOnce(s: seq<string>, b: string)
    requires NoDuplicates(s) && b in s
    ensures Occurrences(s, b) == 1
  {
    var init := s[..|s| - 1];
    assert NoDuplicates(init) by {
      forall i, j | 0 <= i < j < |init| ensures init[i] != init[j] {
        assert init[i] == s[i] && init[j] == s[j];
      }
    }
    if s[|s| - 1] == b {
      assert b !in init by {
        forall k | 0 <= k < |init| ensures init[k] != b {
          assert init[k] == s[k];
        }
      }
      NotOccurs(init, b);
    } else {
      assert b in init by {
        var k :| 0 <= k < |s| && s[k] == b;
        assert k < |s| - 1 && init[k] == b;
      }
      OccursOnce(init, b);
    }
  }

  lemma {:induction false} NotOccurs(s: seq<string>, b: string)
    requires b !in s
    ensures Occurrences(s, b) == 0
  {
    if s != [] {
      var init := s[..|s| - 1];
      assert b !in init by {
        forall k | 0 <= k < |init| ensures init[k] != b {
          assert init[k] == s[k];
        }
      }
      NotOccurs(init, b);
    }
  }

  /** What every state of the adapter satisfies: a word is never both known
      and unknown, no belief is listed twice, and the tables are keyed. */
  predicate Coherent(m: Mind) {
    m.vocab !! m.unknown && NoDuplicates(m.beliefs) && WellFormed(m.db)
  }

  lemma CommitItemCoherent(m: Mind, it: Item, cf: bool, vf: bool, stamp: string)
    requires Coherent(m)
    ensures Coherent(CommitItem(m, it, cf, vf, stamp))
    ensures m.vocab <= CommitItem(m, it, cf, vf, stamp).vocab
    ensures m.beliefs <= CommitItem(m, it, cf, vf, stamp).beliefs
  {
    match it.kind
    case Vocabulary(w, info) =>
      var c := AddConcept(w, Some(info), None, stamp);
      var v := AddVocab(w, Some(info), None);
      if WriteOk(c, cf) {
        CommittedWellFormed(c, m.db);
        if WriteOk(v, vf) {
          CommittedWellFormed(v, Committed(c, m.db));
          var b := Belief(w, info);
          if b !in m.beliefs {
            var s := m.beliefs + [b];
            forall i, j | 0 <= i < j < |s| ensures s[i] != s[j] {
              if j == |m.beliefs| {
                assert s[i] == m.beliefs[i];
              }
            }
          }
        }
      }
    case General(_) =>
    case Untyped =>
  }

  lemma {:induction false} CommitCoherent(m: Mind, items: seq<Item>, i: nat, cf: nat -> bool, vf: nat -> bool, stamp: nat -> string)
    requires i <= |items| && Coherent(m)
    ensures var r := CommitFrom(m, items, i, cf, vf, stamp).0;
      Coherent(r) && m.vocab <= r.vocab && m.beliefs <= r.beliefs
    decreases |items| - i
  {
    if i < |items| {
      var m1 := CommitItem(m, items[i], cf(i), vf(i), stamp(i));
      CommitItemCoherent(m, items[i], cf(i), vf(i), stamp(i));
      CommitCoherent(m1, items, i + 1, cf, vf, stamp);
    }
  }

  /** A committed vocabulary word ends up known, not unknown, and with its
      belief "word: info" listed exactly once. */
  lemma {:induction false} CommittedWord(m: Mind, items: seq<Item>, i: nat, cf: nat -> bool, vf: nat -> bool, stamp: nat -> string, k: nat)
    requires i <= k < |items| && Coherent(m)
    requires items[k].kind.Vocabulary? && Succeeds(items[k], cf(k), vf(k), stamp(k))
    ensures var r := CommitFrom(m, items, i, cf, vf, stamp).0;
      var w := items[k].kind.word;
      && w in r.vocab && w !in r.unknown
      && Occurrences(r.beliefs, Belief(w, items[k].kind.info)) == 1
    decreases |items| - i
  {
    var m1 := CommitItem(m, items[i], cf(i), vf(i), stamp(i));
    CommitItemCoherent(m, items[i], cf(i), vf(i), stamp(i));
    if i < k {
      CommittedWord(m1, items, i + 1, cf, vf, stamp, k);
    } else {
      var b := Belief(items[k].kind.word, items[k].kind.info);
      assert b in m1.beliefs;
      CommitCoherent(m1, items, i + 1, cf, vf, stamp);
      var r := CommitFrom(m1, items, i + 1, cf, vf, stamp).0;
      assert b in r.beliefs by {
        var j :| 0 <= j < |m1.beliefs| && m1.beliefs[j] == b;
        assert r.beliefs[j] == b;
      }
      OccursOnce(r.beliefs, b);
    }
  }

  // ---------------------------------------------------------------------
  // Words

  /** re.sub(r'[^a-zA-Z0-9]', '', word). */
  function Cleaned(word: string): (r: string)
    ensures forall i :: 0 <= i < |r| ==> IsAsciiAlnum(r[i])
    ensures |r| <= |word|
  {
    if word == [] then []
    else Cleaned(word[..|word| - 1]) + if IsAsciiAlnum(word[|word| - 1]) then [word[|word| - 1]] else []
  }

  /** The unknown-word candidates of text: each token of text.lower().split(),
      cleaned, when it is non-empty and not in the vocabulary set. */
  function Candidates(tokens: seq<string>, vocab: set<string>): (r: seq<string>)
    ensures forall i :: 0 <= i < |r| ==> r[i] != "" && r[i] !in vocab
  {
    if tokens == [] then []
    else
      var init := Candidates(tokens[..|tokens| - 1], vocab);
      var c := Cleaned(tokens[|tokens| - 1]);
      if c != "" && c !in vocab then init + [c] else init
  }

  /** A word is a candidate exactly when some token cleans to it and it is
      neither empty nor in the vocabulary set. */
  lemma {:induction false} CandidatesMembers(tokens: seq<string>, vocab: set<string>, w: string)
    ensures w in Candidates(tokens, vocab) <==> w != "" && w !in vocab && exists t :: t in tokens && Cleaned(t) == w
  {
    if tokens != [] {
      var init := tokens[..|tokens| - 1];
      var last := tokens[|tokens| - 1];
      CandidatesMembers(init, vocab, w);
      if w in Candidates(tokens, vocab) && w !in Candidates(init, vocab) {
        assert w == Cleaned(last) && last in tokens;
      }
      if exists t :: t in init && Cleaned(t) == w {
        var t :| t in init && Cleaned(t) == w;
        assert t in tokens;
      }
      if exists t :: t in tokens && Cleaned(t) == w {
        var t :| t in tokens && Cleaned(t) == w;
        if t != last {
          var k :| 0 <= k < |tokens| && tokens[k] == t;
          assert init[k] == t;
        }
      }
    }
  }

  /** The add_unknown_word calls of extract_unknown_words, the k-th failing
      when fails(k), each with the whole text as its context. */
  function RecordUnknown(d: Db, words: seq<string>, text: string, stamp: nat -> string, fails: nat -> bool): Db {
    if words == [] then d
    else Write(AddUnknownWord(words[|words| - 1], Some(text), stamp(|words| - 1)),
               RecordUnknown(d, words[..|words| - 1], text, stamp, fails), fails(|words| - 1))
  }

  /** One add_unknown_word call: INSERT OR IGNORE into unknown_words when
      the word is non-empty and the call does not fail, nothing otherwise. */
  lemma UnknownStep(d: Db, w: string, ctx: Option<string>, now: string, failed: bool)
    ensures Write(AddUnknownWord(w, ctx, now), d, failed)
      == d.(unknownWords := if !failed && w != "" then InsertOrIgnore(d.unknownWords, w, UnknownRow(ctx, now, false)) else d.unknownWords)
  {
    if !failed && w != "" {
      UnknownCommit(d, w, ctx, now);
    }
  }

  /** Recording unknown words touches no table but unknown_words and keeps it keyed. */
  lemma {:induction false} RecordUnknownFrame(d: Db, words: seq<string>, text: string, stamp: nat -> string, fails: nat -> bool)
    requires WellFormed(d)
    ensures WellFormed(RecordUnknown(d, words, text, stamp, fails))
    ensures RecordUnknown(d, words, text, stamp, fails) == d.(unknownWords := RecordUnknown(d, words, text, stamp, fails).unknownWords)
  {
    if words != [] {
      var n := |words| - 1;
      RecordUnknownFrame(d, words[..n], text, stamp, fails);
      var p := RecordUnknown(d, words[..n], text, stamp, fails);
      UnknownStep(p, words[n], Some(text), stamp(n), fails(n));
      WriteWellFormed(AddUnknownWord(words[n], Some(text), stamp(n)), p, fails(n));
    }
  }

  /** A word is in the unknown_words table afterwards exactly when it was before
      or one of the calls for it did not fail. */
  lemma {:induction false} RecordUnknownHas(d: Db, words: seq<string>, text: string, stamp: nat -> string, fails: nat -> bool, w: string)
    ensures HasKey(RecordUnknown(d, words, text, stamp, fails).unknownWords, w) <==>
      HasKey(d.unknownWords, w) || exists k :: 0 <= k < |words| && words[k] == w && w != "" && !fails(k)
  {
    if words != [] {
      var n := |words| - 1;
      var init := words[..n];
      RecordUnknownHas(d, init, text, stamp, fails, w);
      var p := RecordUnknown(d, init, text, stamp, fails);
      UnknownStep(p, words[n], Some(text), stamp(n), fails(n));
      InsertOrIgnoreHas(p.unknownWords, words[n], UnknownRow(Some(text), stamp(n), false), w);
      if exists k :: 0 <= k < |init| && init[k] == w && w != "" && !fails(k) {
        var k :| 0 <= k < |init| && init[k] == w && w != "" && !fails(k);
        assert words[k] == w;
      }
      if exists k :: 0 <= k < |words| && words[k] == w && w != "" && !fails(k) {
        var k :| 0 <= k < |words| && words[k] == w && w != "" && !fails(k);
        if k < n {
          assert init[k] == w;
        }
      }
    }
  }

  /** get_recent_beliefs(limit): beliefs[-limit:], as written. */
  function RecentBeliefs(beliefs: seq<string>, limit: int): seq<string> {
    SliceFrom(beliefs, -limit)
  }

  /** The last n beliefs, in insertion order: what the slice means for n > 0. */
  function LastBeliefs(beliefs: seq<string>, n: nat): (r: seq<string>)
    ensures |r| == if n <= |beliefs| then n else |beliefs|
    ensures r == beliefs[|beliefs| - |r|..]
  {
    if n <= |beliefs| then beliefs[|beliefs| - n..] else beliefs
  }

  /** For a positive limit the slice is the last limit beliefs. */
  lemma RecentBeliefsPositive(beliefs: seq<string>, limit: int)
    requires limit > 0
    ensures RecentBeliefs(beliefs, limit) == LastBeliefs(beliefs, limit)
  {
    SliceFromNegIsSuffix(beliefs, limit);
  }

  /** beliefs[-0:] is beliefs[0:]: a limit of 0 returns every belief, not none. */
  lemma RecentBeliefsZero(beliefs: seq<string>)
    ensures RecentBeliefs(beliefs, 0) == beliefs
    ensures beliefs != [] ==> RecentBeliefs(beliefs, 0) != LastBeliefs(beliefs, 0)
  {
  }

  /** get_conversation_memory on a database: the stored text under
      'conversation_<id>' parsed by loads; None when it is missing, empty or
      does not parse. */
  function ConversationIn(d: Db, id: string, loads: string -> Option<Json>): (r: Option<Json>)
    ensures !HasKey(d.identity, "conversation_" + id) ==> r == None
  {
    var v := Lookup(d.identity, "conversation_" + id);
    if v.Some? && v.value != "" then loads(v.value) else None
  }

  /** save_conversation_memory then get_conversation_memory gives the content
      back, for any JSON library whose loads inverts a non-empty dumps, and
      leaves every other conversation as it was. */
  lemma ConversationRoundTrip(d: Db, id: string, other: string, c: Json, dumps: Json -> string, loads: string -> Option<Json>)
    requires WellFormed(d)
    requires dumps(c) != "" && loads(dumps(c)) == Some(c)
    ensures var d' := Write(StoreIdentity("conversation_" + id, Some(dumps(c))), d, false);
      && ConversationIn(d', id, loads) == Some(c)
      && (other != id ==> ConversationIn(d', other, loads) == ConversationIn(d, other, loads))
  {
    IdentityCommit(d, "conversation_" + id, Some(dumps(c)));
    ReplaceSpec(d.identity, "conversation_" + id, dumps(c));
    if other != id {
      assert "conversation_" + other != "conversation_" + id by {
        assert ("conversation_" + other)[13..] == other;
        assert ("conversation_" + id)[13..] == id;
      }
    }
  }

  // ---------------------------------------------------------------------
  // The adapter

  class SQLiteMemory {
    var db: Db
    var vocab: set<string>
    var unknownWords: set<string>
    var beliefs: seq<string>
    var staged: seq<Item>             // memory['staged_learning']
    var general: seq<Json>            // memory['general_knowledge']

    function State(): Mind
      reads this
    {
      Mind(db, vocab, unknownWords, beliefs, general)
    }

    ghost predicate Valid()
      reads this
    {
      Coherent(State())
    }

    /** __init__ and _load_state: the vocabulary set from the vocab table, and
        the staged buffer from identity['staged_learning'] when that is set and
        parses, else empty. */
    constructor (d: Db, decode: string -> Option<seq<Item>>)
      requires WellFormed(d)
      ensures Valid()
      ensures db == d && unknownWords == {} && beliefs == [] && general == []
      ensures vocab == set i | 0 <= i < |d.vocab| :: d.vocab[i].0
      ensures staged == match Lookup(d.identity, "staged_learning")
        case Some(raw) => (if raw != "" && decode(raw).Some? then decode(raw).value else [])
        case None => []
    {
      db := d;
      unknownWords, beliefs, general := {}, [], [];
      var words: set<string> := {};
      var i := 0;
      while i < |d.vocab|
        invariant 0 <= i <= |d.vocab|
        invariant words == set j | 0 <= j < i :: d.vocab[j].0
      {
        words := words + {d.vocab[i].0};
        i := i + 1;
      }
      vocab := words;
      var raw := Lookup(d.identity, "staged_learning");
      if raw.Some? && raw.value != "" && decode(raw.value).Some? {
        staged := decode(raw.value).value;
      } else {
        staged := [];
      }
    }

    /** knows_word: the vocabulary set or a row in the vocab table; staged
        items play no part. */
    predicate KnowsWord(word: string)
      reads this
      ensures KnowsWord(word) <==> word in vocab || Lookup(db.vocab, word).Some?
    {
      word in vocab || HasKey(db.vocab, word)
    }

    /** extract_unknown_words(text): every candidate joins the unknown-word set
        and is offered to add_unknown_word with the text as context; the k-th
        call fails when fails(k) and its exception is swallowed. */
    method ExtractUnknownWords(text: string, stamp: nat -> string, fails: nat -> bool)
      requires Valid()
      modifies this
      ensures Valid()
      ensures unknownWords == old(unknownWords) + set w | w in Candidates(SplitWs(Lower(text)), vocab)
      ensures db == RecordUnknown(old(db), Candidates(SplitWs(Lower(text)), vocab), text, stamp, fails)
      ensures vocab == old(vocab) && beliefs == old(beliefs) && staged == old(staged) && general == old(general)
    {
      var d, u := RecordWords(db, unknownWords, vocab, SplitWs(Lower(text)), text, stamp, fails);
      RecordUnknownFrame(db, Candidates(SplitWs(Lower(text)), vocab), text, stamp, fails);
      db, unknownWords := d, u;
    }

    /** The loop of extract_unknown_words over the tokens. */
    static method RecordWords(d0: Db, u0: set<string>, vocab: set<string>, tokens: seq<string>, text: string,
                              stamp: nat -> string, fails: nat -> bool)
      returns (d: Db, u: set<string>)
      ensures u == u0 + set w | w in Candidates(tokens, vocab)
      ensures d == RecordUnknown(d0, Candidates(tokens, vocab), text, stamp, fails)
    {
      var found: seq<string> := [];
      d, u := d0, u0;
      var i := 0;
      while i < |tokens|
        invariant 0 <= i <= |tokens|
        invariant found == Candidates(tokens[..i], vocab)
        invariant u == u0 + set w | w in found
        invariant d == RecordUnknown(d0, found, text, stamp, fails)
      {
        assert tokens[..i + 1][..i] == tokens[..i];
        var cleaned := Cleaned(tokens[i]);
        if cleaned != "" && cleaned !in vocab {
          u := u + {cleaned};
          assert (found + [cleaned])[..|found|] == found;
          d := Write(AddUnknownWord(cleaned, Some(text), stamp(|found|)), d, fails(|found|));
          found := found + [cleaned];
        }
        i := i + 1;
      }
      assert tokens[..i] == tokens;
    }

    /** stage_learning_drafts(facts): one draft per fact appended to the buffer,
        and the buffer written to identity['staged_learning'] (a failure of that
        write is swallowed).  Nothing else changes, so what knows_word answers
        does not change either. */
    method StageLearningDrafts(facts: seq<Fact>, clock: nat -> real, encode: seq<Item> -> string, persistFails: bool)
      requires Valid()
      modifies this
      ensures Valid()
      ensures staged == old(staged) + Drafts(facts, clock)
      ensures db == Write(StoreIdentity("staged_learning", Some(encode(staged))), old(db), persistFails)
      ensures db.vocab == old(db.vocab) && db.unknownWords == old(db.unknownWords)
      ensures vocab == old(vocab) && unknownWords == old(unknownWords) && beliefs == old(beliefs) && general == old(general)
      ensures forall w :: KnowsWord(w) == old(KnowsWord(w))
    {
      var i := 0;
      while i < |facts|
        invariant 0 <= i <= |facts|
        invariant staged == old(staged) + Drafts(facts[..i], clock)
        invariant db == old(db) && vocab == old(vocab) && unknownWords == old(unknownWords)
        invariant beliefs == old(beliefs) && general == old(general)
      {
        assert facts[..i + 1][..i] == facts[..i];
        staged := staged + [Draft(facts[i], clock(i))];
        i := i + 1;
      }
      assert facts[..i] == facts;
      WriteWellFormed(StoreIdentity("staged_learning", Some(encode(staged))), db, persistFails);
      IdentityCommit(db, "staged_learning", Some(encode(staged)));
      db := Write(StoreIdentity("staged_learning", Some(encode(staged))), db, persistFails);
    }

    /** commit_staged_learning(): every staged item in order, then an empty
        buffer, stored as '[]'.  Items that fail are dropped with the rest. */
    method CommitStagedLearning(conceptFails: nat -> bool, vocabFails: nat -> bool, clearFails: bool, stamp: nat -> string)
      returns (committed: nat)
      requires Valid()
      modifies this
      ensures Valid()
      ensures committed == CountSucceeding(old(staged), 0, conceptFails, vocabFails, stamp)
      ensures old(staged) == [] ==> committed == 0
      ensures staged == []
      ensures var r := CommitFrom(old(State()), old(staged), 0, conceptFails, vocabFails, stamp).0;
        && vocab == r.vocab && unknownWords == r.unknown && beliefs == r.beliefs && general == r.general
        && db == Write(StoreIdentity("staged_learning", Some("[]")), r.db, clearFails)
    {
      var items := staged;
      ghost var start := State();
      ghost var goal := CommitFrom(start, items, 0, conceptFails, vocabFails, stamp);
      CommitCount(start, items, 0, conceptFails, vocabFails, stamp);
      committed := 0;
      var i := 0;
      while i < |items|
        invariant 0 <= i <= |items|
        invariant Valid()
        invariant CommitFrom(State(), items, i, conceptFails, vocabFails, stamp).0 == goal.0
        invariant committed + CommitFrom(State(), items, i, conceptFails, vocabFails, stamp).1 == goal.1
      {
        ghost var here := State();
        CommitItemCoherent(here, items[i], conceptFails(i), vocabFails(i), stamp(i));
        var ok := CommitOne(items[i], conceptFails(i), vocabFails(i), stamp(i));
        if ok {
          committed := committed + 1;
        }
        i := i + 1;
      }
      staged := [];
      WriteWellFormed(StoreIdentity("staged_learning", Some("[]")), db, clearFails);
      db := Write(StoreIdentity("staged_learning", Some("[]")), db, clearFails);
      CommitCount(start, items, 0, conceptFails, vocabFails, stamp);
    }

    /** The body of the loop of commit_staged_learning for one item. */
    method CommitOne(it: Item, conceptFails: bool, vocabFails: bool, stamp: string) returns (ok: bool)
      modifies this
      ensures State() == CommitItem(old(State()), it, conceptFails, vocabFails, stamp)
      ensures ok == Succeeds(it, conceptFails, vocabFails, stamp)
      ensures staged == old(staged)
    {
      match it.kind
      case Vocabulary(w, info) =>
        var c := AddConcept(w, Some(info), None, stamp);
        var v := AddVocab(w, Some(info), None);
        if !WriteOk(c, conceptFails) {
          return false;
        }
        db := Committed(c, db);
        if !WriteOk(v, vocabFails) {
          return false;
        }
        db := Committed(v, db);
        vocab := vocab + {w};
        unknownWords := unknownWords - {w};
        var b := Belief(w, info);
        if b !in beliefs {
          beliefs := beliefs + [b];
        }
        ok := true;
      case General(content) =>
        general := general + [content];
        ok := true;
      case Untyped =>
        ok := false;
    }

    /** save_all: the buffer written to identity['staged_learning']. */
    method SaveAll(encode: seq<Item> -> string, fails: bool)
      requires Valid()
      modifies this
      ensures Valid()
      ensures db == Write(StoreIdentity("staged_learning", Some(encode(staged))), old(db), fails)
      ensures State() == old(State()).(db := db) && staged == old(staged)
    {
      WriteWellFormed(StoreIdentity("staged_learning", Some(encode(staged))), db, fails);
      db := Write(StoreIdentity("staged_learning", Some(encode(staged))), db, fails);
    }

    /** get_conversation_memory: the stored text under 'conversation_<id>',
        parsed. */
    function GetConversationMemory(id: string, loads: string -> Option<Json>): (r: Option<Json>)
      reads this
      ensures !HasKey(db.identity, "conversation_" + id) ==> r.None?
    {
      ConversationIn(db, id, loads)
    }

    /** save_conversation_memory: json.dumps(content) under 'conversation_<id>'. */
    method SaveConversationMemory(id: string, content: Json, dumps: Json -> string, fails: bool)
      requires Valid()
      modifies this
      ensures Valid()
      ensures db == Write(StoreIdentity("conversation_" + id, Some(dumps(content))), old(db), fails)
      ensures State() == old(State()).(db := db) && staged == old(staged)
    {
      WriteWellFormed(StoreIdentity("conversation_" + id, Some(dumps(content))), db, fails);
      db := Write(StoreIdentity("conversation_" + id, Some(dumps(content))), db, fails);
    }

    /** get_recent_beliefs: beliefs[-limit:]. */
    function GetRecentBeliefs(limit: int): (r: seq<string>)
      reads this
      ensures limit > 0 ==> r == LastBeliefs(beliefs, limit)
      ensures limit == 0 ==> r == beliefs
    {
      if limit > 0 then RecentBeliefsPositive(beliefs, limit); RecentBeliefs(beliefs, limit)
      else if limit == 0 then RecentBeliefsZero(beliefs); RecentBeliefs(beliefs, limit)
      else RecentBeliefs(beliefs, limit)
    }
  }
}
