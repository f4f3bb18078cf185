/**
 * seedai/aurelia_memory.py: Memory, a second, smaller SQLite store with
 * messages, facts ranked by strength, an identity table and unknown words.
 *
 * A table whose rows carry an INTEGER PRIMARY KEY is a sequence in rowid
 * order; the row at index i has id i + 1, since nothing here deletes rows.
 * CURRENT_TIMESTAMP is the parameter now of each writing call.
 */
module AureliaMemory {
  import opened Common
  import opened Tables

  datatype Message = Message(who: string, text: string, meta: string, ts: int)

  datatype Fact = Fact(subject: string, fact: string, strength: real, lastSeen: int)

  datatype UnknownWord = UnknownWord(context: string, firstSeen: int)

  /** The cap upsert_fact puts on a strengthened fact. */
  const MAX_STRENGTH: real := 10.0

  /** How an execute call ends. */
  datatype Exec = Executed | OperationalFailure | OtherFailure

  // ---------------------------------------------------------------------
  // Messages

  /** ORDER BY ts DESC LIMIT n, then [::-1]: the newest n rows back in
      chronological order. */
  function Recent(messages: seq<Message>, limit: int): (r: seq<Message>)
    ensures |r| <= |messages|
    ensures r == messages[|messages| - |r|..]
    ensures limit < 0 ==> r == messages
    ensures limit >= 0 ==> |r| == if limit <= |messages| then limit else |messages|
  {
    var newest := Limit(Reverse(messages), limit);
    NewestReversed(messages, newest);
    Reverse(newest)
  }

  /** Reversing a prefix of the reversed rows gives the matching suffix. */
  lemma NewestReversed(messages: seq<Message>, newest: seq<Message>)
    requires |newest| <= |messages| && newest == Reverse(messages)[..|newest|]
    ensures Reverse(newest) == messages[|messages| - |newest|..]
  {
    var r := Reverse(newest);
    var n := |messages|;
    forall i | 0 <= i < |newest| ensures r[i] == messages[n - |newest|..][i] {
      assert r[i] == newest[|newest| - 1 - i] == Reverse(messages)[|newest| - 1 - i];
    }
  }

  /** The message just added is the last one recent_messages returns, for
      any positive limit. */
  lemma AddedIsMostRecent(messages: seq<Message>, m: Message, limit: int)
    requires limit != 0
    ensures var r := Recent(messages + [m], limit); r != [] && r[|r| - 1] == m
  {
  }

  // ---------------------------------------------------------------------
  // Facts

  /** No two rows hold the same fact text (fact TEXT UNIQUE). */
  predicate UniqueFacts(facts: seq<Fact>) {
    forall i, j :: 0 <= i < j < |facts| ==> facts[i].fact != facts[j].fact
  }

  /** SELECT id FROM facts WHERE fact = ?: the index of the row, if any. */
  function FindFact(facts: seq<Fact>, fact: string): (r: Option<nat>)
    ensures r.Some? ==> r.value < |facts| && facts[r.value].fact == fact
    ensures r.None? ==> forall i :: 0 <= i < |facts| ==> facts[i].fact != fact
    ensures UniqueFacts(facts) && r.Some? ==> forall i :: 0 <= i < |facts| && facts[i].fact == fact ==> i == r.value
  {
    if facts == [] then None
    else if facts[|facts| - 1].fact == fact then Some(|facts| - 1)
    else FindFact(facts[..|facts| - 1], fact)
  }

  function Min(a: real, b: real): real {
    if a <= b then a else b
  }

  /** upsert_fact on the table: the new table and the id returned. */
  function Upserted(facts: seq<Fact>, subject: string, fact: string, strength: real, now: int): (seq<Fact>, nat) {
    match FindFact(facts, fact)
    case Some(k) => (facts[k := Fact(subject, fact, Min(MAX_STRENGTH, facts[k].strength + strength), now)], k + 1)
    case None => (facts + [Fact(subject, fact, strength, now)], |facts| + 1)
  }

  /** An upsert keeps facts unique; the returned id is the row of that fact,
      which now has the given subject and was seen now.  An existing fact keeps
      its id and is strengthened up to the cap; a new one is appended with the
      given strength, uncapped; no other row changes. */
  lemma UpsertFactSpec(facts: seq<Fact>, subject: string, fact: string, strength: real, now: int)
    requires UniqueFacts(facts)
    ensures var (r, id) := Upserted(facts, subject, fact, strength, now);
      && UniqueFacts(r)
      && 1 <= id <= |r|
      && r[id - 1].fact == fact && r[id - 1].subject == subject && r[id - 1].lastSeen == now
      && forall i :: 0 <= i < |facts| && i != id - 1 ==> r[i] == facts[i]
    ensures var (r, id) := Upserted(facts, subject, fact, strength, now);
      match FindFact(facts, fact)
      case Some(k) =>
        && id == k + 1 && |r| == |facts|
        && r[k].strength == if facts[k].strength + strength <= MAX_STRENGTH then facts[k].strength + strength else MAX_STRENGTH
      case None =>
        && id == |facts| + 1 && |r| == |facts| + 1 && r[|facts|].strength == strength
  {
  }

  /** Strengthening never pushes a fact that was at most the cap above it. */
  lemma UpsertCapped(facts: seq<Fact>, subject: string, fact: string, strength: real, now: int)
    requires UniqueFacts(facts) && FindFact(facts, fact).Some?
    ensures var (r, id) := Upserted(facts, subject, fact, strength, now);
      r[id - 1].strength <= MAX_STRENGTH
  {
  }

  function Strength(f: Fact): real {
    f.strength
  }

  function LastSeen(f: Fact): int {
    f.lastSeen
  }

  function OfSubject(subject: string): Fact -> bool {
    (f: Fact) => f.subject == subject
  }

  /** The rows recall_facts selects: those of the subject when it is non-empty,
      ordered by strength, then last_seen, both descending, at most limit. */
  function RecalledRows(facts: seq<Fact>, subject: Option<string>, limit: int): seq<Fact> {
    Limit(SortDesc(Candidates(facts, subject), Strength, LastSeen), limit)
  }

  /** recall_facts: the fact texts of those rows. */
  function Recall(facts: seq<Fact>, subject: Option<string>, limit: int): (r: seq<string>) {
    var rows := RecalledRows(facts, subject, limit);
    seq(|rows|, i requires 0 <= i < |rows| => rows[i].fact)
  }

  /** The candidate rows of recall_facts before ordering. */
  function Candidates(facts: seq<Fact>, subject: Option<string>): seq<Fact> {
    if subject.Some? && subject.value != "" then Filter(facts, OfSubject(subject.value)) else facts
  }

  /** Each recalled fact is the text of a row of the table, of the subject
      when one is given, and there are at most limit of them. */
  lemma RecallMembers(facts: seq<Fact>, subject: Option<string>, limit: int)
    ensures var rows := RecalledRows(facts, subject, limit);
      && |Recall(facts, subject, limit)| == |rows|
      && (limit >= 0 ==> |rows| <= limit)
      && forall i :: 0 <= i < |rows| ==>
        && Recall(facts, subject, limit)[i] == rows[i].fact
        && rows[i] in facts
        && (subject.Some? && subject.value != "" ==> rows[i].subject == subject.value)
  {
    var sorted := SortDesc(Candidates(facts, subject), Strength, LastSeen);
    var r := RecalledRows(facts, subject, limit);
    forall i | 0 <= i < |r| ensures r[i] in facts && (subject.Some? && subject.value != "" ==> r[i].subject == subject.value) {
      assert r[i] == sorted[i];
      assert r[i] in multiset(Candidates(facts, subject));
    }
  }

  /** Stronger facts come first, and of two equally strong ones the one seen
      later. */
  lemma RecallOrdered(facts: seq<Fact>, subject: Option<string>, limit: int, i: nat, j: nat)
    requires i < j < |RecalledRows(facts, subject, limit)|
    ensures var rows := RecalledRows(facts, subject, limit);
      rows[i].strength > rows[j].strength || (rows[i].strength == rows[j].strength && rows[i].lastSeen >= rows[j].lastSeen)
  {
    var sorted := SortDesc(Candidates(facts, subject), Strength, LastSeen);
    assert !Before(sorted[j], sorted[i], Strength, LastSeen);
  }

  /** With no limit every fact of the subject (every fact, when none is given)
      is recalled. */
  lemma RecallComplete(facts: seq<Fact>, subject: Option<string>, limit: int, f: Fact)
    requires limit < 0 && f in facts
    requires subject.None? || subject.value == "" || f.subject == subject.value
    ensures f in RecalledRows(facts, subject, limit)
  {
    if subject.Some? && subject.value != "" {
      var k :| 0 <= k < |facts| && facts[k] == f;
      assert OfSubject(subject.value)(facts[k]);
    }
    assert f in multiset(Candidates(facts, subject));
    assert f in multiset(SortDesc(Candidates(facts, subject), Strength, LastSeen));
  }

  // ---------------------------------------------------------------------
  // Identity

  /** INSERT ... ON CONFLICT(key) DO UPDATE SET value: an existing row is
      updated where it stands, a new key is appended. */
  function Upsert(rows: seq<(string, string)>, key: string, value: string): seq<(string, string)> {
    if HasKey(rows, key) then UpdateAt(rows, key, (_: string) => value) else rows + [(key, value)]
  }

  /** set_identity(key, v) then get_identity(key) gives v; other keys keep
      their value, and keys stay unique. */
  lemma IdentityUpsertSpec(rows: seq<(string, string)>, key: string, value: string)
    requires UniqueKeys(rows)
    ensures UniqueKeys(Upsert(rows, key, value))
    ensures Lookup(Upsert(rows, key, value), key) == Some(value)
    ensures forall k :: k != key ==> Lookup(Upsert(rows, key, value), k) == Lookup(rows, k)
  {
    if HasKey(rows, key) {
      UpdateAtSpec(rows, key, (_: string) => value);
    } else {
      var r := rows + [(key, value)];
      assert r[|rows|] == (key, value);
      forall k | k != key ensures Lookup(r, k) == Lookup(rows, k) {
        if HasKey(rows, k) {
          var i :| 0 <= i < |rows| && rows[i].0 == k;
          assert r[i] == rows[i];
        }
      }
    }
  }

  // ---------------------------------------------------------------------
  // The store

  class Memory {
    var identity: seq<(string, string)>
    var messages: seq<Message>
    var facts: seq<Fact>
    var unknownWords: seq<(string, UnknownWord)>

    /** The constraints of the schema: PRIMARY KEY and UNIQUE columns. */
    ghost predicate Valid()
      reads this
    {
      UniqueKeys(identity) && UniqueKeys(unknownWords) && UniqueFacts(facts)
    }

    /** __init__ on a database that already holds these rows. */
    constructor (identity0: seq<(string, string)>, messages0: seq<Message>, facts0: seq<Fact>, unknown0: seq<(string, UnknownWord)>)
      requires UniqueKeys(identity0) && UniqueKeys(unknown0) && UniqueFacts(facts0)
      ensures Valid()
      ensures identity == identity0 && messages == messages0 && facts == facts0 && unknownWords == unknown0
    {
      identity, messages, facts, unknownWords := identity0, messages0, facts0, unknown0;
    }

    /** add_message: one row appended; its id is returned. */
    method AddMessage(who: string, text: string, meta: string, now: int) returns (id: nat)
      requires Valid()
      modifies this
      ensures Valid()
      ensures messages == old(messages) + [Message(who, text, meta, now)]
      ensures id == |messages|
      ensures identity == old(identity) && facts == old(facts) && unknownWords == old(unknownWords)
    {
      messages := messages + [Message(who, text, meta, now)];
      id := |messages|;
    }

    /** recent_messages: the newest `limit` messages, oldest first. */
    function RecentMessages(limit: int): (r: seq<Message>)
      reads this
      ensures |r| <= |messages| && r == messages[|messages| - |r|..]
      ensures limit < 0 ==> r == messages
      ensures limit >= 0 ==> |r| == if limit <= |messages| then limit else |messages|
    {
      Recent(messages, limit)
    }

    /** upsert_fact: strengthen the row holding fact, or insert it. */
    method UpsertFact(subject: string, fact: string, strength: real, now: int) returns (id: nat)
      requires Valid()
      modifies this
      ensures Valid()
      ensures (facts, id) == Upserted(old(facts), subject, fact, strength, now)
      ensures identity == old(identity) && messages == old(messages) && unknownWords == old(unknownWords)
    {
      UpsertFactSpec(facts, subject, fact, strength, now);
      var row := FindFact(facts, fact);
      if row.Some? {
        var k := row.value;
        var newStrength := Min(MAX_STRENGTH, facts[k].strength + strength);
        facts := facts[k := Fact(subject, fact, newStrength, now)];
        return k + 1;
      }
      facts := facts + [Fact(subject, fact, strength, now)];
      id := |facts|;
    }

    /** recall_facts: the texts of the facts RecalledRows selects. */
    function RecallFacts(subject: Option<string>, limit: int): (r: seq<string>)
      reads this
      ensures limit >= 0 ==> |r| <= limit
      ensures |r| == |RecalledRows(facts, subject, limit)|
      ensures forall i :: 0 <= i < |r| ==>
        var row := RecalledRows(facts, subject, limit)[i];
        r[i] == row.fact && row in facts && (subject.Some? && subject.value != "" ==> row.subject == subject.value)
    {
      RecallMembers(facts, subject, limit);
      Recall(facts, subject, limit)
    }

    /** set_identity: last write wins. */
    method SetIdentity(key: string, value: string)
      requires Valid()
      modifies this
      ensures Valid()
      ensures identity == Upsert(old(identity), key, value)
      ensures GetIdentity(key) == Some(value)
      ensures forall k :: k != key ==> GetIdentity(k) == old(GetIdentity(k))
      ensures messages == old(messages) && facts == old(facts) && unknownWords == old(unknownWords)
    {
      IdentityUpsertSpec(identity, key, value);
      identity := Upsert(identity, key, value);
    }

    function GetIdentity(key: string): (r: Option<string>)
      reads this
      ensures r.Some? <==> HasKey(identity, key)
      ensures r.Some? ==> (key, r.value) in identity
    {
      Lookup(identity, key)
    }

    /** add_unknown_word: INSERT ... ON CONFLICT DO NOTHING; when that raises
        OperationalError, INSERT OR IGNORE, whose failure is swallowed.  Any
        other failure of the first statement propagates. */
    method AddUnknownWord(word: string, context: string, now: int, first: Exec, fallback: Exec) returns (raised: bool)
      requires Valid()
      modifies this
      ensures Valid()
      ensures raised <==> first == OtherFailure
      ensures unknownWords == if first == Executed || (first == OperationalFailure && fallback == Executed)
        then InsertOrIgnore(old(unknownWords), word, UnknownWord(context, now))
        else old(unknownWords)
      ensures HasKey(old(unknownWords), word) ==> unknownWords == old(unknownWords)
      ensures identity == old(identity) && messages == old(messages) && facts == old(facts)
    {
      raised := false;
      InsertOrIgnoreSpec(unknownWords, word, UnknownWord(context, now));
      if first == Executed {
        unknownWords := InsertOrIgnore(unknownWords, word, UnknownWord(context, now));
      } else if first == OperationalFailure {
        if fallback == Executed {
          unknownWords := InsertOrIgnore(unknownWords, word, UnknownWord(context, now));
        }
      } else {
        raised := true;
      }
    }
  }
}
