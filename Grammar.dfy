/**
 * grammar.py: a lexicon of word sets, one per part of speech, and the
 * sentence rules built on it: tokenizing, tagging each token with the first
 * part of speech that lists it, checking for a noun and a verb, and
 * generating "The [adjective ]noun verbs." from a bag of words.
 */
module Grammar {
  import opened Common

  /** generate_sentence's fallback reply. The first character stands apart so
      that the verifier, which does not index deep into a long literal, sees it. */
  const FALLBACK := "I" + " don't have enough information to form a sentence."

  /** The parts of speech in the order identify_pos tries them. */
  const POS: seq<string> := ["noun", "verb", "adjective", "adverb", "preposition", "conjunction", "pronoun", "article"]

  /** The word sets, as they stand at one moment. */
  datatype Lexicon = Lexicon(nouns: set<string>, verbs: set<string>, adjectives: set<string>, adverbs: set<string>,
                             prepositions: set<string>, conjunctions: set<string>, pronouns: set<string>,
                             articles: set<string>)
  {
    /** The set that pos names, in the order of POS. */
    function SetOf(i: nat): set<string>
      requires i < 8
    {
      [nouns, verbs, adjectives, adverbs, prepositions, conjunctions, pronouns, articles][i]
    }
  }

  /** identify_pos: the first part of speech whose set holds the word. */
  function PosOf(lex: Lexicon, word: string): string {
    if word in lex.nouns then "noun"
    else if word in lex.verbs then "verb"
    else if word in lex.adjectives then "adjective"
    else if word in lex.adverbs then "adverb"
    else if word in lex.prepositions then "preposition"
    else if word in lex.conjunctions then "conjunction"
    else if word in lex.pronouns then "pronoun"
    else if word in lex.articles then "article"
    else "unknown"
  }

  /** The tag is POS[i] exactly when set i holds the word and no set before
      it does; it is "unknown" exactly when no set holds the word. */
  lemma PosPriority(lex: Lexicon, word: string, i: nat)
    requires i < 8
    ensures PosOf(lex, word) == POS[i] <==> word in lex.SetOf(i) && forall j :: 0 <= j < i ==> word !in lex.SetOf(j)
  {
    assert lex.SetOf(0) == lex.nouns && lex.SetOf(1) == lex.verbs && lex.SetOf(2) == lex.adjectives;
    assert lex.SetOf(3) == lex.adverbs && lex.SetOf(4) == lex.prepositions && lex.SetOf(5) == lex.conjunctions;
    assert lex.SetOf(6) == lex.pronouns && lex.SetOf(7) == lex.articles;
  }

  lemma PosUnknown(lex: Lexicon, word: string)
    ensures PosOf(lex, word) == "unknown" <==> forall j :: 0 <= j < 8 ==> word !in lex.SetOf(j)
  {
    if PosOf(lex, word) != "unknown" {
      assert word in lex.SetOf(0) || word in lex.SetOf(1) || word in lex.SetOf(2) || word in lex.SetOf(3)
        || word in lex.SetOf(4) || word in lex.SetOf(5) || word in lex.SetOf(6) || word in lex.SetOf(7);
    }
  }

  /** set.update of the set that pos names; any other pos changes nothing. */
  function WithWords(lex: Lexicon, words: seq<string>, pos: string): Lexicon {
    var w := set k | 0 <= k < |words| :: words[k];
    if pos == "noun" then lex.(nouns := lex.nouns + w)
    else if pos == "verb" then lex.(verbs := lex.verbs + w)
    else if pos == "adjective" then lex.(adjectives := lex.adjectives + w)
    else if pos == "adverb" then lex.(adverbs := lex.adverbs + w)
    else if pos == "preposition" then lex.(prepositions := lex.prepositions + w)
    else if pos == "conjunction" then lex.(conjunctions := lex.conjunctions + w)
    else if pos == "pronoun" then lex.(pronouns := lex.pronouns + w)
    else if pos == "article" then lex.(articles := lex.articles + w)
    else lex
  }

  /** add_words grows the set pos names by exactly the words given and
      leaves every other set as it was. */
  lemma AddWordsSpec(lex: Lexicon, words: seq<string>, pos: string, i: nat)
    requires i < 8
    ensures WithWords(lex, words, pos).SetOf(i)
      == if pos == POS[i] then lex.SetOf(i) + (set k | 0 <= k < |words| :: words[k]) else lex.SetOf(i)
  {
  }

  lemma AddWordsUnknownPos(lex: Lexicon, words: seq<string>, pos: string)
    requires forall i :: 0 <= i < 8 ==> pos != POS[i]
    ensures WithWords(lex, words, pos) == lex
  {
    assert pos != POS[0] && pos != POS[1] && pos != POS[2] && pos != POS[3];
    assert pos != POS[4] && pos != POS[5] && pos != POS[6] && pos != POS[7];
  }

  // ---------------------------------------------------------------------
  // tokenize, as written

  /** Number of 'w' characters from index i on. */
  function WRun(s: string, i: nat): (n: nat)
    requires i <= |s|
    ensures i + n <= |s|
    ensures forall j :: i <= j < i + n ==> s[j] == 'w'
    ensures i + n < |s| ==> s[i + n] != 'w'
    decreases |s| - i
  {
    if i < |s| && s[i] == 'w' then 1 + WRun(s, i + 1) else 0
  }

  /** The length of a match of the raw pattern \\b\\w+\\b at index i: a
      backslash, 'b', a backslash, one or more 'w', a backslash and 'b'. */
  function LiteralMatch(s: string, i: nat): (r: Option<nat>)
    requires i <= |s|
    ensures r.Some? ==> i + r.value <= |s| && r.value >= 6 && s[i] == '\\'
  {
    if !OccursAt(s, "\\b\\", i) then None
    else
      var k := WRun(s, i + 3);
      if k >= 1 && OccursAt(s, "\\b", i + 3 + k) then Some(5 + k) else None
  }

  /** re.findall of that pattern from index i: matches are taken left to
      right and do not overlap. */
  function FindAllLiteral(s: string, i: nat): seq<string>
    requires i <= |s|
    decreases |s| - i
  {
    if i == |s| then []
    else match LiteralMatch(s, i)
      case Some(n) => [s[i..i + n]] + FindAllLiteral(s, i + n)
      case None => FindAllLiteral(s, i + 1)
  }

  /** tokenize(sentence) as written. */
  function Tokenize(sentence: string): seq<string> {
    FindAllLiteral(Lower(sentence), 0)
  }

  /** Every token found starts with a backslash, so a sentence without one
      has no tokens at all. */
  lemma {:induction false} FindAllNoBackslash(s: string, i: nat)
    requires i <= |s|
    requires forall j :: i <= j < |s| ==> s[j] != '\\'
    ensures FindAllLiteral(s, i) == []
    decreases |s| - i
  {
    if i < |s| {
      FindAllNoBackslash(s, i + 1);
    }
  }

  lemma TokenizeNoBackslash(sentence: string)
    requires '\\' !in sentence
    ensures Tokenize(sentence) == []
  {
    var s := Lower(sentence);
    forall j | 0 <= j < |s|
      ensures s[j] != '\\'
    {
      assert sentence[j] != '\\';
    }
    FindAllNoBackslash(s, 0);
  }

  // ---------------------------------------------------------------------
  // tokenize, as intended: the pattern \b\w+\b

  /** \w restricted to ASCII. */
  predicate IsWordChar(c: char) {
    IsAsciiAlnum(c) || c == '_'
  }

  /** Length of the leading run of word characters. */
  function RunLen(s: string): (n: nat)
    ensures n <= |s|
    ensures forall j :: 0 <= j < n ==> IsWordChar(s[j])
    ensures n < |s| ==> !IsWordChar(s[n])
  {
    if s != [] && IsWordChar(s[0]) then 1 + RunLen(s[1..]) else 0
  }

  /** re.findall(r"\b\w+\b", s): the maximal runs of word characters. */
  function WordTokens(s: string): (r: seq<string>)
    ensures forall k :: 0 <= k < |r| ==> r[k] != ""
    ensures forall k, j :: 0 <= k < |r| && 0 <= j < |r[k]| ==> IsWordChar(r[k][j])
    decreases |s|
  {
    if s == [] then []
    else if !IsWordChar(s[0]) then WordTokens(s[1..])
    else
      var n := RunLen(s);
      [s[..n]] + WordTokens(s[n..])
  }

  /** tokenize(sentence) with the pattern written once-escaped. */
  function WordTokenize(sentence: string): seq<string> {
    WordTokens(Lower(sentence))
  }

  predicate IsWord(w: string) {
    w != [] && forall j :: 0 <= j < |w| ==> IsWordChar(w[j])
  }

  lemma {:induction false} RunLenOfWord(w: string, rest: string)
    requires forall j :: 0 <= j < |w| ==> IsWordChar(w[j])
    requires rest != [] ==> !IsWordChar(rest[0])
    ensures RunLen(w + rest) == |w|
  {
    if w != [] {
      assert (w + rest)[1..] == w[1..] + rest;
      RunLenOfWord(w[1..], rest);
    }
  }

  lemma WordTokensHead(w: string, rest: string)
    requires IsWord(w)
    ensures WordTokens(w + " " + rest) == [w] + WordTokens(rest)
  {
    var s := w + " " + rest;
    assert s == w + (" " + rest);
    RunLenOfWord(w, " " + rest);
    assert s[..|w|] == w;
    assert s[|w|..] == " " + rest;
    assert (" " + rest)[1..] == rest;
  }

  lemma WordTokensOne(w: string)
    requires IsWord(w)
    ensures WordTokens(w) == [w]
  {
    RunLenOfWord(w, "");
    assert w + "" == w;
  }

  /** Words joined by single spaces tokenize back to the same words. */
  lemma {:induction false} WordTokensJoin(ws: seq<string>)
    requires forall k :: 0 <= k < |ws| ==> IsWord(ws[k])
    ensures WordTokens(Join(ws, " ")) == ws
  {
    if |ws| == 1 {
      WordTokensOne(ws[0]);
    } else if |ws| > 1 {
      WordTokensJoin(ws[1..]);
      WordTokensHead(ws[0], Join(ws[1..], " "));
      assert [ws[0]] + ws[1..] == ws;
    }
  }

  // ---------------------------------------------------------------------
  // Sentence rules over a token list

  /** One (token, tag) pair per token, in token order. */
  function Tagged(lex: Lexicon, tokens: seq<string>): (r: seq<(string, string)>)
    ensures |r| == |tokens|
    ensures forall i :: 0 <= i < |r| ==> r[i] == (tokens[i], PosOf(lex, tokens[i]))
  {
    seq(|tokens|, i requires 0 <= i < |tokens| => (tokens[i], PosOf(lex, tokens[i])))
  }

  /** any(pos == tag for _, pos in tagged). */
  predicate HasTag(tagged: seq<(string, string)>, tag: string) {
    exists i :: 0 <= i < |tagged| && tagged[i].1 == tag
  }

  /** The words of ws that identify_pos tags with tag, in order. */
  function OfPos(lex: Lexicon, ws: seq<string>, tag: string): (r: seq<string>)
    ensures forall i :: 0 <= i < |r| ==> PosOf(lex, r[i]) == tag
  {
    if ws == [] then []
    else (if PosOf(lex, ws[0]) == tag then [ws[0]] else []) + OfPos(lex, ws[1..], tag)
  }

  /** Some word has the tag exactly when the filtered list is non-empty. */
  lemma {:induction false} OfPosNonEmpty(lex: Lexicon, ws: seq<string>, tag: string)
    ensures OfPos(lex, ws, tag) != [] <==> exists i :: 0 <= i < |ws| && PosOf(lex, ws[i]) == tag
  {
    if ws != [] {
      OfPosNonEmpty(lex, ws[1..], tag);
      if exists i :: 0 <= i < |ws| && PosOf(lex, ws[i]) == tag {
        var i :| 0 <= i < |ws| && PosOf(lex, ws[i]) == tag;
        if i > 0 {
          assert ws[1..][i - 1] == ws[i];
        }
      }
      if OfPos(lex, ws[1..], tag) != [] {
        var i :| 0 <= i < |ws[1..]| && PosOf(lex, ws[1..][i]) == tag;
        assert ws[i + 1] == ws[1..][i];
      }
    }
  }

  /** The first word of a tag is the earliest word with that tag. */
  lemma {:induction false} OfPosFirst(lex: Lexicon, ws: seq<string>, tag: string)
    requires OfPos(lex, ws, tag) != []
    ensures exists i :: 0 <= i < |ws| && ws[i] == OfPos(lex, ws, tag)[0]
                        && forall j :: 0 <= j < i ==> PosOf(lex, ws[j]) != tag
  {
    if PosOf(lex, ws[0]) == tag {
      assert ws[0] == OfPos(lex, ws, tag)[0];
    } else {
      OfPosFirst(lex, ws[1..], tag);
      var i :| 0 <= i < |ws[1..]| && ws[1..][i] == OfPos(lex, ws[1..], tag)[0]
        && forall j :: 0 <= j < i ==> PosOf(lex, ws[1..][j]) != tag;
      assert ws[i + 1] == OfPos(lex, ws, tag)[0];
      forall j | 0 <= j < i + 1
        ensures PosOf(lex, ws[j]) != tag
      {
        if j > 0 {
          assert ws[j] == ws[1..][j - 1];
        }
      }
    }
  }

  /** A tag occurs among the tagged words exactly when some word has it. */
  lemma HasTagIff(lex: Lexicon, ws: seq<string>, tag: string)
    ensures HasTag(Tagged(lex, ws), tag) <==> OfPos(lex, ws, tag) != []
  {
    OfPosNonEmpty(lex, ws, tag);
    var t := Tagged(lex, ws);
    if HasTag(t, tag) {
      var i :| 0 <= i < |t| && t[i].1 == tag;
      assert PosOf(lex, ws[i]) == tag;
    }
    if OfPos(lex, ws, tag) != [] {
      var i :| 0 <= i < |ws| && PosOf(lex, ws[i]) == tag;
      assert t[i].1 == tag;
    }
  }

  /** generate_sentence over a list of words. */
  function Generate(lex: Lexicon, words: seq<string>): string {
    var nouns := OfPos(lex, words, "noun");
    var verbs := OfPos(lex, words, "verb");
    var adjectives := OfPos(lex, words, "adjective");
    if nouns == [] || verbs == [] then FALLBACK
    else if adjectives != [] && adjectives[0] != "" then "The " + adjectives[0] + " " + nouns[0] + " " + verbs[0] + "s."
    else "The " + nouns[0] + " " + verbs[0] + "s."
  }

  /** A sentence is generated exactly when the words hold a noun and a verb,
      which is the same test is_valid_sentence applies to tagged tokens. */
  lemma GenerateIffValid(lex: Lexicon, words: seq<string>)
    ensures Generate(lex, words) != FALLBACK
      <==> HasTag(Tagged(lex, words), "noun") && HasTag(Tagged(lex, words), "verb")
  {
    HasTagIff(lex, words, "noun");
    HasTagIff(lex, words, "verb");
    GenerateFallback(lex, words);
  }

  lemma GenerateFallback(lex: Lexicon, words: seq<string>)
    ensures Generate(lex, words) == FALLBACK
      <==> OfPos(lex, words, "noun") == [] || OfPos(lex, words, "verb") == []
  {
    var g := Generate(lex, words);
    if OfPos(lex, words, "noun") != [] && OfPos(lex, words, "verb") != [] {
      assert g[0] == 'T';
      assert FALLBACK[0] == 'I';
    }
  }

  /** A generated sentence names the first noun and the first verb of the
      words, with the verb's "s", and the first adjective when there is one. */
  lemma GenerateShape(lex: Lexicon, words: seq<string>)
    requires Generate(lex, words) != FALLBACK
    ensures var n, v, a := OfPos(lex, words, "noun"), OfPos(lex, words, "verb"), OfPos(lex, words, "adjective");
      n != [] && v != [] && PosOf(lex, n[0]) == "noun" && PosOf(lex, v[0]) == "verb"
      && Generate(lex, words) == "The " + (if a != [] && a[0] != "" then a[0] + " " else "") + n[0] + " " + v[0] + "s."
  {
    var a := OfPos(lex, words, "adjective");
    if a != [] && a[0] != "" {
      assert "The " + a[0] + " " + OfPos(lex, words, "noun")[0] == "The " + (a[0] + " ") + OfPos(lex, words, "noun")[0];
    } else {
      assert "The " + "" == "The ";
    }
  }

  // ---------------------------------------------------------------------
  // The Grammar object

  class Grammar {
    var nouns: set<string>
    var verbs: set<string>
    var adjectives: set<string>
    var adverbs: set<string>
    var prepositions: set<string>
    var conjunctions: set<string>
    var pronouns: set<string>
    var articles: set<string>

    function Lex(): Lexicon
      reads this
    {
      Lexicon(nouns, verbs, adjectives, adverbs, prepositions, conjunctions, pronouns, articles)
    }

    /** Every set starts empty except the articles a, an and the. */
    constructor ()
      ensures Lex() == Lexicon({}, {}, {}, {}, {}, {}, {}, {"a", "an", "the"})
    {
      nouns, verbs, adjectives, adverbs := {}, {}, {}, {};
      prepositions, conjunctions, pronouns := {}, {}, {};
      articles := {"a", "an", "the"};
    }

    /** add_words: updates only the set pos names. */
    method AddWords(words: seq<string>, pos: string)
      modifies this
      ensures Lex() == WithWords(old(Lex()), words, pos)
    {
      var w := set k | 0 <= k < |words| :: words[k];
      if pos == "noun" {
        nouns := nouns + w;
      } else if pos == "verb" {
        verbs := verbs + w;
      } else if pos == "adjective" {
        adjectives := adjectives + w;
      } else if pos == "adverb" {
        adverbs := adverbs + w;
      } else if pos == "preposition" {
        prepositions := prepositions + w;
      } else if pos == "conjunction" {
        conjunctions := conjunctions + w;
      } else if pos == "pronoun" {
        pronouns := pronouns + w;
      } else if pos == "article" {
        articles := articles + w;
      }
    }

    /** identify_pos: the first set holding the word, in noun, verb, ...,
        article order. */
    function IdentifyPos(word: string): (r: string)
      reads this
      ensures r == "noun" <==> word in nouns
      ensures r == "verb" <==> word !in nouns && word in verbs
      ensures r == "unknown" <==> forall j :: 0 <= j < 8 ==> word !in Lex().SetOf(j)
    {
      PosUnknown(Lex(), word);
      PosOf(Lex(), word)
    }

    /** parse_sentence: one (token, tag) pair per token of tokenize, with
        the pattern escaped once (the as-written tokenizer finds no token in
        ordinary text; see CatRunsAsWritten). */
    function ParseSentence(sentence: string): (r: seq<(string, string)>)
      reads this
      ensures |r| == |WordTokenize(sentence)|
      ensures forall i :: 0 <= i < |r| ==> r[i].0 == WordTokenize(sentence)[i] && r[i].1 == IdentifyPos(r[i].0)
    {
      Tagged(Lex(), WordTokenize(sentence))
    }

    /** is_valid_sentence: some token is a noun and some token is a verb. */
    predicate IsValidSentence(sentence: string)
      reads this
      ensures IsValidSentence(sentence) <==>
        && (exists i :: 0 <= i < |WordTokenize(sentence)| && IdentifyPos(WordTokenize(sentence)[i]) == "noun")
        && (exists i :: 0 <= i < |WordTokenize(sentence)| && IdentifyPos(WordTokenize(sentence)[i]) == "verb")
    {
      HasTag(ParseSentence(sentence), "noun") && HasTag(ParseSentence(sentence), "verb")
    }

    /** generate_sentence: a sentence exactly when the words hold a noun and a
        verb, the test is_valid_sentence applies to tagged tokens. */
    function GenerateSentence(words: seq<string>): (r: string)
      reads this
      ensures r != FALLBACK <==> HasTag(Tagged(Lex(), words), "noun") && HasTag(Tagged(Lex(), words), "verb")
    {
      GenerateIffValid(Lex(), words);
      Generate(Lex(), words)
    }
  }

  /** As written, parse_sentence tags no token of a sentence without a
      backslash, so is_valid_sentence rejects it however the lexicon tags
      its words. */
  lemma NoBackslashNeverValid(lex: Lexicon, sentence: string)
    requires '\\' !in sentence
    ensures !HasTag(Tagged(lex, Tokenize(sentence)), "noun")
    ensures !HasTag(Tagged(lex, Tokenize(sentence)), "verb")
  {
    TokenizeNoBackslash(sentence);
  }

  /** A concrete sentence: with "cat" a noun and "runs" a verb, "the cat
      runs" has no tokens and is not valid as written, while the intended
      tokenizer gives its three words and the sentence is valid. */
  lemma CatRunsAsWritten(lex: Lexicon)
    requires "cat" in lex.nouns && "runs" in lex.verbs && "runs" !in lex.nouns
    ensures Tokenize("the cat runs") == []
    ensures !HasTag(Tagged(lex, Tokenize("the cat runs")), "noun")
  {
    var s := "the cat runs";
    assert forall j :: 0 <= j < |s| ==> s[j] != '\\';
    NoBackslashNeverValid(lex, s);
  }

  lemma CatRunsIntended(g: Grammar)
    requires "cat" in g.nouns && "runs" in g.verbs && "runs" !in g.nouns
    ensures g.ParseSentence("the cat runs") == [("the", g.IdentifyPos("the")), ("cat", "noun"), ("runs", "verb")]
    ensures g.IsValidSentence("the cat runs")
  {
    CatRunsWords();
    var t := g.ParseSentence("the cat runs");
    assert t[1].1 == "noun";
    assert t[2].1 == "verb";
  }

  lemma CatRunsWords()
    ensures WordTokenize("the cat runs") == ["the", "cat", "runs"]
  {
    var s := "the cat runs";
    assert Lower(s) == s;
    assert IsWord("the") && IsWord("cat") && IsWord("runs");
    assert Join(["the", "cat", "runs"], " ") == s;
    WordTokensJoin(["the", "cat", "runs"]);
  }
}
