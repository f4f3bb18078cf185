/**
 * seedai_emotion_module.py: EmotionCore, a mood that keyword reactions move
 * between curious, happy and sad, and EmotionEngine, which prefixes every
 * sentence of a reply with the emoji of an emotion.
 *
 * The memory EmotionCore is given is a collaborator: its `emotions` dict is a
 * parameter of each call that reads it, and the update_emotion calls react
 * makes on it are recorded, in order, in `updates`.  Whether the memory has
 * an update_emotion method at all is the parameter canUpdate.
 */
module Emotion {
  import opened Common

  const POSITIVE: seq<string> := ["thank", "love", "appreciate"]
  const NEGATIVE: seq<string> := ["hate", "stupid", "kill"]

  /** any(word in text for word in words). */
  predicate AnyIn(text: string, words: seq<string>) {
    exists k :: 0 <= k < |words| && Contains(text, words[k])
  }

  /** The state react moves to for a text. */
  function Reaction(text: string): string {
    var lowered := Lower(text);
    if AnyIn(lowered, POSITIVE) then "happy"
    else if AnyIn(lowered, NEGATIVE) then "sad"
    else "curious"
  }

  /** How far react raises the level of the emotion it moves to. */
  function Step(state: string): real {
    if state == "happy" then 0.1 else 0.2
  }

  function MinReal(a: real, b: real): real {
    if a <= b then a else b
  }

  /** memory.emotions["core_emotions"][name] + step, capped at 1.0, or the
      exception evaluating it raises.  A bool level adds as 0 or 1, as Python's
      bool is an int. */
  function Raised(emotions: Obj, name: string, step: real): Result<real> {
    if "core_emotions" !in emotions then Err("KeyError")
    else if !emotions["core_emotions"].JObj? then Err("TypeError")
    else if name !in emotions["core_emotions"].fields then Err("KeyError")
    else
      match emotions["core_emotions"].fields[name]
      case JNum(n) => Ok(MinReal(1.0, n + step))
      case JBool(b) => Ok(MinReal(1.0, (if b then 1.0 else 0.0) + step))
      case _ => Err("TypeError")
  }

  /** Thanks and love win over hate: a text with words of both kinds makes
      the core happy. */
  lemma PositiveFirst(text: string, p: nat, n: nat)
    requires p < |POSITIVE| && n < |NEGATIVE|
    requires Contains(Lower(text), POSITIVE[p]) && Contains(Lower(text), NEGATIVE[n])
    ensures Reaction(text) == "happy"
  {
  }

  /** A negative word with no positive word makes the core sad; a text with
      neither makes it curious. */
  lemma NegativeOrNeutral(text: string)
    requires !AnyIn(Lower(text), POSITIVE)
    ensures Reaction(text) == "sad" <==> AnyIn(Lower(text), NEGATIVE)
    ensures Reaction(text) == "curious" <==> !AnyIn(Lower(text), NEGATIVE)
  {
  }

  /** The keywords are matched as substrings, case-insensitively. */
  lemma ReactionIgnoresCase(text: string)
    ensures Reaction(text) == Reaction(Lower(text))
  {
    assert Lower(Lower(text)) == Lower(text);
  }

  class EmotionCore {
    var state: Json
    var updates: seq<(string, real)>

    /** The initial state is emotions["current_state"], curious when absent. */
    constructor (emotions: Obj)
      ensures state == (if "current_state" in emotions then emotions["current_state"] else JStr("curious"))
      ensures updates == []
    {
      state := if "current_state" in emotions then emotions["current_state"] else JStr("curious");
      updates := [];
    }

    /** react: moves to Reaction(text).  Moving to happy or sad first asks
        the memory to raise that emotion's level.  Python looks up
        update_emotion before it evaluates the arguments, so a memory without
        that method raises AttributeError whatever the level; otherwise
        reading the level may raise.  On either error the state is left as
        it was. */
    method React(text: string, emotions: Obj, canUpdate: bool) returns (error: Option<string>)
      modifies this
      ensures var next := Reaction(text);
        if next == "curious" then
          error == None && state == JStr("curious") && updates == old(updates)
        else
          var level := Raised(emotions, next, Step(next));
          if !canUpdate then
            error == Some("AttributeError") && state == old(state) && updates == old(updates)
          else if level.Err? then
            error == Some(level.error) && state == old(state) && updates == old(updates)
          else
            error == None && state == JStr(next) && updates == old(updates) + [(next, level.value)]
    {
      var next := Reaction(text);
      if next == "curious" {
        state := JStr("curious");
        return None;
      }
      if !canUpdate {
        return Some("AttributeError");
      }
      var level := Raised(emotions, next, Step(next));
      if level.Err? {
        return Some(level.error);
      }
      updates := updates + [(next, level.value)];
      state := JStr(next);
      return None;
    }

    function CurrentState(): Json
      reads this
    {
      state
    }

    /** describe_state, with show standing for str() of a non-string state. */
    function DescribeState(show: Json -> string): (r: string)
      reads this
      ensures StartsWith(r, "I feel ")
      ensures r == "I feel " + Str(state, show) + " right now."
    {
      LabelOfDescription(Str(state, show));
      "I feel " + Str(state, show) + " right now."
    }
  }

  /** f"{v}": the text of a string, show(v) for any other value. */
  function Str(v: Json, show: Json -> string): string {
    if v.JStr? then v.s else show(v)
  }

  lemma LabelOfDescription(x: string)
    ensures StartsWith("I feel " + x + " right now.", "I feel ")
  {
    assert ("I feel " + x + " right now.")[..7] == "I feel ";
  }

  /** A level raised by react never exceeds 1.0 and never falls. */
  lemma RaisedCapped(emotions: Obj, name: string, step: real)
    requires step >= 0.0
    requires Raised(emotions, name, step).Ok?
    ensures Raised(emotions, name, step).value <= 1.0
    ensures emotions["core_emotions"].fields[name].JNum? && emotions["core_emotions"].fields[name].n <= 1.0
      ==> emotions["core_emotions"].fields[name].n <= Raised(emotions, name, step).value
  {
  }

  // ---------------------------------------------------------------------
  // EmotionEngine

  /** The emoji of an emotion, "" for one outside the five known. */
  function Tone(emotion: string): (t: string)
    ensures |t| <= 1 && (t != "" ==> !PyIsSpace(t[0]))
  {
    var e := Lower(emotion);
    if e == "happy" then "\U{1F60A}"
    else if e == "sad" then "\U{1F622}"
    else if e == "angry" then "\U{1F620}"
    else if e == "curious" then "\U{1F914}"
    else if e == "calm" then "\U{1F60C}"
    else ""
  }

  function Prefixed(tone: string, sentences: seq<string>): (r: seq<string>)
    ensures |r| == |sentences|
    ensures forall i :: 0 <= i < |r| ==> r[i] == tone + " " + sentences[i]
  {
    seq(|sentences|, i requires 0 <= i < |sentences| => tone + " " + sentences[i])
  }

  /** adjust_response_tone. */
  function AdjustResponseTone(emotion: string, sentences: seq<string>): (r: string)
    ensures r == "" <==> sentences == []
    ensures sentences != [] ==> Tone(emotion) + " " + sentences[0] <= r
  {
    Join(Prefixed(Tone(emotion), sentences), "\n")
  }

  /** The reply splits back into one line per sentence, in order, each the
      tone, a space and the sentence, when no sentence holds a newline. */
  lemma ToneLines(emotion: string, sentences: seq<string>)
    requires sentences != []
    requires forall k :: 0 <= k < |sentences| ==> '\n' !in sentences[k]
    ensures SplitOn(AdjustResponseTone(emotion, sentences), '\n') == Prefixed(Tone(emotion), sentences)
  {
    var lines := Prefixed(Tone(emotion), sentences);
    forall k | 0 <= k < |lines|
      ensures '\n' !in lines[k]
    {
      assert lines[k] == Tone(emotion) + " " + sentences[k];
    }
    SplitJoin(lines, '\n');
  }

  /** Every reaction has an emoji of its own. */
  lemma ReactionHasTone(text: string)
    ensures Tone(Reaction(text)) != ""
  {
    var r := Reaction(text);
    assert Lower(r) == r by {
      assert r == "happy" || r == "sad" || r == "curious";
    }
  }

  /** The reasoner takes the emoji alone as
      adjust_response_tone(emotion, [""])[0:2].strip(). */
  lemma EmojiOfEmptySentence(emotion: string)
    ensures PyStrip(SliceTo(AdjustResponseTone(emotion, [""]), 2)) == Tone(emotion)
  {
    var t := Tone(emotion);
    assert t + " " + "" == t + " ";
    assert Prefixed(t, [""]) == [t + " "];
    assert AdjustResponseTone(emotion, [""]) == t + " ";
    assert SliceTo(t + " ", 2) == t + " ";
    PyStripTone(t);
  }

  lemma PyStripTone(t: string)
    requires |t| <= 1 && (t != "" ==> !PyIsSpace(t[0]))
    ensures PyStrip(t + " ") == t
  {
    if t == "" {
      assert TrimStart(" ", PyIsSpace) == TrimStart("", PyIsSpace);
    } else {
      StripAfterChar(t + " ", t);
    }
  }

  lemma StripAfterChar(u: string, t: string)
    requires |t| == 1 && !PyIsSpace(t[0]) && u == t + " "
    ensures PyStrip(u) == t
  {
    assert TrimStart(u, PyIsSpace) == u;
    assert u[..|u| - 1] == t;
    assert TrimEnd(u, PyIsSpace) == TrimEnd(t, PyIsSpace);
  }
}
