/** Prompt assembly: the system instruction chosen by the mode selector, the
    optional reflection addendum, the stats block with the check-in text, and the
    message list sent to the chat-completion service (app.py:53-85, 109-131). */
module Prompt {
  import opened Types
  import opened Text

  // The wording of the persona, the three style fragments and the reflection
  // addendum is not modelled; each is a distinct stand-in text. The style
  // fragments keep the page's own leading labels; the persona and the addendum
  // keep only their surrounding line breaks.

  const Base: string := "\n[persona rules]\n\n\n"
  const BeginnerStyle: string := "\nBeginner: [rules]\n"
  const IntermediateStyle: string := "\nIntermediate: [rules]\n"
  const AdvancedStyle: string := "\nAdvanced: [style rules]\n"
  const ReflectionAddendum: string := "\n\t[reflection mode]\n\t"

  /** The three coaching styles offered by the mode selector. */
  datatype Style = Beginner | Intermediate | Advanced

  /** The style a mode string selects: the two named modes select their own
      fragment and every other string falls through to Advanced. */
  function StyleOf(mode: string): (st: Style)
    ensures st == Beginner <==> mode == "Beginner"
    ensures st == Intermediate <==> mode == "Intermediate"
    ensures st == Advanced <==> mode != "Beginner" && mode != "Intermediate"
  {
    if mode == "Beginner" then Beginner
    else if mode == "Intermediate" then Intermediate
    else Advanced
  }

  function Fragment(st: Style): string {
    match st
    case Beginner => BeginnerStyle
    case Intermediate => IntermediateStyle
    case Advanced => AdvancedStyle
  }

  /** `system_prompt(mode)`: the base persona, a newline, then the style
      fragment; read back, it names the style the mode selects and carries no
      reflection addendum. */
  function SystemPrompt(mode: string): (r: string)
    ensures ParseSystemMessage(r) == Some((StyleOf(mode), false))
  {
    var prefix := Base + "\n";
    var r := prefix + Fragment(StyleOf(mode));
    assert r[..|prefix|] == prefix && r[|prefix|..] == Fragment(StyleOf(mode));
    r
  }

  /** `reflection_context`: the addendum when the reflection flag is set, else empty. */
  function ReflectionContext(reflection: bool): (r: string)
    ensures r != "" <==> reflection
  {
    if reflection then ReflectionAddendum else ""
  }

  /** The content of the one system message of a request: `system_prompt(mode)`
      followed by the reflection addendum. Read back, it names exactly the
      style the mode selects, and it carries the addendum exactly when the
      reflection flag is set. */
  function SystemMessage(mode: string, reflection: bool): (r: string)
    ensures ParseSystemMessage(r) == Some((StyleOf(mode), reflection))
  {
    var prefix := Base + "\n";
    var tail := Fragment(StyleOf(mode)) + ReflectionContext(reflection);
    var r := SystemPrompt(mode) + ReflectionContext(reflection);
    assert r == prefix + tail;
    assert r[..|prefix|] == prefix && r[|prefix|..] == tail;
    r
  }

  /** Reads back which style and whether the reflection addendum a system
      message carries; `None` for a text that is not a system message. */
  function ParseSystemMessage(content: string): Option<(Style, bool)> {
    var prefix := Base + "\n";
    if |content| < |prefix| || content[..|prefix|] != prefix then None
    else
      var tail := content[|prefix|..];
      if tail == BeginnerStyle then Some((Beginner, false))
      else if tail == IntermediateStyle then Some((Intermediate, false))
      else if tail == AdvancedStyle then Some((Advanced, false))
      else if tail == BeginnerStyle + ReflectionAddendum then Some((Beginner, true))
      else if tail == IntermediateStyle + ReflectionAddendum then Some((Intermediate, true))
      else if tail == AdvancedStyle + ReflectionAddendum then Some((Advanced, true))
      else None
  }

  /** Two system messages are equal exactly when their modes select the same
      style and their reflection flags agree; in particular the three modes give
      three different instructions. */
  lemma SystemMessageInjective(m1: string, r1: bool, m2: string, r2: bool)
    ensures SystemMessage(m1, r1) == SystemMessage(m2, r2) <==> StyleOf(m1) == StyleOf(m2) && r1 == r2
  {
  }

  /** A number from the log as an f-string prints it: decimal digits, or
      `None` when absent. */
  function ShowCount(v: Option<nat>): (s: string)
    ensures '\n' !in s
    ensures v.Some? ==> AllDigits(s)
    ensures v == None ==> s == "None"
  {
    match v
    case None => "None"
    case Some(n) => NoNewlineInShowNat(n); ShowNat(n)
  }

  /** The printing loses nothing: a logged number reads back as itself,
      different logged numbers print differently, and an absent number never
      prints like a logged one. */
  lemma ShowCountInjective(a: Option<nat>, b: Option<nat>)
    ensures a.Some? ==> DecimalValue(ShowCount(a)) == a.value
    ensures ShowCount(a) == ShowCount(b) <==> a == b
  {
    if a.Some? {
      DecimalValueOfShowNat(a.value);
    }
    if a.Some? && b.Some? {
      ShowNatInjective(a.value, b.value);
    } else if a.Some? && b == None {
      assert !IsDigit(ShowCount(b)[0]);
    } else if a == None && b.Some? {
      assert !IsDigit(ShowCount(a)[0]);
    }
  }

  /** A text from the log as an f-string prints it: `None` when absent. The
      printing is lossy: the output is `None` exactly when the text is absent
      or is itself the word "None". */
  function ShowText(v: Option<string>): (s: string)
    ensures v.Some? ==> s == v.value
    ensures s == "None" <==> v == None || v == Some("None")
  {
    match v
    case None => "None"
    case Some(t) => t
  }

  /** `stats_context`, character for character, including the two lines that
      start with " - " and the four that start with "- ". */
  function StatsContext(log: TodayLog): string {
    "Today's logged stats:" + "\n"
    + " - Steps: " + ShowCount(log.steps) + "\n"
    + " - Water (oz): " + ShowCount(log.waterOz) + "\n"
    + "- Calories (optional): " + ShowCount(log.calories) + "\n"
    + "- Active minutes: " + ShowCount(log.activeMinutes) + "\n"
    + "- Workout: " + ShowText(log.workout) + "\n"
    + "- Notes: " + ShowText(log.notes) + "\n"
  }

  /** The stats block as a list of lines: a header, then one line per stat in
      the fixed order steps, water, calories, active minutes, workout, notes. */
  function StatsLines(log: TodayLog): (lines: seq<string>)
    ensures |lines| == 7
  {
    [ "Today's logged stats:",
      " - Steps: " + ShowCount(log.steps),
      " - Water (oz): " + ShowCount(log.waterOz),
      "- Calories (optional): " + ShowCount(log.calories),
      "- Active minutes: " + ShowCount(log.activeMinutes),
      "- Workout: " + ShowText(log.workout),
      "- Notes: " + ShowText(log.notes) ]
  }

  /** The content of the final user turn: the stats block, a blank line, then
      the check-in text after its label. */
  function CheckInContent(log: TodayLog, prompt: string): string {
    StatsContext(log) + "\n\nMy check-in: " + prompt
  }

  /** One step of regrouping a left-nested concatenation of lines. */
  lemma Regroup(p: string, tag: string, v: string, rest: string)
    ensures p + tag + v + "\n" + rest == p + (tag + v + "\n" + rest)
  {
  }

  /** The stats block is its seven lines, each ended by a newline. */
  lemma StatsContextIsLines(log: TodayLog)
    ensures StatsContext(log) == JoinLines(StatsLines(log))
  {
    var L := StatsLines(log);
    var c1, c2, c3, c4 := ShowCount(log.steps), ShowCount(log.waterOz), ShowCount(log.calories), ShowCount(log.activeMinutes);
    var t5, t6 := ShowText(log.workout), ShowText(log.notes);
    var j7 := JoinLines(L[7..]);
    var j6 := JoinLines(L[6..]);
    var j5 := JoinLines(L[5..]);
    var j4 := JoinLines(L[4..]);
    var j3 := JoinLines(L[3..]);
    var j2 := JoinLines(L[2..]);
    var j1 := JoinLines(L[1..]);
    assert j7 == "";
    assert j6 == "- Notes: " + t6 + "\n" + j7 by { assert L[6..][1..] == L[7..]; }
    assert j5 == "- Workout: " + t5 + "\n" + j6 by { assert L[5..][1..] == L[6..]; }
    assert j4 == "- Active minutes: " + c4 + "\n" + j5 by { assert L[4..][1..] == L[5..]; }
    assert j3 == "- Calories (optional): " + c3 + "\n" + j4 by { assert L[3..][1..] == L[4..]; }
    assert j2 == " - Water (oz): " + c2 + "\n" + j3 by { assert L[2..][1..] == L[3..]; }
    assert j1 == " - Steps: " + c1 + "\n" + j2 by { assert L[1..][1..] == L[2..]; }
    assert JoinLines(L) == "Today's logged stats:" + "\n" + j1;
    var p1 := "Today's logged stats:" + "\n";
    var p2 := p1 + " - Steps: " + c1 + "\n";
    var p3 := p2 + " - Water (oz): " + c2 + "\n";
    var p4 := p3 + "- Calories (optional): " + c3 + "\n";
    var p5 := p4 + "- Active minutes: " + c4 + "\n";
    var p6 := p5 + "- Workout: " + t5 + "\n";
    var p7 := p6 + "- Notes: " + t6 + "\n";
    assert StatsContext(log) == p7;
    assert p7 == p7 + j7;
    Regroup(p6, "- Notes: ", t6, j7);
    Regroup(p5, "- Workout: ", t5, j6);
    Regroup(p4, "- Active minutes: ", c4, j5);
    Regroup(p3, "- Calories (optional): ", c3, j4);
    Regroup(p2, " - Water (oz): ", c2, j3);
    Regroup(p1, " - Steps: ", c1, j2);
  }

  /** With single-line workout and notes texts, no stats line holds a newline. */
  lemma StatsLinesAreSingle(log: TodayLog)
    requires '\n' !in ShowText(log.workout) && '\n' !in ShowText(log.notes)
    ensures forall i :: 0 <= i < |StatsLines(log)| ==> '\n' !in StatsLines(log)[i]
  {
  }

  /** The final user text is the stats lines and two empty lines, each ended
      by a newline, followed by "My check-in: " and the check-in. */
  lemma CheckInContentJoined(log: TodayLog, prompt: string)
    ensures CheckInContent(log, prompt) == JoinLines(StatsLines(log) + ["", ""]) + ("My check-in: " + prompt)
  {
    assert "\n\nMy check-in: " == "\n\n" + "My check-in: ";
    var L := StatsLines(log);
    var S := StatsContext(log);
    StatsContextIsLines(log);
    assert JoinLines(["", ""]) == "\n\n" by {
      assert JoinLines([""]) == "\n";
    }
    JoinLinesAppend(L, ["", ""]);
    assert JoinLines(L + ["", ""]) == S + "\n\n";
    assert CheckInContent(log, prompt) == S + "\n\n" + "My check-in: " + prompt;
  }

  /** Whenever the workout and notes texts are single lines, the stats block
      reads as its seven lines, and the final user turn reads as those lines,
      two empty lines, and then the lines of "My check-in: " followed by the
      user's text. */
  lemma CheckInContentLines(log: TodayLog, prompt: string)
    requires '\n' !in ShowText(log.workout) && '\n' !in ShowText(log.notes)
    ensures SplitLines(StatsContext(log)) == StatsLines(log) + [""]
    ensures SplitLines(CheckInContent(log, prompt))
         == StatsLines(log) + ["", ""] + SplitLines("My check-in: " + prompt)
  {
    var L := StatsLines(log);
    StatsLinesAreSingle(log);
    StatsContextIsLines(log);
    SplitJoinLines(L, "");
    assert JoinLines(L) + "" == JoinLines(L);
    assert SplitLines("") == [""];
    var lines := L + ["", ""];
    CheckInContentJoined(log, prompt);
    assert forall i :: 0 <= i < |lines| ==> '\n' !in lines[i];
    SplitJoinLines(lines, "My check-in: " + prompt);
  }

  /** The example check-in: steps 5000, water 40, calories 0, active minutes
      20 and no workout or notes give these seven stats lines (with
      `CheckInContentLines`, the message then follows two empty lines). */
  lemma ExampleStatsLines(log: TodayLog)
    requires log == TodayLog(Some(5000), Some(40), Some(0), Some(20), None, None, None)
    ensures StatsLines(log)
         == [ "Today's logged stats:",
              " - Steps: 5000",
              " - Water (oz): 40",
              "- Calories (optional): 0",
              "- Active minutes: 20",
              "- Workout: None",
              "- Notes: None" ]
  {
    assert ShowNat(5000) == "5000" by {
      assert ShowNat(5) == "5";
      assert ShowNat(50) == ShowNat(5) + "0";
      assert ShowNat(500) == ShowNat(50) + "0";
      assert ShowNat(5000) == ShowNat(500) + "0";
    }
    assert ShowNat(40) == "40" by {
      assert ShowNat(4) == "4";
    }
    assert ShowNat(20) == "20" by {
      assert ShowNat(2) == "2";
    }
    assert ShowNat(0) == "0";
    var L := StatsLines(log);
    assert L[1] == " - Steps: 5000" by {
      assert ShowCount(log.steps) == "5000";
      assert " - Steps: " + "5000" == " - Steps: 5000";
    }
    assert L[2] == " - Water (oz): 40" by {
      assert ShowCount(log.waterOz) == "40";
      assert " - Water (oz): " + "40" == " - Water (oz): 40";
    }
    assert L[3] == "- Calories (optional): 0" by {
      assert ShowCount(log.calories) == "0";
      assert "- Calories (optional): " + "0" == "- Calories (optional): 0";
    }
    assert L[4] == "- Active minutes: 20" by {
      assert ShowCount(log.activeMinutes) == "20";
      assert "- Active minutes: " + "20" == "- Active minutes: 20";
    }
    assert L[5] == "- Workout: None" by {
      assert "- Workout: " + "None" == "- Workout: None";
    }
    assert L[6] == "- Notes: None" by {
      assert "- Notes: " + "None" == "- Notes: None";
    }
  }

  /** How many of the latest transcript turns are replayed: `messages[-6:]`. */
  const WindowSize: nat := 6

  /** The last `WindowSize` turns of the transcript, or all of them when there
      are fewer. */
  function Window(transcript: seq<Turn>): (w: seq<Turn>)
    ensures |w| == if |transcript| < WindowSize then |transcript| else WindowSize
    ensures w == transcript[|transcript| - |w|..]
  {
    transcript[if |transcript| > WindowSize then |transcript| - WindowSize else 0..]
  }

  /** The shape of every request: one system turn, the replayed window, and
      one final user turn. The middle is the unaltered latest part of the
      transcript, and when the transcript holds no system turn the first turn
      is the only system turn. */
  function Envelope(system: string, transcript: seq<Turn>, final: string): (p: seq<Turn>)
    ensures |p| == |Window(transcript)| + 2
    ensures 2 <= |p| <= WindowSize + 2
    ensures p[0] == Turn(System, system)
    ensures p[1..|p| - 1] == transcript[|transcript| - (|p| - 2)..]
    ensures p[|p| - 1] == Turn(User, final)
    ensures (forall k :: 0 <= k < |transcript| ==> transcript[k].role != System) ==>
      forall i :: 0 <= i < |p| ==> (p[i].role == System <==> i == 0)
  {
    var w := Window(transcript);
    var p := [Turn(System, system)] + w + [Turn(User, final)];
    assert p[1..|p| - 1] == w;
    assert (forall k :: 0 <= k < |transcript| ==> transcript[k].role != System) ==>
      forall i :: 0 < i < |p| - 1 ==> p[i].role != System
    by {
      if forall k :: 0 <= k < |transcript| ==> transcript[k].role != System {
        forall i | 0 < i < |p| - 1
          ensures p[i].role != System
        {
          assert p[i] == w[i - 1] == transcript[|transcript| - |w| + i - 1];
        }
      }
    }
    p
  }

  /** `messages_for_model`: the system message, the replayed window, and the
      final user turn holding the stats block and the check-in. Its parts can
      be read back: the first turn is the system message that names the
      selected style and the reflection flag, the middle is the unaltered
      latest part of the transcript (at most six turns), the last turn is a
      user turn whose text is the stats block followed by the check-in, and
      when the transcript holds no system turn the first turn is the only
      system turn. */
  function Payload(mode: string, reflection: bool, log: TodayLog, transcript: seq<Turn>, prompt: string)
    : (p: seq<Turn>)
    ensures 2 <= |p| <= WindowSize + 2
    ensures p[0].role == System
    ensures ParseSystemMessage(p[0].content) == Some((StyleOf(mode), reflection))
    ensures p[1..|p| - 1] == Window(transcript)
    ensures p[|p| - 1] == Turn(User, CheckInContent(log, prompt))
    ensures (forall k :: 0 <= k < |transcript| ==> transcript[k].role != System) ==>
      forall i :: 0 <= i < |p| ==> (p[i].role == System <==> i == 0)
  {
    var sys := SystemMessage(mode, reflection);
    var p := Envelope(sys, transcript, CheckInContent(log, prompt));
    assert p[0].content == sys;
    p
  }
}
