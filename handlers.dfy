/** The session state machine as values: the session fields, the handlers that
    change them, and one run of the page script from top to bottom
    (app.py:14-33, 42-47, 94-95, 104-167). The `Session` class in module `App`
    performs these transitions in place. */
module Handlers {
  import opened Types
  import opened Prompt

  /** The assistant turn that opens an empty transcript (wording not modelled). */
  const Greeting: string := "[greeting]"

  /** The user turn the Reflection button appends. */
  const ReflectionRequest: string := "Please give me a reflection summary."

  /** The session fields the page keeps between runs. */
  datatype State = State(
    messages: seq<Turn>,
    todayLog: TodayLog,
    lastCheckin: Option<Day>,
    streak: nat,
    reflection: bool)

  /** The session as first created: empty transcript, all seven log keys
      absent, no check-in yet, streak 0, reflection off. */
  const Initial: State := State([], EmptyLog, None, 0, false)

  /** The transcript holds only user and assistant turns. */
  predicate Wf(s: State) {
    forall i :: 0 <= i < |s.messages| ==> s.messages[i].role != System
  }

  /** `checked_in_today`. The page computes it once, at the start of the run
      (app.py:36); here it is evaluated when the click is handled, which gives
      the same answer because the sidebar, the greeting and the submit handler
      never change the check-in date. */
  predicate CheckedInToday(s: State, today: Day) {
    s.lastCheckin == Some(today)
  }

  /** The sidebar writes its six widget values into the log; the unused diary
      key and every other session field keep their values. */
  function Recorded(s: State, input: StatsInput): (r: State)
    ensures r.(todayLog := s.todayLog) == s
    ensures r.todayLog.diary == s.todayLog.diary
    ensures r.todayLog.steps == Some(input.steps) && r.todayLog.waterOz == Some(input.waterOz)
    ensures r.todayLog.calories == Some(input.calories) && r.todayLog.activeMinutes == Some(input.activeMinutes)
    ensures r.todayLog.workout == input.workout && r.todayLog.notes == input.notes
  {
    s.(todayLog := s.todayLog.(
      steps := Some(input.steps),
      waterOz := Some(input.waterOz),
      calories := Some(input.calories),
      activeMinutes := Some(input.activeMinutes),
      workout := input.workout,
      notes := input.notes))
  }

  /** An empty transcript gets the greeting as its single turn; a non-empty
      one is left alone. */
  function Greeted(s: State): (r: State)
    ensures r.messages != []
    ensures s.messages != [] ==> r == s
    ensures s.messages == [] ==> r.messages == [Turn(Assistant, Greeting)] && r.(messages := []) == s
  {
    if s.messages == [] then s.(messages := [Turn(Assistant, Greeting)]) else s
  }

  /** The request a submitted check-in sends: built after the user turn is
      appended, so the window ends with that turn; `None` when nothing was
      submitted. It has at most the system turn, six replayed turns and the
      final user turn; its system message names the selected style and the
      current reflection flag; and the newest replayed turn is the check-in
      itself, which the final user turn repeats after the stats block. */
  function RequestFor(s: State, mode: string, prompt: string): (r: Option<seq<Turn>>)
    ensures r.Some? <==> prompt != ""
    ensures r.Some? ==>
      var p := r.value;
      && 3 <= |p| <= WindowSize + 2
      && p[0] == Turn(System, SystemMessage(mode, s.reflection))
      && ParseSystemMessage(p[0].content) == Some((StyleOf(mode), s.reflection))
      && p[1..|p| - 1] == Window(s.messages + [Turn(User, prompt)])
      && p[|p| - 2] == Turn(User, prompt)
      && p[|p| - 1] == Turn(User, CheckInContent(s.todayLog, prompt))
  {
    if prompt == "" then None
    else
      var t := s.messages + [Turn(User, prompt)];
      var sys, fin := SystemMessage(mode, s.reflection), CheckInContent(s.todayLog, prompt);
      var p := Payload(mode, s.reflection, s.todayLog, t, prompt);
      assert p[|p| - 2] == p[1..|p| - 1][|p| - 3] == t[|t| - 1];
      Some(p)
  }

  /** A submitted check-in appends exactly the user turn and then the reply,
      clears the reflection flag and changes nothing else; an empty submission
      changes nothing. */
  function Submitted(s: State, prompt: string, reply: string): (r: State)
    ensures prompt == "" ==> r == s
    ensures prompt != "" ==>
      && |r.messages| == |s.messages| + 2
      && r.messages[..|s.messages|] == s.messages
      && r.messages[|s.messages|] == Turn(User, prompt)
      && r.messages[|s.messages| + 1] == Turn(Assistant, reply)
      && !r.reflection
      && r.(messages := s.messages, reflection := s.reflection) == s
  {
    if prompt == "" then s
    else s.(messages := s.messages + [Turn(User, prompt)] + [Turn(Assistant, reply)], reflection := false)
  }

  /** The Reflection handler fires only on a non-empty transcript; it then sets
      the flag and appends exactly the reflection request, nothing else. */
  function Reflected(s: State): (r: State)
    ensures s.messages == [] ==> r == s
    ensures s.messages != [] ==>
      && r.reflection
      && r.messages == s.messages + [Turn(User, ReflectionRequest)]
      && r.(messages := s.messages, reflection := s.reflection) == s
  {
    if s.messages == [] then s
    else s.(reflection := true, messages := s.messages + [Turn(User, ReflectionRequest)])
  }

  /** "Complete today": offered only when not yet checked in today; it records
      today and adds one to the streak. Afterwards the session is checked in
      today, and only the check-in date and the streak can have changed. */
  function Completed(s: State, today: Day): (r: State)
    ensures CheckedInToday(r, today)
    ensures r.streak == if CheckedInToday(s, today) then s.streak else s.streak + 1
    ensures r.(lastCheckin := s.lastCheckin, streak := s.streak) == s
  {
    if CheckedInToday(s, today) then s
    else s.(lastCheckin := Some(today), streak := s.streak + 1)
  }

  /** "New day / reset chat": the transcript is emptied and all seven log keys
      become absent; streak, check-in date and reflection flag are kept. */
  function ResetState(s: State): (r: State)
    ensures r.messages == [] && AllAbsent(r.todayLog)
    ensures r.streak == s.streak && r.lastCheckin == s.lastCheckin && r.reflection == s.reflection
  {
    s.(messages := [], todayLog := EmptyLog)
  }

  /** Submitting keeps the transcript free of system turns. */
  lemma SubmittedKeepsWf(s: State, prompt: string, reply: string)
    requires Wf(s)
    ensures Wf(Submitted(s, prompt, reply))
  {
    if prompt != "" {
      var r := Submitted(s, prompt, reply);
      forall i | 0 <= i < |r.messages|
        ensures r.messages[i].role != System
      {
        if i < |s.messages| {
          assert r.messages[i] == r.messages[..|s.messages|][i] == s.messages[i];
        }
      }
    }
  }

  /** On a session whose transcript holds no system turn, the request's only
      system turn is its first. */
  lemma RequestSystemOnlyFirst(s: State, mode: string, prompt: string)
    requires Wf(s) && prompt != ""
    ensures RequestFor(s, mode, prompt).Some?
    ensures var p := RequestFor(s, mode, prompt).value;
      forall i :: 0 <= i < |p| ==> (p[i].role == System <==> i == 0)
  {
    var t := s.messages + [Turn(User, prompt)];
    assert forall k :: 0 <= k < |t| ==> t[k].role != System by {
      forall k | 0 <= k < |t|
        ensures t[k].role != System
      {
        if k < |s.messages| {
          assert t[k] == s.messages[k];
        }
      }
    }
  }

  /** The reflection flag is one-shot: after a Reflection click, the next
      request carries the addendum and replays the reflection request; the
      reply clears the flag, so the request after that carries no addendum. */
  lemma ReflectionOneShot(s: State, mode: string, prompt: string, reply: string, next: string)
    requires s.messages != [] && prompt != "" && next != ""
    ensures var s1 := Reflected(s);
      var s2 := Submitted(s1, prompt, reply);
      && RequestFor(s1, mode, prompt).Some? && RequestFor(s2, mode, next).Some?
      && RequestFor(s1, mode, prompt).value[0] == Turn(System, SystemMessage(mode, true))
      && Turn(User, ReflectionRequest) in RequestFor(s1, mode, prompt).value
      && !s2.reflection
      && RequestFor(s2, mode, next).value[0] == Turn(System, SystemMessage(mode, false))
  {
    var s1 := Reflected(s);
    var t := s1.messages + [Turn(User, prompt)];
    var p := RequestFor(s1, mode, prompt).value;
    var w := Window(t);
    assert |w| >= 2;
    assert w[|w| - 2] == t[|t| - 2] == Turn(User, ReflectionRequest);
    assert p[|p| - 3] == w[|w| - 2];
  }

  /** Completing the same day twice is the same as completing it once. */
  lemma CompleteSameDayIsNoOp(s: State, today: Day)
    ensures Completed(Completed(s, today), today) == Completed(s, today)
  {
  }

  /** With the buttons reachable (`ScriptRun`), a reset click and the rerun
      it causes: the rerun writes the sidebar's values into the emptied log
      before it greets, so the session is left
      with exactly the greeting as its transcript, a log holding the widget
      values (the diary key cleared by the reset), and the old streak and
      check-in date. */
  lemma ResetThenGreet(s: State, today: Day, input: StatsInput, next: StatsInput, reply: string)
    ensures var r := ScriptRun(ScriptRun(s, today, input, "", Some(ResetButton), reply), today, next, "", None, reply);
      && r.messages == [Turn(Assistant, Greeting)]
      && r.todayLog == TodayLog(Some(next.steps), Some(next.waterOz), Some(next.calories),
                                Some(next.activeMinutes), next.workout, next.notes, None)
      && r.streak == s.streak && r.lastCheckin == s.lastCheckin
  {
  }

  /** "Complete today" attempted on each day of `days` in turn. */
  function CompleteEach(s: State, days: seq<Day>): State
    decreases |days|
  {
    if days == [] then s else CompleteEach(Completed(s, days[0]), days[1..])
  }

  function DaysOf(days: seq<Day>): set<Day> {
    set d | d in days
  }

  function PriorDay(s: State): set<Day> {
    match s.lastCheckin
    case None => {}
    case Some(d) => {d}
  }

  lemma DaysOfCons(days: seq<Day>)
    requires days != []
    ensures DaysOf(days) == {days[0]} + DaysOf(days[1..])
  {
    assert days == [days[0]] + days[1..];
  }

  /** The streak grows at most once per calendar day: over attempts on days
      that never go back in time, starting no earlier than the last check-in,
      it grows by exactly the number of distinct days other than that last
      check-in day, however often each day is attempted. Every other handler
      keeps the streak and the check-in date, so this carries over to whole
      sessions (`StreakOncePerDay`). */
  lemma {:induction false} StreakCountsDistinctDays(s: State, days: seq<Day>)
    requires forall i, j :: 0 <= i < j < |days| ==> days[i] <= days[j]
    requires s.lastCheckin.Some? ==> forall i :: 0 <= i < |days| ==> s.lastCheckin.value <= days[i]
    ensures CompleteEach(s, days).streak == s.streak + |DaysOf(days) - PriorDay(s)|
    decreases |days|
  {
    if days == [] {
      assert DaysOf(days) == {};
    } else {
      var d, rest := days[0], days[1..];
      var s1 := Completed(s, d);
      assert s1.lastCheckin == Some(d);
      assert forall i :: 0 <= i < |rest| ==> d <= rest[i] by {
        forall i | 0 <= i < |rest| ensures d <= rest[i] {
          assert rest[i] == days[i + 1];
        }
      }
      assert forall i, j :: 0 <= i < j < |rest| ==> rest[i] <= rest[j] by {
        forall i, j | 0 <= i < j < |rest| ensures rest[i] <= rest[j] {
          assert rest[i] == days[i + 1] && rest[j] == days[j + 1];
        }
      }
      StreakCountsDistinctDays(s1, rest);
      assert CompleteEach(s, days) == CompleteEach(s1, rest);
      DaysOfCons(days);
      if s.lastCheckin == Some(d) {
        assert s1 == s;
        assert DaysOf(days) - PriorDay(s) == DaysOf(rest) - {d};
      } else {
        assert s1.streak == s.streak + 1;
        NewDayCounted(s, d, rest);
      }
    }
  }

  /** The counting step for a day later than the last check-in. */
  lemma NewDayCounted(s: State, d: Day, rest: seq<Day>)
    requires s.lastCheckin != Some(d)
    requires s.lastCheckin.Some? ==> s.lastCheckin.value <= d
    requires forall i :: 0 <= i < |rest| ==> d <= rest[i]
    ensures |({d} + DaysOf(rest)) - PriorDay(s)| == 1 + |DaysOf(rest) - {d}|
  {
    var all := {d} + DaysOf(rest);
    assert all - PriorDay(s) == all by {
      if s.lastCheckin.Some? {
        var last := s.lastCheckin.value;
        assert last < d;
        assert last !in DaysOf(rest);
      }
    }
    assert all == {d} + (DaysOf(rest) - {d});
    assert d !in DaysOf(rest) - {d};
  }

  /** The handler a button click runs. Only "Complete today" touches the
      streak and the check-in date, only the reset shortens the transcript,
      and no click leaves everything as it was. */
  function Pressed(s: State, today: Day, clicked: Option<Button>): (r: State)
    ensures clicked == None ==> r == s
    ensures clicked != Some(CompleteButton) ==> r.streak == s.streak && r.lastCheckin == s.lastCheckin
    ensures clicked == Some(CompleteButton) ==> r == Completed(s, today)
    ensures clicked != Some(ResetButton) ==> s.messages <= r.messages
  {
    match clicked
    case None => s
    case Some(ReflectionButton) => Reflected(s)
    case Some(CompleteButton) => Completed(s, today)
    case Some(ResetButton) => ResetState(s)
  }

  /** One run of the page script as written: sidebar values are recorded, an
      empty transcript is greeted, and only when a check-in was submitted does
      the script go on to the submit handler and then to the three buttons,
      which sit inside the same `if prompt:` block. */
  function ScriptRunAsWritten(s: State, today: Day, input: StatsInput, prompt: string,
                              clicked: Option<Button>, reply: string): (r: State)
    ensures prompt == "" ==>
      r.streak == s.streak && r.lastCheckin == s.lastCheckin && r.reflection == s.reflection
  {
    var s1 := Greeted(Recorded(s, input));
    if prompt == "" then s1 else Pressed(Submitted(s1, prompt, reply), today, clicked)
  }

  /** One run of the page script with the buttons outside the `if prompt:`
      block, reachable in every run. */
  function ScriptRun(s: State, today: Day, input: StatsInput, prompt: string,
                     clicked: Option<Button>, reply: string): (r: State)
    ensures clicked != Some(CompleteButton) ==> r.streak == s.streak && r.lastCheckin == s.lastCheckin
    ensures clicked == Some(CompleteButton) ==>
      r.lastCheckin == Some(today) && r.streak == Completed(s, today).streak
  {
    Pressed(Submitted(Greeted(Recorded(s, input)), prompt, reply), today, clicked)
  }

  /** The page framework reruns the script once per interaction: the run a
      button click causes carries no chat input. */
  predicate OneEventPerRun(prompt: string, clicked: Option<Button>) {
    clicked.Some? ==> prompt == ""
  }

  /** As written, no button ever takes effect: every possible run is just the
      sidebar, the greeting and the submit handler, so the streak, the check-in
      date and (without a submission) the reflection flag never change. */
  lemma ButtonsIgnoredAsWritten(s: State, today: Day, input: StatsInput, prompt: string,
                                clicked: Option<Button>, reply: string)
    requires OneEventPerRun(prompt, clicked)
    ensures ScriptRunAsWritten(s, today, input, prompt, clicked, reply)
         == Submitted(Greeted(Recorded(s, input)), prompt, reply)
    ensures ScriptRunAsWritten(s, today, input, prompt, clicked, reply).streak == s.streak
    ensures ScriptRunAsWritten(s, today, input, prompt, clicked, reply).lastCheckin == s.lastCheckin
  {
  }

  /** The concrete case: on a fresh session, clicking "Complete today" leaves
      the streak at 0 as written, while the run with reachable buttons makes it 1. */
  lemma CompleteTodayLostAsWritten(today: Day, input: StatsInput, reply: string)
    ensures ScriptRunAsWritten(Initial, today, input, "", Some(CompleteButton), reply).streak == 0
    ensures ScriptRun(Initial, today, input, "", Some(CompleteButton), reply).streak == 1
  {
  }

  /** With the buttons reachable, each click takes effect in its own run:
      "Complete today" checks the session in and adds one to the streak unless
      already checked in today, "New day / reset chat" empties the transcript
      and the log and keeps the streak, and Reflection sets the flag and
      appends the reflection request. */
  lemma ButtonsTakeEffect(s: State, today: Day, input: StatsInput, prompt: string,
                          clicked: Option<Button>, reply: string)
    requires OneEventPerRun(prompt, clicked)
    ensures var r := ScriptRun(s, today, input, prompt, clicked, reply);
      && (clicked == Some(CompleteButton) ==>
            CheckedInToday(r, today) &&
            r.streak == if CheckedInToday(s, today) then s.streak else s.streak + 1)
      && (clicked == Some(ResetButton) ==>
            r.messages == [] && AllAbsent(r.todayLog) &&
            r.streak == s.streak && r.lastCheckin == s.lastCheckin)
      && (clicked == Some(ReflectionButton) ==>
            r.reflection && r.messages[|r.messages| - 1] == Turn(User, ReflectionRequest))
      && (clicked == None ==> r == Submitted(Greeted(Recorded(s, input)), prompt, reply))
  {
  }

  /** A later run's sidebar values replace the earlier ones: the log holds
      only the latest widget values. */
  lemma RecordedLastWins(s: State, a: StatsInput, b: StatsInput)
    ensures Recorded(Recorded(s, a), b) == Recorded(s, b)
  {
  }

  /** One interaction: the inputs of one run of the page script. */
  datatype Run = Run(today: Day, input: StatsInput, prompt: string, clicked: Option<Button>, reply: string)

  /** The runs of a session in order, each with the buttons reachable. */
  function RunAll(s: State, runs: seq<Run>): State
    decreases |runs|
  {
    if runs == [] then s
    else
      var e := runs[0];
      RunAll(ScriptRun(s, e.today, e.input, e.prompt, e.clicked, e.reply), runs[1..])
  }

  /** The days on which "Complete today" was clicked, in order. */
  function CompletionDays(runs: seq<Run>): seq<Day>
    decreases |runs|
  {
    if runs == [] then []
    else if runs[0].clicked == Some(CompleteButton) then [runs[0].today] + CompletionDays(runs[1..])
    else CompletionDays(runs[1..])
  }

  /** Repeated completions depend only on the check-in date and the streak. */
  lemma {:induction false} CompleteEachOnlyDateAndStreak(s: State, t: State, days: seq<Day>)
    requires s.lastCheckin == t.lastCheckin && s.streak == t.streak
    ensures CompleteEach(s, days).lastCheckin == CompleteEach(t, days).lastCheckin
    ensures CompleteEach(s, days).streak == CompleteEach(t, days).streak
    decreases |days|
  {
    if days != [] {
      CompleteEachOnlyDateAndStreak(Completed(s, days[0]), Completed(t, days[0]), days[1..]);
    }
  }

  /** Over a whole session with the buttons reachable (`RunAll`), the
      check-in date and the streak move only by the "Complete today" clicks:
      every other run keeps both. */
  lemma {:induction false} RunsAreCompletions(s: State, runs: seq<Run>)
    ensures RunAll(s, runs).lastCheckin == CompleteEach(s, CompletionDays(runs)).lastCheckin
    ensures RunAll(s, runs).streak == CompleteEach(s, CompletionDays(runs)).streak
    decreases |runs|
  {
    if runs != [] {
      var e, rest := runs[0], runs[1..];
      var s1 := ScriptRun(s, e.today, e.input, e.prompt, e.clicked, e.reply);
      RunsAreCompletions(s1, rest);
      if e.clicked == Some(CompleteButton) {
        CompleteEachOnlyDateAndStreak(s1, Completed(s, e.today), CompletionDays(rest));
      } else {
        CompleteEachOnlyDateAndStreak(s1, s, CompletionDays(rest));
      }
    }
  }

  /** The session-wide streak rule, with the buttons reachable (`RunAll`):
      over any sequence of runs whose "Complete today" clicks fall on days that never go back in time (and not
      before the last check-in), the streak grows by exactly the number of
      distinct click days other than the last check-in day, so at most once
      per calendar day, whatever else the runs do. */
  lemma StreakOncePerDay(s: State, runs: seq<Run>)
    requires var days := CompletionDays(runs);
      forall i, j :: 0 <= i < j < |days| ==> days[i] <= days[j]
    requires var days := CompletionDays(runs);
      s.lastCheckin.Some? ==> forall i :: 0 <= i < |days| ==> s.lastCheckin.value <= days[i]
    ensures RunAll(s, runs).streak == s.streak + |DaysOf(CompletionDays(runs)) - PriorDay(s)|
  {
    RunsAreCompletions(s, runs);
    StreakCountsDistinctDays(s, CompletionDays(runs));
  }
}
