/** The page's session state, updated in place by its handlers
    (app.py:14-33, 42-47, 94-95, 104-167). Each method's new state is the
    matching transition of module `Handlers` applied to the old state; the
    properties of those transitions are proved there. */
module App {
  import opened Types
  import opened Prompt
  import opened Handlers

  class Session {
    var messages: seq<Turn>
    var todayLog: TodayLog
    var lastCheckin: Option<Day>
    var streak: nat
    var reflection: bool

    /** The session's fields as one value. */
    function Snapshot(): State
      reads this
    {
      State(messages, todayLog, lastCheckin, streak, reflection)
    }

    /** The transcript never holds a system turn. */
    ghost predicate Valid()
      reads this
    {
      Wf(Snapshot())
    }

    /** Session start: every key the page initialises when it is missing. */
    constructor ()
      ensures Valid()
      ensures Snapshot() == Initial
      ensures messages == [] && AllAbsent(todayLog) && lastCheckin == None && streak == 0 && !reflection
    {
      messages := [];
      todayLog := EmptyLog;
      lastCheckin := None;
      streak := 0;
      reflection := false;
    }

    /** The sidebar writes each widget's value into its log key. */
    method RecordStats(input: StatsInput)
      requires Valid()
      modifies this
      ensures Valid()
      ensures Snapshot() == Recorded(old(Snapshot()), input)
    {
      todayLog := todayLog.(steps := Some(input.steps));
      todayLog := todayLog.(waterOz := Some(input.waterOz));
      todayLog := todayLog.(calories := Some(input.calories));
      todayLog := todayLog.(activeMinutes := Some(input.activeMinutes));
      todayLog := todayLog.(workout := input.workout);
      todayLog := todayLog.(notes := input.notes);
    }

    /** An empty transcript is opened with the greeting. */
    method Greet()
      requires Valid()
      modifies this
      ensures Valid()
      ensures Snapshot() == Greeted(old(Snapshot()))
      ensures messages != []
    {
      if messages == [] {
        messages := messages + [Turn(Assistant, Greeting)];
      }
    }

    /** A submitted check-in: the user turn is appended, the request is built
        from the session with that turn, the reply (the service's answer,
        given here) is appended and the reflection flag is cleared. An empty
        submission does nothing and sends nothing. */
    method Submit(prompt: string, mode: string, reply: string) returns (request: Option<seq<Turn>>)
      requires Valid()
      modifies this
      ensures Valid()
      ensures request == RequestFor(old(Snapshot()), mode, prompt)
      ensures request.Some? ==> forall i :: 0 <= i < |request.value| ==> (request.value[i].role == System <==> i == 0)
      ensures Snapshot() == Submitted(old(Snapshot()), prompt, reply)
      ensures prompt != "" ==> messages == old(messages) + [Turn(User, prompt), Turn(Assistant, reply)] && !reflection
    {
      if prompt == "" {
        return None;
      }
      ghost var before := Snapshot();
      var sent := messages + [Turn(User, prompt)];
      var flag := reflection;
      // The state update is stated first; the request is built from `sent`
      // and the flag as they were before the reply, as the page does.
      messages := sent + [Turn(Assistant, reply)];
      reflection := false;
      assert messages == before.messages + [Turn(User, prompt), Turn(Assistant, reply)];
      assert Snapshot() == Submitted(before, prompt, reply);
      SubmittedKeepsWf(before, prompt, reply);
      RequestSystemOnlyFirst(before, mode, prompt);
      request := Some(Payload(mode, flag, todayLog, sent, prompt));
    }

    /** The Reflection button: on a non-empty transcript, turn the flag on and
        ask for a summary. */
    method Reflect() returns (fired: bool)
      requires Valid()
      modifies this
      ensures Valid()
      ensures fired == (old(messages) != [])
      ensures Snapshot() == Reflected(old(Snapshot()))
    {
      fired := messages != [];
      if fired {
        reflection := true;
        messages := messages + [Turn(User, ReflectionRequest)];
      }
    }

    /** The "Complete today" button, offered only when not yet checked in today. */
    method CompleteToday(today: Day) returns (done: bool)
      requires Valid()
      modifies this
      ensures Valid()
      ensures done == (old(lastCheckin) != Some(today))
      ensures lastCheckin == Some(today)
      ensures streak == if done then old(streak) + 1 else old(streak)
      ensures Snapshot() == Completed(old(Snapshot()), today)
    {
      done := lastCheckin != Some(today);
      if done {
        lastCheckin := Some(today);
        streak := streak + 1;
      }
    }

    /** The "New day / reset chat" button. */
    method Reset()
      requires Valid()
      modifies this
      ensures Valid()
      ensures messages == [] && AllAbsent(todayLog)
      ensures streak == old(streak) && lastCheckin == old(lastCheckin) && reflection == old(reflection)
      ensures Snapshot() == ResetState(old(Snapshot()))
    {
      messages := [];
      todayLog := EmptyLog;
    }

    /** One run of the page script, with the buttons reachable in every run:
        the sidebar, the greeting, the submit handler, then the clicked
        button's handler. Returns the request sent, if any. */
    method RunScript(today: Day, mode: string, input: StatsInput, prompt: string,
                     clicked: Option<Button>, reply: string) returns (request: Option<seq<Turn>>)
      requires Valid()
      modifies this
      ensures Valid()
      ensures request == RequestFor(Greeted(Recorded(old(Snapshot()), input)), mode, prompt)
      ensures Snapshot() == ScriptRun(old(Snapshot()), today, input, prompt, clicked, reply)
    {
      RecordStats(input);
      Greet();
      request := Submit(prompt, mode, reply);
      match clicked {
        case None =>
        case Some(ReflectionButton) =>
          var _ := Reflect();
        case Some(CompleteButton) =>
          var _ := CompleteToday(today);
        case Some(ResetButton) =>
          Reset();
      }
    }
  }
}
