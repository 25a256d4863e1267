# Daily Health Tracker: prompt assembly and session state machine

A Dafny model of the logic under the single-page "Daily Health Tracker" app
(`app.py`). The user logs today's stats in a sidebar and types a check-in; the
page builds one request for a hosted chat-completion service and appends the
reply to the transcript. Under the UI there are two pieces of logic, and this
project models both:

- **Prompt assembly** (module `Prompt`, file `prompt.dfy`). `system_prompt(mode)`
  chooses one of three style fragments. The reflection addendum is appended when
  the reflection flag is set. The stats block prints the six logged values, one
  line each. The request is the system message, the last six transcript turns
  and a final user turn that holds the stats block and the check-in text. All of
  it is pure functions, with lemmas that read each part back: a parser for the
  system message, a line splitter for the stats block, and the decimal value of
  each printed number.
- **Session state machine** (modules `Handlers` and `App`, files `handlers.dfy` and
  `session.dfy`). The session holds the transcript, `today_log`,
  `last_checkin_date`, `streak` and the `reflection` flag. It is changed by the
  sidebar, the greeting, the submit handler and three buttons: Reflection,
  Complete today, and New day / reset chat. `App.Session` is a class whose methods
  update these fields in place. Each method's `ensures` ties the new state to a
  transition function of `Handlers` applied to the old state. The properties of
  the transitions are proved as lemmas in `Handlers`.

`types.dfy` holds the shared values: turns, the seven-key log and the widget
inputs. `text.dfy` holds Python's `str` of a non-negative integer and a
line splitter.

Modelling choices:
- The service's reply is a parameter, and so are today's date and the selected
  mode.
- A chat input with nothing submitted is the empty string. Python treats `None`
  and `""` alike in `if prompt:`.
- The persona, the style fragments, the reflection addendum and the greeting are
  short stand-in texts. The three style fragments keep their leading labels
  ("Beginner:", "Intermediate:", "Advanced:"); the persona, the addendum and
  the greeting keep only their line breaks. The three fragments
  have different lengths so that they stay distinct. The stats labels,
  `"\n\nMy check-in: "` and `"Please give me a reflection summary."` are exact.
- The stats block keeps the source's inconsistent line prefixes: `" - "` for
  steps and water, `"- "` for the other four. An absent value prints as `None`,
  as a Python f-string prints it.
- The request is built after the user turn is appended (app.py:105, 128).
  So the last replayed turn is the check-in itself, and the final user turn
  repeats it after the stats block. The new turn is one of the six replayed
  turns, not a seventh.
- Reset does not clear the reflection flag, and the streak never resets on a
  missed day. Both are kept as written.

## Model

| member | source | states |
|---|---|---|
| `Prompt.StyleOf` | app.py:71-84 | The mode selects the Beginner style exactly when it is "Beginner", Intermediate exactly when it is "Intermediate", and Advanced for every other string |
| `Prompt.ReflectionContext` | app.py:120-124 | The reflection addendum is non-empty exactly when the reflection flag is set |
| `Prompt.SystemPrompt` | app.py:53-85 | `system_prompt(mode)` reads back as the style the mode selects, with no reflection addendum |
| `Prompt.SystemMessage` | app.py:120-127 | The system turn's text is `system_prompt(mode)` followed by the addendum when the flag is set; reading it back gives the style the mode selects and the flag |
| `Prompt.SystemMessageInjective` | app.py:71-85 | Two system messages are equal exactly when the modes select the same style and the flags agree, so the three modes give three different instructions |
| `Text.DecimalValueOfShowNat` | app.py:112-115 | A logged number prints as decimal digits that read back as that number |
| `Prompt.ShowCount` | app.py:112-115 | A logged number prints as decimal digits with no newline, and an absent one prints as `None` |
| `Prompt.ShowCountInjective` | app.py:112-115 | The number printing loses nothing: a logged number reads back as itself, two numbers print alike exactly when they are equal, and an absent number never prints like a logged one |
| `Prompt.ShowText` | app.py:116-117 | The text printing is lossy: the output is `None` exactly when the text is absent or is the word "None" itself, so those two cases cannot be told apart; any other text prints as itself |
| `Prompt.StatsContext` | app.py:110-118 | The stats block, character for character; what it reads back as is stated by `Prompt.StatsContextIsLines` and `Prompt.CheckInContentLines` |
| `Prompt.StatsContextIsLines` | app.py:110-118 | The stats block is exactly its seven lines (header, steps, water, calories, active minutes, workout, notes), each followed by a newline |
| `Prompt.CheckInContent` | app.py:129 | The final user turn's text; what it reads back as is stated by `Prompt.CheckInContentJoined` and `Prompt.CheckInContentLines` |
| `Prompt.CheckInContentJoined` | app.py:129 | The final user text is the seven stats lines and two empty lines, each followed by a newline, and then "My check-in: " and the check-in |
| `Prompt.CheckInContentLines` | app.py:110-129 | With single-line workout and notes texts, the stats block is the header plus steps, water, calories, active minutes, workout and notes, one line each in that order and with their exact prefixes. The final user text is those lines, two empty lines, then "My check-in: " and the check-in |
| `Prompt.ExampleStatsLines` | app.py:110-118 | Steps 5000, water 40, calories 0, active minutes 20 and no workout or notes give exactly these seven stats lines, with `None` for the absent texts |
| `Prompt.Window` | app.py:128 | The replayed window has min(6, n) turns and is the unaltered suffix of the transcript |
| `Prompt.Envelope` | app.py:126-131 | A request is one system turn, then the window (the unaltered latest min(6, n) turns), then one user turn; without system turns in the transcript, the first turn is the only system turn |
| `Prompt.Payload` | app.py:126-131 | `messages_for_model` has 2 to 8 turns; its first turn's text parses to the selected style and the flag; its middle is the replayed window; its last turn is the user turn holding the stats block and the check-in; without system turns in the transcript, its first turn is its only system turn |
| `Handlers.Recorded` | app.py:42-47 | The sidebar writes the six widget values into their log keys; the diary key and every other session field keep their values |
| `Handlers.RecordedLastWins` | app.py:42-47 | A later run's sidebar values replace the earlier ones: the log holds only the latest widget values |
| `Handlers.Greeted` | app.py:94-95 | An empty transcript becomes the single assistant greeting; a non-empty one and everything else are unchanged |
| `Handlers.Submitted` | app.py:104-146 | A non-empty check-in appends exactly the user turn and then the reply, keeps every earlier turn, clears the reflection flag and changes nothing else; an empty one changes nothing |
| `Handlers.SubmittedKeepsWf` | app.py:105-145 | Submitting adds only user and assistant turns, so the transcript never holds a system turn |
| `Handlers.RequestFor` | app.py:104-131 | A request is sent exactly when a check-in was submitted; it has 3 to 8 turns and carries the selected style and the current flag; its middle is the window of the transcript with the check-in appended; its second-to-last turn is the check-in itself and its last is the stats block followed by the check-in |
| `Handlers.RequestSystemOnlyFirst` | app.py:126-131 | On a session whose transcript has no system turn, the request's only system turn is its first |
| `Handlers.Reflected` | app.py:148-150 | Reflection fires only on a non-empty transcript; it then sets the flag, appends exactly "Please give me a reflection summary." as a user turn, and changes nothing else |
| `Handlers.ReflectionOneShot` | app.py:120-150 | After a Reflection click, the next request carries the addendum and replays the reflection request; its reply clears the flag, so the request after that has no addendum |
| `Handlers.Completed` | app.py:156-161 | Complete today (offered only when not checked in today, which app.py:36 computes at the start of the run) leaves the session checked in today; it adds one to the streak exactly when the session was not already checked in today; only the check-in date and the streak can change |
| `Handlers.CompleteSameDayIsNoOp` | app.py:156-161 | A second Complete today on the same day changes nothing |
| `Handlers.StreakCountsDistinctDays` | app.py:156-161 | Over attempts on days that never go back in time, the streak grows by exactly the number of distinct days other than the last check-in day, so at most once per calendar day |
| `Handlers.RunsAreCompletions` | app.py:37-167 | With the buttons reachable (the corrected run, see "## Findings"): over any sequence of runs of the script, the check-in date and the streak end up exactly as if only the "Complete today" clicks had happened, in order |
| `Handlers.StreakOncePerDay` | app.py:37-167 | With the buttons reachable (the corrected run, see "## Findings"): over any sequence of runs whose "Complete today" clicks fall on days that never go back in time, the streak grows by exactly the number of distinct click days other than the last check-in day, so at most once per calendar day |
| `Handlers.ResetState` | app.py:164-166 | Reset empties the transcript and makes all seven log keys absent; it keeps the streak, the check-in date and the reflection flag |
| `Handlers.ResetThenGreet` | app.py:42-167 | With the buttons reachable (the corrected run, see "## Findings"): a reset click and the rerun it causes: the rerun records the sidebar values before greeting, so the transcript is exactly the greeting, the log holds the widget values with the diary key cleared, and the streak and check-in date are the old ones |
| `Handlers.Pressed` | app.py:148-167 | Without a click nothing changes; only "Complete today" can change the streak and the check-in date, and then exactly as `Handlers.Completed` states; only the reset can shorten the transcript |
| `Handlers.ScriptRunAsWritten` | app.py:42-167 | One run as written; a run without a chat input never changes the streak, the check-in date or the reflection flag |
| `Handlers.ScriptRun` | app.py:42-167 | One run with the buttons reachable; only a "Complete today" click changes the streak and the check-in date, leaving the session checked in today with the streak `Completed` gives |
| `Handlers.ButtonsIgnoredAsWritten` | app.py:104-167 | As written, when a click's run has no chat input, every run is only the sidebar, the greeting and the submit handler: the streak and check-in date never change |
| `Handlers.CompleteTodayLostAsWritten` | app.py:156-162 | On a fresh session, a Complete today click leaves the streak at 0 as written and makes it 1 when the buttons are reachable |
| `Handlers.ButtonsTakeEffect` | app.py:148-167 | With the buttons reachable, each click takes effect in its own run: Complete today, reset and Reflection each do what their handler states |
| `App.Session.constructor` | app.py:14-33 | A new session has an empty transcript, all log keys absent, no check-in, streak 0 and reflection off |
| `App.Session.RecordStats` | app.py:42-47 | The sidebar's six widget values overwrite their log keys; nothing else changes |
| `App.Session.Greet` | app.py:94-95 | The in-place greeting matches `Handlers.Greeted`, and the transcript is non-empty afterwards |
| `App.Session.Submit` | app.py:104-146 | The returned request is the one built from the old session with the user turn appended, and its only system turn is the first. The transcript grows by exactly the user turn and the reply, and the flag is cleared |
| `App.Session.Reflect` | app.py:148-151 | Reports whether the handler fired (transcript non-empty); the new state matches `Handlers.Reflected` |
| `App.Session.CompleteToday` | app.py:156-162 | Fires exactly when the session was not checked in today; afterwards the session is checked in today and the streak has grown by one exactly when it fired |
| `App.Session.Reset` | app.py:164-167 | Empties the transcript and the log in place, keeping the streak, check-in date and reflection flag |
| `App.Session.RunScript` | app.py:42-167 | One run: sidebar, greeting, submit, then the clicked button's handler. It returns the request sent; the new state is `Handlers.ScriptRun` of the old |

## Left out

- Rendering is not modelled: title, captions, sidebar layout, metrics, `chat_message`, the spinner and `st.rerun`. These are UI framework calls.
- The chat-completion client, its model name and its `temperature = 0.5` are left out; the reply is a parameter. A failed call is not modelled either. The source does not handle one, so a failure would stop the run after the user turn was appended and before the flag was cleared.
- Reading the API key from the environment and `date.today()` are left out: they are environment and clock access. `today` is a parameter.
- The widget coercion `int(x or 0)` with `min_value = 0` is left out. The number widgets are modelled as returning naturals.
- The `diary` session list is left out, because nothing reads it. The `diary` log key is kept only so that reset clears all seven keys.
- The `openai_model` session key is left out, because only the chat-completion call reads it, and that call is left out.
- The wording of the persona, the style fragments, the reflection addendum and the greeting is not modelled. Stand-in texts are used.
- Prompt.SystemMessage: it shows that the style slot holds exactly the selected fragment. It does not show that no other fragment occurs as a substring anywhere in the message, because that depends on the real wording, which is not modelled.
- Prompt.CheckInContentLines: it reads the block as lines only when the workout and notes texts are single lines. Notes come from a text area and may span several lines; the block's characters are still exact (`Prompt.StatsContext`).
- Handlers.StreakCountsDistinctDays: it assumes days never go back in time, which is what the clock gives. If the date went backwards, a day could be completed twice.
- Handlers.StreakOncePerDay: it makes the same assumption about the days of the "Complete today" clicks.

## Findings

| source | as written | input that shows it | evidently intended | confidence | as-written member | corrected member |
|---|---|---|---|---|---|---|
| app.py:104-167 | The Reflection, Complete today and New day / reset chat buttons are indented inside `if prompt:`. The framework reruns the script once per interaction, and the run caused by a button click has no chat input, so the button code is never reached | A fresh session and a click on Complete today, which reruns the script with no chat input: the streak stays 0 | Each button takes effect in the run its click causes | medium: depends on the framework's one-interaction-per-rerun behaviour; not executed | `Handlers.ScriptRunAsWritten`, `Handlers.ButtonsIgnoredAsWritten`, `Handlers.CompleteTodayLostAsWritten` | `Handlers.ScriptRun`, `Handlers.ButtonsTakeEffect`, `Handlers.RunsAreCompletions`, `Handlers.StreakOncePerDay`, `Handlers.ResetThenGreet`, `App.Session.RunScript` |
