/**
  * The screen state and the view model that owns it. Shell actions (and the
  * older events) update the state through a reducer; the view model's own
  * operations submit the line, edit the field, toggle the theme, refresh the
  * suggestions and acknowledge the requests the screen has handled.
  * Intents, activity results and the deferred values that suspended actions
  * wait on are represented by opaque identifiers.
  */
module Session {
  import opened Text
  import opened Tokenizer
  import opened Registry
  import opened Dispatch
  import opened Sources
  import opened Suggest

  type IntentId = nat
  /** The deferred value a suspended action awaits. */
  type RequestId = nat

  datatype LogItem = LogItem(content: string, action: Option<ActionId>)

  datatype IntentForResult = IntentForResult(intent: IntentId, request: RequestId, triggered: bool)

  datatype PermissionsHandler = PermissionsHandler(permissions: seq<string>, request: RequestId, triggered: bool)

  datatype ShellMode = RegularMode | PromptMode(hint: string, request: RequestId)

  /** `ScreenState`; `logs` holds the newest entry first. */
  datatype ScreenState = ScreenState(
    isDark: bool,
    isIdle: bool,
    exit: bool,
    intentForResult: Option<IntentForResult>,
    permissions: Option<PermissionsHandler>,
    intent: Option<IntentId>,
    suggestions: SuggestionsResult,
    logs: seq<LogItem>,
    fieldText: string,
    mode: ShellMode)

  /** The defaults of `ScreenState()`. */
  function InitialState(): (s: ScreenState)
    ensures s.isIdle && !s.isDark && !s.exit && s.logs == [] && s.fieldText == [] && s.mode == RegularMode
    ensures s.intentForResult.None? && s.permissions.None? && s.intent.None? && s.suggestions == EMPTY
  {
    ScreenState(false, true, false, None, None, None, EMPTY, [], "", RegularMode)
  }

  // ---------------------------------------------------------------------
  // Actions and events
  // ---------------------------------------------------------------------

  /** The shell actions a command sends. */
  datatype Action =
    | Clear
    | Exit
    | StartIntentForResult(intent: IntentId, request: RequestId)
    | Message(content: string, action: Option<ActionId>)
    | RequestPermissions(permissions: seq<string>, request: RequestId)
    | StartIntent(intent: IntentId)
    | Prompt(hint: string, request: RequestId)

  /** The state part of `Action.execute`: each action sets one field. A
      message goes in front of the log. */
  function Execute(a: Action, s: ScreenState): (r: ScreenState)
    ensures a.Message? ==> |r.logs| == |s.logs| + 1 && r.logs[0] == LogItem(a.content, a.action) && r.logs[1..] == s.logs
    ensures a.Clear? ==> r.logs == []
  {
    match a
    case Clear => s.(logs := [])
    case Exit => s.(exit := true)
    case StartIntentForResult(intent, request) => s.(intentForResult := Some(IntentForResult(intent, request, false)))
    case Message(content, action) => s.(logs := [LogItem(content, action)] + s.logs)
    case RequestPermissions(perms, request) => s.(permissions := Some(PermissionsHandler(perms, request, false)))
    case StartIntent(intent) => s.(intent := Some(intent))
    case Prompt(hint, request) => s.(mode := PromptMode(hint, request))
  }

  /** The field of the state an action writes. */
  datatype Field = LogsField | ExitField | IntentForResultField | PermissionsField | IntentField | ModeField

  function Writes(a: Action): Field {
    match a
    case Clear => LogsField
    case Message(_, _) => LogsField
    case Exit => ExitField
    case StartIntentForResult(_, _) => IntentForResultField
    case RequestPermissions(_, _) => PermissionsField
    case StartIntent(_) => IntentField
    case Prompt(_, _) => ModeField
  }

  /** Each action sets its own field as `execute` does and leaves every
      other field as it was. */
  lemma ExecuteFrame(a: Action, s: ScreenState)
    ensures var r := Execute(a, s);
      && r.isDark == s.isDark && r.isIdle == s.isIdle && r.suggestions == s.suggestions && r.fieldText == s.fieldText
      && (Writes(a) != LogsField ==> r.logs == s.logs)
      && (Writes(a) != ExitField ==> r.exit == s.exit)
      && (Writes(a) != IntentForResultField ==> r.intentForResult == s.intentForResult)
      && (Writes(a) != PermissionsField ==> r.permissions == s.permissions)
      && (Writes(a) != IntentField ==> r.intent == s.intent)
      && (Writes(a) != ModeField ==> r.mode == s.mode)
    ensures a.Exit? ==> Execute(a, s).exit
    ensures a.StartIntent? ==> Execute(a, s).intent == Some(a.intent)
    ensures a.StartIntentForResult? ==> Execute(a, s).intentForResult == Some(IntentForResult(a.intent, a.request, false))
    ensures a.RequestPermissions? ==> Execute(a, s).permissions == Some(PermissionsHandler(a.permissions, a.request, false))
    ensures a.Prompt? ==> Execute(a, s).mode == PromptMode(a.hint, a.request)
  {
  }

  /** Actions that write different fields can be applied in either order. */
  lemma IndependentActionsCommute(a: Action, b: Action, s: ScreenState)
    requires Writes(a) != Writes(b)
    ensures Execute(a, Execute(b, s)) == Execute(b, Execute(a, s))
  {
  }

  /** After a clear, the log holds exactly the messages sent since, newest
      first. */
  lemma {:induction false} ClearThenMessages(s: ScreenState, contents: seq<string>)
    ensures ExecuteAll(MessagesOf(contents), Execute(Clear, s)).logs == Reversed(LogsOf(contents))
    decreases |contents|
  {
    if contents != [] {
      var init := contents[..|contents| - 1];
      ClearThenMessages(s, init);
      assert MessagesOf(contents)[..|contents| - 1] == MessagesOf(init);
      assert LogsOf(contents)[..|contents| - 1] == LogsOf(init);
    }
  }

  /** Applying the actions in order. */
  function ExecuteAll(actions: seq<Action>, s: ScreenState): ScreenState
    decreases |actions|
  {
    if actions == [] then s else Execute(actions[|actions| - 1], ExecuteAll(actions[..|actions| - 1], s))
  }

  function MessagesOf(contents: seq<string>): (r: seq<Action>)
    ensures |r| == |contents|
    ensures forall i :: 0 <= i < |r| ==> r[i] == Action.Message(contents[i], None)
  {
    seq(|contents|, i requires 0 <= i < |contents| => Action.Message(contents[i], None))
  }

  function LogsOf(contents: seq<string>): (r: seq<LogItem>)
    ensures |r| == |contents|
    ensures forall i :: 0 <= i < |r| ==> r[i] == LogItem(contents[i], None)
  {
    seq(|contents|, i requires 0 <= i < |contents| => LogItem(contents[i], None))
  }

  function Reversed<T>(s: seq<T>): (r: seq<T>)
    ensures |r| == |s|
    ensures forall i :: 0 <= i < |s| ==> r[i] == s[|s| - 1 - i]
  {
    if s == [] then [] else [s[|s| - 1]] + Reversed(s[..|s| - 1])
  }

  /** The older screen's events, reduced by the view model itself. */
  datatype Event = EventStartIntent(intent: IntentId) | EventClear | EventExit | EventMessage(content: string, action: Option<ActionId>)

  function Reduce(e: Event, s: ScreenState): ScreenState {
    match e
    case EventStartIntent(intent) => s.(intent := Some(intent))
    case EventClear => s.(logs := [])
    case EventExit => s.(exit := true)
    case EventMessage(content, action) => s.(logs := [LogItem(content, action)] + s.logs)
  }

  function AsAction(e: Event): Action {
    match e
    case EventStartIntent(intent) => StartIntent(intent)
    case EventClear => Clear
    case EventExit => Exit
    case EventMessage(content, action) => Action.Message(content, action)
  }

  /** The older reducer and the later actions agree on every event. */
  lemma EventsAgreeWithActions(e: Event, s: ScreenState)
    ensures Reduce(e, s) == Execute(AsAction(e), s)
  {
  }

  // ---------------------------------------------------------------------
  // Submitting a line
  // ---------------------------------------------------------------------

  /** What a submission leads to: nothing, the answer to a pending prompt,
      or the dispatcher's outcome for the line. */
  datatype Submission = Ignored | Answered(request: RequestId, answer: string) | Ran(outcome: Outcome)

  /** `submitLine` with its job run to the end: the field is cleared; a
      blank line does nothing else; a pending prompt gets the trimmed line;
      otherwise the line is echoed to the log and dispatched, and a message
      from the dispatcher is logged after the echo. */
  function Submitted(s: ScreenState, commands: CommandList): (ScreenState, Submission) {
    var content := Trim(s.fieldText);
    var cleared := s.(fieldText := "");
    if IsBlank(content) then (cleared, Ignored)
    else
      match cleared.mode
      case PromptMode(_, request) => (cleared.(mode := RegularMode), Answered(request, content))
      case RegularMode =>
        var outcome := Exec(Tokenize(content), commands);
        (RunLine(cleared, content, outcome), Ran(outcome))
  }

  /** The screen after running `content`: the line is echoed while the job
      is busy, the dispatcher's message (if any) follows, and the screen is
      idle again. */
  function RunLine(s: ScreenState, content: string, outcome: Outcome): (r: ScreenState)
    ensures r.logs == (if outcome.Message? then [LogItem(outcome.text, None)] else [])
                      + [LogItem(">> " + content, None)] + s.logs
    ensures r == s.(isIdle := true, logs := r.logs)
  {
    var echoed := Execute(Action.Message(">> " + content, None), s.(isIdle := false));
    var logged := if outcome.Message? then Execute(Action.Message(outcome.text, None), echoed) else echoed;
    var echo := [LogItem(">> " + content, None)];
    assert outcome.Message? ==> ([LogItem(outcome.text, None)] + (echo + s.logs) == [LogItem(outcome.text, None)] + echo + s.logs);
    logged.(isIdle := true)
  }

  /** The field is empty after every submission, and the screen is idle again
      once the job ends; a blank line changes nothing else. */
  lemma SubmitClearsField(s: ScreenState, commands: CommandList)
    requires s.isIdle
    ensures Submitted(s, commands).0.fieldText == [] && Submitted(s, commands).0.isIdle
    ensures IsBlank(s.fieldText) ==> Submitted(s, commands) == (s.(fieldText := ""), Ignored)
  {
    TrimBlank(s.fieldText);
  }

  /** A pending prompt receives the trimmed line and the shell goes back to
      regular mode without logging anything. */
  lemma SubmitAnswersPrompt(s: ScreenState, commands: CommandList)
    requires s.mode.PromptMode? && !IsBlank(s.fieldText)
    ensures Submitted(s, commands).1 == Answered(s.mode.request, Trim(s.fieldText))
    ensures Submitted(s, commands).0.mode == RegularMode && Submitted(s, commands).0.logs == s.logs
  {
    TrimBlank(s.fieldText);
  }

  /** In regular mode the log gains the echo of the trimmed line and then,
      in front of it, the dispatcher's message if there is one. */
  lemma SubmitRunsLine(s: ScreenState, commands: CommandList)
    requires s.mode == RegularMode && !IsBlank(s.fieldText)
    ensures var content := Trim(s.fieldText);
      var outcome := Exec(Tokenize(content), commands);
      && Submitted(s, commands).1 == Ran(outcome)
      && Submitted(s, commands).0.logs ==
           (if outcome.Message? then [LogItem(outcome.text, None)] else [])
           + [LogItem(">> " + content, None)] + s.logs
  {
    TrimBlank(s.fieldText);
  }

  // ---------------------------------------------------------------------
  // The view model
  // ---------------------------------------------------------------------

  /** `MainViewModel` / `ScreenViewModel`: the state flow and the root
      registry. */
  class ShellViewModel {
    var state: ScreenState
    const commands: CommandList

    constructor(commands: CommandList)
      ensures state == InitialState() && this.commands == commands
    {
      state := InitialState();
      this.commands := commands;
    }

    /** `submitLine`, running the launched job to its end. */
    method SubmitLine() returns (r: Submission)
      modifies this
      ensures (state, r) == Submitted(old(state), commands)
    {
      var content := Trim(state.fieldText);
      state := state.(fieldText := "");
      if IsBlank(content) {
        return Ignored;
      }
      match state.mode {
        case PromptMode(_, request) =>
          state := state.(mode := RegularMode);
          r := Answered(request, content);
        case RegularMode =>
          state := state.(isIdle := false);
          state := Execute(Action.Message(">> " + content, None), state);
          var arguments := ParseArguments(content);
          var outcome := Exec(arguments, commands);
          if outcome.Message? {
            state := Execute(Action.Message(outcome.text, None), state);
          }
          state := state.(isIdle := true);
          r := Ran(outcome);
      }
    }

    /** `changeFieldText`: newlines typed or pasted become spaces. */
    method ChangeFieldText(content: string)
      modifies this
      ensures state == old(state).(fieldText := ReplaceNewlines(content))
      ensures '\n' !in state.fieldText
    {
      ReplaceNewlinesClean(content);
      state := state.(fieldText := ReplaceNewlines(content));
    }

    /** `generateSuggestions`: none while a prompt is pending, otherwise the
      engine's result for the field text. */
    method GenerateSuggestions(g: Generator, host: Host)
      modifies this
      requires host.commands == commands
      ensures state == old(state).(suggestions :=
        if old(state).mode.PromptMode? then EMPTY
        else LoadSuggestions(g, host, Tokenize(old(state).fieldText), |old(state).fieldText|))
    {
      if state.mode.PromptMode? {
        state := state.(suggestions := EMPTY);
        return;
      }
      var arguments := ParseArguments(state.fieldText);
      var suggestions := LoadSuggestions(g, host, arguments, |state.fieldText|);
      state := state.(suggestions := suggestions);
    }

    /** `toggleTheme` of the older view models. */
    method ToggleTheme()
      modifies this
      ensures state == old(state).(isDark := !old(state).isDark)
    {
      state := state.(isDark := !state.isDark);
    }

    method FinishExiting()
      modifies this
      ensures state == old(state).(exit := false)
    {
      state := state.(exit := false);
    }

    /** Marks a pending activity request as launched; nothing happens when
      there is none. */
    method MarkIntentForResultTriggered()
      modifies this
      ensures old(state).intentForResult.None? ==> state == old(state)
      ensures old(state).intentForResult.Some? ==>
        state == old(state).(intentForResult := Some(old(state).intentForResult.value.(triggered := true)))
    {
      if state.intentForResult.Some? {
        var pending := state.intentForResult.value;
        state := state.(intentForResult := Some(pending.(triggered := true)));
      }
    }

    /** Marks a pending permission request as shown; nothing happens when
      there is none. */
    method MarkPermissionsTriggered()
      modifies this
      ensures old(state).permissions.None? ==> state == old(state)
      ensures old(state).permissions.Some? ==>
        state == old(state).(permissions := Some(old(state).permissions.value.(triggered := true)))
    {
      if state.permissions.Some? {
        var pending := state.permissions.value;
        state := state.(permissions := Some(pending.(triggered := true)));
      }
    }

    method FinishIntentForResult()
      modifies this
      ensures state == old(state).(intentForResult := None)
    {
      state := state.(intentForResult := None);
    }

    method FinishPermissions()
      modifies this
      ensures state == old(state).(permissions := None)
    {
      state := state.(permissions := None);
    }

    method FinishIntent()
      modifies this
      ensures state == old(state).(intent := None)
    {
      state := state.(intent := None);
    }

    /** A command's action reaching the screen. */
    method SendAction(a: Action)
      modifies this
      ensures state == Execute(a, old(state))
    {
      state := Execute(a, state);
    }
  }
}
