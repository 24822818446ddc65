/** The wizard's state machine: the Elm-style model, the messages it reacts to,
    the commands it asks the runtime to run, and its transition function.
    The model is a value: every transition takes the old model and returns a new
    one together with a command. */
module Wizard {

  /** The wizard's state. `inputText` stands for the value held by the foreign
      text-input widget; the spinner widget has no field here, because nothing the
      wizard decides depends on it. */
  datatype Model = Model(
    Choice: int,
    Chosen: bool,
    Ticks: int,
    Frames: int,
    Progress: real,
    Loaded: bool,
    Quitting: bool,
    inputText: string,
    Submitted: bool,
    Done: bool,
    FolderName: string
  )

  /** The messages delivered by the runtime. */
  datatype Msg =
    | Key(name: string)      // a key press, by its printed name ("enter", "up", "q", ...)
    | TickMsg                // the one-second countdown timer fired
    | FrameMsg               // the animation frame timer fired
    | CreateFolderMsg        // the folder-creation command has finished
    | SpinnerTickMsg         // the spinner widget's own timer fired

  /** The commands handed back to the runtime, as tags only. */
  datatype Cmd =
    | NoCmd                           // nil: nothing to schedule
    | TickCmd                         // arm the one-second timer
    | FrameCmd                        // arm the 1/60-second frame timer
    | Quit                            // stop the program
    | SpinnerCmd                      // whatever the spinner widget schedules next
    | InputCmd                        // whatever the text-input widget schedules
    | CreateFolder(folder: string)    // run `mkdir folder`, then deliver CreateFolderMsg
    | Batch(first: Cmd, second: Cmd)  // run both

  /** One transition: the new model and the command to run. */
  datatype Step = Step(model: Model, cmd: Cmd)

  /** The collaborators the transition function calls but whose code is not part
      of this model: the easing curve that turns a completion ratio into a
      progress value, and the text-input widget's own update of its value. */
  datatype Widgets = Widgets(outBounce: real -> real, textInput: (string, Msg) -> string)

  const Countdown: int := 60        // seconds the menu waits before quitting
  const ExitCountdown: int := 5     // seconds shown after the progress bar fills
  const LastChoice: int := 3        // the menu has four entries, 0 through 3

  /** Does the command, or any command it batches, create a folder? */
  predicate CreatesFolder(c: Cmd)
  {
    match c
    case CreateFolder(_) => true
    case Batch(a, b) => CreatesFolder(a) || CreatesFolder(b)
    case _ => false
  }

  predicate IsQuitKey(msg: Msg)
  {
    msg == Key("q") || msg == Key("ctrl+c")
  }

  predicate IsDownKey(msg: Msg)
  {
    msg == Key("j") || msg == Key("down")
  }

  predicate IsUpKey(msg: Msg)
  {
    msg == Key("k") || msg == Key("up")
  }

  /** Submitting a name: "enter" while the first menu entry is selected. */
  predicate IsSubmit(m: Model, msg: Msg)
  {
    msg == Key("enter") && m.Choice == 0
  }

  /** The state every reachable model is in. */
  ghost predicate Inv(m: Model)
  {
    && 0 <= m.Choice <= LastChoice
    && m.Ticks >= 0
    && m.Frames >= 0
    && m.Progress <= 1.0
    && (!m.Chosen ==> m.inputText == "" && m.Frames == 0 && m.Progress == 0.0)
  }

  /** The model the program starts with. */
  function InitModel(): (m: Model)
    ensures m.Choice == 0 && m.Ticks == Countdown && m.Frames == 0 && m.Progress == 0.0
    ensures !m.Chosen && !m.Loaded && !m.Quitting && !m.Submitted && !m.Done
    ensures m.inputText == "" && m.FolderName == ""
    ensures Inv(m)
  {
    Model(
      Choice := 0, Chosen := false, Ticks := Countdown, Frames := 0, Progress := 0.0,
      Loaded := false, Quitting := false, inputText := "", Submitted := false,
      Done := false, FolderName := "")
  }

  /** The command the program starts with: the first countdown tick. */
  function Init(m: Model): (c: Cmd)
    ensures c == TickCmd
  {
    TickCmd
  }

  /** The menu's transitions: move the cursor, choose an entry, count down. */
  function UpdateChoices(msg: Msg, m: Model): (r: Step)
    // only the cursor, the chosen flag, the countdown and the quitting flag move
    ensures r.model == m.(Choice := r.model.Choice, Chosen := r.model.Chosen,
                          Ticks := r.model.Ticks, Quitting := r.model.Quitting)
    // the cursor moves one step, clamped to the four entries, and only on j/k/up/down
    ensures IsDownKey(msg) ==> r.model.Choice == (if m.Choice + 1 > LastChoice then LastChoice else m.Choice + 1)
    ensures IsUpKey(msg) ==> r.model.Choice == (if m.Choice - 1 < 0 then 0 else m.Choice - 1)
    ensures !IsDownKey(msg) && !IsUpKey(msg) ==> r.model.Choice == m.Choice
    ensures IsDownKey(msg) || IsUpKey(msg) ==> r.cmd == NoCmd
    ensures 0 <= m.Choice <= LastChoice ==> 0 <= r.model.Choice <= LastChoice
    // "enter" chooses and starts the frame timer; nothing un-chooses
    ensures r.model.Chosen <==> m.Chosen || msg == Key("enter")
    ensures msg == Key("enter") ==> r.cmd == FrameCmd
    // a tick counts down one second and re-arms, or quits at zero
    ensures msg == TickMsg && m.Ticks == 0 ==> r.model.Quitting && r.model.Ticks == 0 && r.cmd == Quit
    ensures msg == TickMsg && m.Ticks != 0 ==>
              r.model.Ticks == m.Ticks - 1 && r.model.Quitting == m.Quitting && r.cmd == TickCmd
    ensures msg != TickMsg ==> r.model.Ticks == m.Ticks && r.model.Quitting == m.Quitting
    ensures m.Ticks >= 0 ==> r.model.Ticks >= 0
    // everything else is ignored
    ensures !IsDownKey(msg) && !IsUpKey(msg) && msg != Key("enter") && msg != TickMsg ==> r == Step(m, NoCmd)
  {
    match msg
    case Key(k) =>
      if k == "j" || k == "down" then
        var c := m.Choice + 1;
        Step(m.(Choice := if c > LastChoice then LastChoice else c), NoCmd)
      else if k == "k" || k == "up" then
        var c := m.Choice - 1;
        Step(m.(Choice := if c < 0 then 0 else c), NoCmd)
      else if k == "enter" then
        Step(m.(Chosen := true), FrameCmd)
      else
        Step(m, NoCmd)
    case TickMsg =>
      if m.Ticks == 0 then Step(m.(Quitting := true), Quit)
      else Step(m.(Ticks := m.Ticks - 1), TickCmd)
    case _ => Step(m, NoCmd)
  }

  /** The completion ratio the easing curve is applied to: frames out of 100. */
  function Ratio(frames: int): real
  {
    frames as real / 100.0
  }

  /** The transitions after a menu entry has been chosen: the progress animation
      and, once it is full, the exit countdown. */
  function UpdateChosen(msg: Msg, m: Model, w: Widgets): (r: Step)
    // only the animation, the loaded/done flags, the countdown and quitting move
    ensures r.model == m.(Frames := r.model.Frames, Progress := r.model.Progress,
                          Loaded := r.model.Loaded, Done := r.model.Done,
                          Ticks := r.model.Ticks, Quitting := r.model.Quitting)
    // a frame before loading advances the animation by exactly one frame ...
    ensures msg == FrameMsg && !m.Loaded ==> r.model.Frames == m.Frames + 1
    // ... and either the eased value is still short of full and the next frame is armed,
    ensures msg == FrameMsg && !m.Loaded && w.outBounce(Ratio(m.Frames + 1)) < 1.0 ==>
              r == Step(m.(Frames := m.Frames + 1, Progress := w.outBounce(Ratio(m.Frames + 1))), FrameCmd)
    // ... or it reached full: clamped to exactly 1, loaded, five-second countdown armed
    ensures msg == FrameMsg && !m.Loaded && w.outBounce(Ratio(m.Frames + 1)) >= 1.0 ==>
              && r.model.Progress == 1.0 && r.model.Loaded && !r.model.Done
              && r.model.Ticks == ExitCountdown && r.model.Quitting == m.Quitting && r.cmd == TickCmd
    // once loaded, frames change nothing; before loading, ticks change nothing
    ensures msg == FrameMsg && m.Loaded ==> r == Step(m, NoCmd)
    ensures msg == TickMsg && !m.Loaded ==> r == Step(m, NoCmd)
    // once loaded, a tick counts down one second and re-arms, or quits at zero
    ensures msg == TickMsg && m.Loaded && m.Ticks == 0 ==> r == Step(m.(Quitting := true), Quit)
    ensures msg == TickMsg && m.Loaded && m.Ticks != 0 ==> r == Step(m.(Ticks := m.Ticks - 1), TickCmd)
    // everything else is ignored
    ensures msg != FrameMsg && msg != TickMsg ==> r == Step(m, NoCmd)
    ensures m.Progress <= 1.0 ==> r.model.Progress <= 1.0
    ensures m.Loaded ==> r.model.Loaded
  {
    match msg
    case FrameMsg =>
      if !m.Loaded then
        var frames := m.Frames + 1;
        var progress := w.outBounce(Ratio(frames));
        if progress >= 1.0 then
          Step(m.(Frames := frames, Progress := 1.0, Loaded := true, Done := false, Ticks := ExitCountdown), TickCmd)
        else
          Step(m.(Frames := frames, Progress := progress), FrameCmd)
      else
        Step(m, NoCmd)
    case TickMsg =>
      if m.Loaded then
        if m.Ticks == 0 then Step(m.(Quitting := true), Quit)
        else Step(m.(Ticks := m.Ticks - 1), TickCmd)
      else
        Step(m, NoCmd)
    case _ => Step(m, NoCmd)
  }

  /** The part of the transition function that no earlier case claimed: the
      menu while nothing is chosen; afterwards the text input sees the message
      and then the animation does. */
  function Route(msg: Msg, m: Model, w: Widgets): (r: Step)
    // on the menu the message goes to the menu alone
    ensures !m.Chosen ==> r == UpdateChoices(msg, m)
    // afterwards the text input sees it first, then the animation, and both commands run
    ensures m.Chosen ==>
              var m1 := m.(inputText := w.textInput(m.inputText, msg));
              r == Step(UpdateChosen(msg, m1, w).model, Batch(InputCmd, UpdateChosen(msg, m1, w).cmd))
    ensures !CreatesFolder(r.cmd)
    ensures r.model.FolderName == m.FolderName && r.model.Submitted == m.Submitted
    ensures m.Chosen ==> r.model.Chosen && r.model.Choice == m.Choice
    ensures m.Quitting ==> r.model.Quitting
    // key presses never touch the loaded and done flags
    ensures msg.Key? ==> r.model.Loaded == m.Loaded && r.model.Done == m.Done
    ensures Inv(m) ==> Inv(r.model)
  {
    if !m.Chosen then
      UpdateChoices(msg, m)
    else
      var m1 := m.(inputText := w.textInput(m.inputText, msg));
      var s := UpdateChosen(msg, m1, w);
      Step(s.model, Batch(InputCmd, s.cmd))
  }

  /** The main transition function. Quit keys, name submission, folder creation
      and spinner ticks are handled first, whatever the screen; the rest goes to
      the menu or, once an entry is chosen, to the text input and the animation. */
  function Update(m: Model, msg: Msg, w: Widgets): (r: Step)
    // the quit keys leave the model as it is and quit, in every state
    ensures IsQuitKey(msg) ==> r == Step(m, Quit)
    // the folder-created message quits from any state
    ensures msg == CreateFolderMsg ==>
              r == Step(m.(Loaded := false, Done := true, Quitting := true), Quit)
    // the spinner's own tick changes no modelled field
    ensures msg == SpinnerTickMsg ==> r == Step(m, SpinnerCmd)
    // submitting copies the input into the folder name ...
    ensures IsSubmit(m, msg) ==> r.model.FolderName == m.inputText
    // ... and a non-empty name starts the spinner and the creation of exactly that folder
    ensures IsSubmit(m, msg) && m.inputText != "" ==>
              && r.model == m.(FolderName := m.inputText, Loaded := true, Done := true)
              && r.cmd == Batch(SpinnerCmd, CreateFolder(m.inputText))
    // an empty name neither marks the work as loaded or done nor creates a folder
    ensures IsSubmit(m, msg) && m.inputText == "" ==>
              r.model.Loaded == m.Loaded && r.model.Done == m.Done && !CreatesFolder(r.cmd)
    // a folder is created only on submission of a non-empty name
    ensures CreatesFolder(r.cmd) <==> IsSubmit(m, msg) && m.inputText != ""
    // the folder name changes only on submission
    ensures !IsSubmit(m, msg) ==> r.model.FolderName == m.FolderName
    // the cursor moves only in the menu
    ensures m.Chosen ==> r.model.Choice == m.Choice
    // choosing and quitting are never undone, and Submitted is never written
    ensures m.Chosen ==> r.model.Chosen
    ensures m.Quitting ==> r.model.Quitting
    ensures r.model.Submitted == m.Submitted
    ensures Inv(m) ==> Inv(r.model)
  {
    match msg
    case CreateFolderMsg =>
      Step(m.(Loaded := false, Done := true, Quitting := true), Quit)
    case SpinnerTickMsg =>
      Step(m, SpinnerCmd)
    case _ =>
      if IsQuitKey(msg) then
        Step(m, Quit)
      else
        var m1 := if IsSubmit(m, msg) then m.(FolderName := m.inputText) else m;
        if IsSubmit(m, msg) && m1.FolderName != "" then
          Step(m1.(Loaded := true, Done := true), Batch(SpinnerCmd, CreateFolder(m1.FolderName)))
        else
          Route(msg, m1, w)
  }

  /** After an entry is chosen, each frame before loading advances the animation by
      one frame and re-arms the frame timer until the eased value reaches full;
      once loaded, frames change nothing but the text input's view of the message. */
  lemma AnimationStep(m: Model, w: Widgets)
    requires m.Chosen
    ensures !m.Loaded ==> Update(m, FrameMsg, w).model.Frames == m.Frames + 1
    ensures !m.Loaded && w.outBounce(Ratio(m.Frames + 1)) < 1.0 ==>
              Update(m, FrameMsg, w).cmd == Batch(InputCmd, FrameCmd)
    ensures !m.Loaded && w.outBounce(Ratio(m.Frames + 1)) >= 1.0 ==>
              && Update(m, FrameMsg, w).model.Progress == 1.0
              && Update(m, FrameMsg, w).model.Loaded
              && Update(m, FrameMsg, w).model.Ticks == ExitCountdown
              && Update(m, FrameMsg, w).cmd == Batch(InputCmd, TickCmd)
    ensures m.Loaded ==>
              && Update(m, FrameMsg, w).model == m.(inputText := w.textInput(m.inputText, FrameMsg))
              && Update(m, FrameMsg, w).cmd == Batch(InputCmd, NoCmd)
  {
  }

  /** Through the whole transition function, a message no earlier case claims
      reaches the menu while nothing is chosen. Enter on the first entry passes
      through the name-submission case first, records the (necessarily empty)
      input as the folder name and falls through to the menu. Once an entry is
      chosen, such a message reaches the text input and then the animation. */
  lemma UpdateDispatch(m: Model, msg: Msg, w: Widgets)
    requires Inv(m)
    requires !IsQuitKey(msg) && msg != CreateFolderMsg && msg != SpinnerTickMsg
    ensures !m.Chosen ==>
              Update(m, msg, w) == UpdateChoices(msg, if IsSubmit(m, msg) then m.(FolderName := "") else m)
    ensures m.Chosen && !(IsSubmit(m, msg) && m.inputText != "") ==>
              var m0 := if IsSubmit(m, msg) then m.(FolderName := "") else m;
              var m1 := m0.(inputText := w.textInput(m0.inputText, msg));
              Update(m, msg, w) == Step(UpdateChosen(msg, m1, w).model, Batch(InputCmd, UpdateChosen(msg, m1, w).cmd))
  {
  }

  /** The model after the runtime has delivered the messages one by one. */
  function Run(m: Model, msgs: seq<Msg>, w: Widgets): Model
    decreases |msgs|
  {
    if msgs == [] then m else Run(Update(m, msgs[0], w).model, msgs[1..], w)
  }

  /** `n` countdown ticks in a row. */
  function TickRun(n: nat): (s: seq<Msg>)
    ensures |s| == n && forall i :: 0 <= i < n ==> s[i] == TickMsg
  {
    if n == 0 then [] else [TickMsg] + TickRun(n - 1)
  }

  /** Whatever the messages, a reachable model stays reachable: the cursor stays
      within the four entries, the countdown and frame counter stay non-negative
      and the progress never exceeds full. */
  lemma {:induction false} RunPreservesInv(m: Model, msgs: seq<Msg>, w: Widgets)
    requires Inv(m)
    ensures Inv(Run(m, msgs, w))
    decreases |msgs|
  {
    if msgs != [] {
      RunPreservesInv(Update(m, msgs[0], w).model, msgs[1..], w);
    }
  }

  /** From the initial model, no sequence of messages moves the cursor off the
      menu or drives the countdown below zero. */
  lemma {:induction false} ChoiceStaysInRange(msgs: seq<Msg>, w: Widgets)
    ensures 0 <= Run(InitModel(), msgs, w).Choice <= LastChoice
    ensures Run(InitModel(), msgs, w).Ticks >= 0
  {
    RunPreservesInv(InitModel(), msgs, w);
  }

  /** Once chosen, always chosen; once quitting, always quitting. */
  lemma {:induction false} RunNeverUndoes(m: Model, msgs: seq<Msg>, w: Widgets)
    ensures m.Chosen ==> Run(m, msgs, w).Chosen
    ensures m.Quitting ==> Run(m, msgs, w).Quitting
    decreases |msgs|
  {
    if msgs != [] {
      RunNeverUndoes(Update(m, msgs[0], w).model, msgs[1..], w);
    }
  }

  /** While a countdown is live (in the menu, or after loading), `k` ticks with
      `k` at most the seconds left take exactly `k` seconds off and do not quit. */
  lemma {:induction false} CountdownCounts(m: Model, k: nat, w: Widgets)
    requires !m.Chosen || m.Loaded
    requires k <= m.Ticks
    ensures Run(m, TickRun(k), w).Ticks == m.Ticks - k
    ensures Run(m, TickRun(k), w).Quitting == m.Quitting
    ensures Run(m, TickRun(k), w).Chosen == m.Chosen
    ensures Run(m, TickRun(k), w).Loaded == m.Loaded
    decreases k
  {
    if k > 0 {
      var m' := Update(m, TickMsg, w).model;
      assert TickRun(k)[1..] == TickRun(k - 1);
      CountdownCounts(m', k - 1, w);
    }
  }

  /** While a countdown is live, one tick more than the seconds left quits. */
  lemma {:induction false} CountdownQuits(m: Model, w: Widgets)
    requires !m.Chosen || m.Loaded
    requires m.Ticks >= 0
    ensures Run(m, TickRun(m.Ticks + 1), w).Quitting
    decreases m.Ticks
  {
    var m' := Update(m, TickMsg, w).model;
    assert TickRun(m.Ticks + 1)[1..] == TickRun(m.Ticks);
    if m.Ticks > 0 {
      CountdownQuits(m', w);
    } else {
      RunNeverUndoes(m', TickRun(m.Ticks), w);
    }
  }

  /** The program arms the countdown at start-up, and an idle user sees it quit
      after the sixty-first tick, not before. */
  lemma {:induction false} IdleMenuQuits(w: Widgets)
    ensures Init(InitModel()) == TickCmd
    ensures !Run(InitModel(), TickRun(Countdown), w).Quitting
    ensures Run(InitModel(), TickRun(Countdown + 1), w).Quitting
  {
    CountdownCounts(InitModel(), Countdown, w);
    CountdownQuits(InitModel(), w);
  }
}
