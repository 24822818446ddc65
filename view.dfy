/** Which screen the wizard shows for a model. Styling and the exact wording of
    each screen are not modelled: a screen is a tag carrying the values it
    displays. */
module WizardView {
  import opened Wizard

  /** What the screen after choosing an entry shows. */
  datatype Prompt =
    | NamePrompt(input: string)   // entry 1: ask for the project name
    | PackageStub                 // entry 2: a fixed message
    | ReadingStub                 // entry 3: a fixed message
    | FriendsStub                 // entry 4 (and any other index): a fixed message

  /** The label above the progress bar. */
  datatype LoadLabel = Generating | Exiting(seconds: int)

  datatype Screen =
    | Farewell(folder: string)                   // the folder was made; goodbye
    | Menu(entries: seq<string>, secondsLeft: int) // the four entries and the countdown
    | ChosenScreen(prompt: Prompt)               // the chosen entry's screen
    | Loading(caption: LoadLabel, progress: real)  // the progress bar

  const Labels: seq<string> :=
    ["1.Create BoilerPlate", "2.add package modular", "3.Read something", "4.See friends"]

  /** A marked menu line starts with "[x] ". */
  predicate IsMarked(line: string)
  {
    |line| >= 4 && line[..4] == "[x] "
  }

  /** One menu line: a checkbox, ticked or not, followed by the label. */
  function Checkbox(text: string, checked: bool): (line: string)
    ensures IsMarked(line) <==> checked
    ensures |line| == |text| + 4 && line[4..] == text
  {
    (if checked then "[x] " else "[ ] ") + text
  }

  /** The menu: one line per entry, the one under the cursor ticked. */
  function ChoicesView(m: Model): (s: Screen)
    ensures s.Menu? && |s.entries| == |Labels| && s.secondsLeft == m.Ticks
    ensures forall i :: 0 <= i < |s.entries| ==>
              (IsMarked(s.entries[i]) <==> i == m.Choice) && s.entries[i] == Checkbox(Labels[i], i == m.Choice)
  {
    var c := m.Choice;
    Menu([Checkbox(Labels[0], c == 0), Checkbox(Labels[1], c == 1),
          Checkbox(Labels[2], c == 2), Checkbox(Labels[3], c == 3)], m.Ticks)
  }

  /** The screen of the chosen entry, before any work is shown. */
  function ChosenView(m: Model): (p: Prompt)
    ensures p.NamePrompt? <==> m.Choice == 0
    ensures p.NamePrompt? ==> p.input == m.inputText
    ensures p == PackageStub <==> m.Choice == 1
    ensures p == ReadingStub <==> m.Choice == 2
  {
    match m.Choice
    case 0 => NamePrompt(m.inputText)
    case 1 => PackageStub
    case 2 => ReadingStub
    case _ => FriendsStub
  }

  /** The progress screen: "generating" until loaded, then the exit countdown. */
  function LoadAnimation(m: Model): (s: Screen)
    ensures s.Loading? && s.progress == m.Progress
    ensures s.caption.Exiting? <==> m.Loaded
    ensures s.caption.Exiting? ==> s.caption.seconds == m.Ticks
  {
    Loading(if m.Loaded then Exiting(m.Ticks) else Generating, m.Progress)
  }

  /** The whole view: quitting first, then the menu, then the chosen entry's
      screen or, once the work is done, the progress screen. */
  function View(m: Model): (s: Screen)
    ensures s.Farewell? <==> m.Quitting
    ensures m.Quitting ==> s == Farewell(m.FolderName)
    ensures s.Menu? <==> !m.Quitting && !m.Chosen
    ensures s.Loading? <==> !m.Quitting && m.Chosen && m.Done
    ensures s.ChosenScreen? <==> !m.Quitting && m.Chosen && !m.Done
  {
    if m.Quitting then Farewell(m.FolderName)
    else if !m.Chosen then ChoicesView(m)
    else if m.Done then LoadAnimation(m)
    else ChosenScreen(ChosenView(m))
  }

  /** The indices of the ticked menu lines. */
  function Marked(entries: seq<string>): set<int>
  {
    set i | 0 <= i < |entries| && IsMarked(entries[i])
  }

  /** In every reachable menu exactly one entry is ticked: the one under the cursor. */
  lemma MenuMarksExactlyChoice(m: Model)
    requires Inv(m) && !m.Quitting && !m.Chosen
    ensures View(m).Menu? && Marked(View(m).entries) == {m.Choice}
  {
  }

  /** The folder-created message brings up the farewell screen for the folder
      name already recorded, from any state; the quit keys leave the screen as it
      was, because the program stops. */
  lemma QuittingShowsFarewell(m: Model, msg: Msg, w: Widgets)
    ensures msg == CreateFolderMsg ==> View(Update(m, msg, w).model) == Farewell(m.FolderName)
    ensures IsQuitKey(msg) ==> View(Update(m, msg, w).model) == View(m)
  {
  }

  /** After a non-empty name is submitted, the progress screen is shown with the
      exit label, whatever the progress had reached. */
  lemma SubmitShowsExitLabel(m: Model, w: Widgets)
    requires m.Chosen && !m.Quitting && m.Choice == 0 && m.inputText != ""
    ensures View(Update(m, Key("enter"), w).model) == Loading(Exiting(m.Ticks), m.Progress)
  {
  }
}
