# Boilerplate wizard: a Dafny model

This project models the core of a terminal wizard for creating a project folder.
The wizard is a Bubble Tea (Elm-architecture) program. It shows a four-entry menu with a 60-second idle countdown. After the user
chooses an entry it runs a progress animation. When the user submits a non-empty project name, it starts a spinner and a
`mkdir <name>` command, and it quits once that command reports back. The project also models the small helper that hands out
the project's dependency list as a freshly allocated, shuffled copy.

- `wizard.dfy` (module `Wizard`) holds the state machine of `main.go`. The Go `model` is passed by value and returned, so
  the model is a `Model` datatype. The transition functions `UpdateChoices`, `UpdateChosen`, `Route` and `Update` return a
  `Step`: the new model plus a `Cmd` tag (`TickCmd`, `FrameCmd`, `Quit`, `CreateFolder(name)`, `Batch(a, b)`, ...). Two
  collaborators are passed in as function values in a `Widgets` record, because their code is not part of this model:
  - the easing curve `ease.OutBounce`;
  - the text-input widget's update of its own value.

  `Run` folds `Update` over a sequence of messages. Its lemmas state what holds for every sequence of inputs.
- `view.dfy` (module `WizardView`) holds the screen selection of `View`, `choicesView`, `chosenView`, `checkbox` and
  `loadAnimation`. Each screen is a tag that carries the values it displays (folder name, countdown, progress). Menu lines
  keep their `[x] ` / `[ ] ` prefix and their label.
- `packages.dfy` (module `Packages`) holds `getPackage` from `package.go`:
  - `CopyOf` is `make` plus `copy` into a fresh array.
  - `Shuffle` is the Fisher-Yates loop of `rand.Shuffle`, with each random draw an arbitrary `j` in `0..i`.
  - `GetPackage` composes the two.

  A ghost log of the swaps ties the result to the reference function `ApplySwaps`. The lemmas prove that `ApplySwaps` only
  permutes.

Notes on behaviour:
- Submitting a non-empty name sets `Loaded` and `Done` at once (main.go:110-111). The exit label "Downloaded. Exiting in N
  seconds" is then shown whatever the progress had reached (`SubmitShowsExitLabel`). The progress does not have to be full
  first.
- The progress value is `ease.OutBounce` of frames/100, clamped to 1 once it reaches 1 (main.go:240-248). A bounce curve is
  not monotone, so the model does not promise that progress never decreases. It promises only that progress stays at most 1.
- The only provisioning the wizard performs is the `mkdir` command. Templates and dependency fetching are not reached from
  the wizard.

## Model

| member | source | states |
|---|---|---|
| `Wizard.InitModel` | main.go:43-58 | the program starts on the menu with cursor 0, a 60-second countdown, no frames, zero progress, every flag false and an empty input; this state satisfies the reachability invariant `Inv` |
| `Wizard.UpdateChoices` | main.go:159-187 | in the menu, j/down moves the cursor one step down and clamps it at 3, and k/up moves it one step up and clamps it at 0, both with no command; no other message moves the cursor; enter sets Chosen and arms the frame timer; a tick at 0 sets Quitting and quits, any other tick takes exactly one second off and re-arms; all other messages are ignored, and only these four fields can change |
| `Wizard.UpdateChosen` | main.go:236-262 | after choosing, a frame before loading advances Frames by exactly one; if the eased value is below 1 it becomes the progress and the frame timer is re-armed; if it is at least 1 the progress is clamped to exactly 1, Loaded is set, Done is cleared, the countdown becomes 5 and the tick is armed; once loaded, frames change nothing; before loading, ticks change nothing; once loaded, ticks count down to a quit |
| `Wizard.Route` | main.go:129-139 | messages no earlier case handled go to the menu alone (the result is exactly `UpdateChoices`) while nothing is chosen; afterwards the text input updates its value first, then `UpdateChosen` runs on that model, and the command batches the input's command with the animation's; the result never creates a folder, never changes the folder name, never un-chooses or un-quits, leaves Loaded/Done alone on key presses, and preserves `Inv` |
| `Wizard.Update` | main.go:99-140 | q and ctrl+c return the model unchanged with Quit, in every state; the folder-created message clears Loaded and sets Done and Quitting with Quit, from any state; enter on entry 0 copies the input into FolderName; a non-empty name sets Loaded and Done and batches the spinner tick with creating exactly that folder; an empty name sets neither flag and creates nothing; a folder is created if and only if a non-empty name is submitted; Chosen and Quitting are never reset; Submitted is never written; `Inv` is preserved |
| `Wizard.UpdateDispatch` | main.go:105-139 | through the whole transition function, on a reachable menu every message other than the quit keys, folder-created and spinner ticks is exactly the menu transition (enter on entry 0 first records the empty input as the folder name and falls through); once chosen, every such message except the submission of a non-empty name goes to the text input and then the animation |
| `Wizard.AnimationStep` | main.go:238-250 | through the whole transition function, a frame in the chosen state advances the animation and re-arms the frame timer until full, at full it loads with progress exactly 1 and a 5-second countdown, and once loaded it changes nothing but the text input |
| `Wizard.RunPreservesInv` | main.go:99-262 | for every sequence of messages, a reachable model stays reachable: cursor in [0,3], countdown and frame counter non-negative, progress at most 1, and on the menu no frames, no progress and an empty input |
| `Wizard.ChoiceStaysInRange` | main.go:163-172 | from the initial model, no sequence of messages takes the cursor outside [0,3] or the countdown below zero |
| `Wizard.RunNeverUndoes` | main.go:173-175 | over any sequence of messages, a chosen entry stays chosen and a quitting wizard stays quitting |
| `Wizard.CountdownCounts` | main.go:177-183 | while a countdown is live (on the menu, or once loaded), k ticks with k at most the seconds left take exactly k seconds off, do not quit, and leave Chosen and Loaded as they were |
| `Wizard.CountdownQuits` | main.go:251-259 | while a countdown is live, one tick more than the seconds left makes the wizard quit |
| `Wizard.Init` | main.go:94-96 | the first command arms the one-second countdown tick |
| `Wizard.IdleMenuQuits` | main.go:94-96 | start-up arms the one-second tick, and for an idle user the menu is not yet quitting after 60 ticks and is quitting after the 61st |
| `WizardView.Checkbox` | main.go:229-234 | a menu line is marked if and only if it is checked, and it ends with its label unchanged |
| `WizardView.ChoicesView` | main.go:189-204 | the menu shows four lines, one per entry label, and the remaining seconds; line i is marked if and only if i equals the cursor |
| `WizardView.ChosenView` | main.go:206-227 | entry 0 shows the name prompt with the current input, entries 1 and 2 their fixed messages, and any other index the fourth message |
| `WizardView.LoadAnimation` | main.go:284-292 | the progress screen shows the current progress; its label is the exit countdown with the seconds left if and only if loading has finished, and "generating" otherwise |
| `WizardView.View` | main.go:142-157 | the farewell screen, with the folder name, is shown if and only if Quitting, before every other screen; otherwise the menu if and only if nothing is chosen, the progress screen if and only if chosen and done, and the chosen entry's screen if and only if chosen and not done |
| `WizardView.MenuMarksExactlyChoice` | main.go:196-202 | on every reachable menu, the set of marked lines is exactly the cursor's index |
| `WizardView.QuittingShowsFarewell` | main.go:118-122 | after the folder-created message the farewell screen names the recorded folder; a quit key leaves the screen as it was |
| `WizardView.SubmitShowsExitLabel` | main.go:105-113 | submitting a non-empty name in the chosen state shows the progress screen with the exit label and the current progress, whatever that progress is |
| `Packages.DependenciesDistinct` | package.go:7-15 | the declared dependency list has seven entries, all different |
| `Packages.DistinctByMultiplicity` | package.go:7-15 | a list has no repeated entry if and only if every value occurs in it at most once |
| `Packages.PermutationKeepsDistinct` | package.go:31-40 | a rearrangement of a list without repeats has no repeats |
| `Packages.Swap` | package.go:36 | exchanging positions i and j puts each one's entry in the other's place, leaves every other position alone and keeps the same entries |
| `Packages.ApplySwaps` | package.go:35-37 | a sequence of in-range swaps keeps the length of the list |
| `Packages.ApplySwapsPermutes` | package.go:35-37 | whatever positions are drawn, a sequence of in-range swaps yields a permutation (the same multiset) of the list |
| `Packages.CopyOf` | package.go:32-33 | the copy is a freshly allocated array holding the same entries in the same order |
| `Packages.Shuffle` | package.go:35-37 | the shuffle swaps position i with a drawn position j in 0..i, for every i from the last position down to 1 (exactly length-1 swaps, none for an empty list), and the array ends as `ApplySwaps` of its old contents and those draws |
| `Packages.GetPackage` | package.go:31-40 | the result is a fresh array, not the source; the source is unchanged; the result has the source's length, is the source after the shuffle's full run of length-1 swaps, is a permutation of the source, and has no repeats when the source has none |
| `Packages.GetDependencies` | package.go:7-15 | handing out the declared list gives a fresh array of seven entries, each declared dependency exactly once |

## Left out

- Program entry and runtime: `main` and `tea.NewProgram` (main.go:36-41), the scheduling of `tea.Tick` timers (main.go:66-77) and the order in which the runtime delivers messages. Commands are tags and are never executed. `Run` delivers any sequence of messages the caller chooses.
- `tea.Batch` is a pair tag. Its flattening and dropping of nil commands are not modelled.
- Runtime messages other than key presses, the two timers, the folder-created message and the spinner tick (window size, mouse) are not in `Msg`.
- The text-input widget (main.go:44-48, main.go:134): its value is the string `inputText`. Its update is the `Widgets.textInput` parameter, and its command is the `InputCmd` tag. Placeholder, focus, the 156-character limit and the width are not modelled.
- The spinner widget (main.go:49-50, main.go:123-126): its update changes no modelled field and returns the `SpinnerCmd` tag. A stale spinner tick, for which the widget returns no command, is not distinguished.
- `ease.OutBounce` (main.go:241) is the `Widgets.outBounce` parameter, applied to real-valued frames/100. Floating-point rounding is not modelled. So the model says nothing about which frame fills the bar, or whether any does.
- Go's 64-bit `int` for `Choice`, `Ticks` and `Frames` is an unbounded `int`. `Choice` and `Ticks` stay in small ranges, and `Frames` grows by one per 1/60 s only while loading, so wrap-around is not reachable in practice.
- Rendering (main.go:23-34, main.go:189-227, main.go:264-271, main.go:284-292): lipgloss styles, the exact texts, `createBoilerPlate`'s layout, the 71-cell progress bar and its percentage (`progressbar` in helper.go) are not modelled. Screens are tags.
- `createFolderCmd` (main.go:273-282) is the `CreateFolder(name)` tag. Running `mkdir`, printing its error, and the `CreateFolderMsg` it always delivers afterwards are runtime behaviour.
- helper.go is not part of this model. It holds the float rounding of the progress bar and the Luv colour ramp, both pure presentation.
- exampleet/main.go and exampleet/testx.go are not part of this model. They are a separate template generator and a generated HTTP server sample, built on file I/O, the `text/template` library, the network and goroutines, and the wizard never reaches them.
- `rand.Shuffle`'s random number generator (package.go:35): each draw is an arbitrary `j` in `0..i`. The model says nothing about the distribution of the result.
- The package-level `packages` slice is a global variable in Go. Here it is the array parameter of `GetPackage`. The declared contents are the constant `Dependencies`, which `GetDependencies` passes in.
