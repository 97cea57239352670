# A verified model of the Moondream component demo site

The site is a client-rendered Next.js showcase of animated UI widgets.
It has a mobile page that steps through a catalogue of vision tasks, two
typewriter menus, a command palette and a notification stack. It also has
a window frame whose look is configurable, an animated code block and a
diff-to-SVG generator. All of these read one configuration record, which
is persisted in browser storage and edited from a sidebar and per-widget
JSON editors.

The model lifts the logic out of the React components. Each component's
`useState` variables become one state record. Each event handler, effect
run or timer firing becomes a step on that record. The step is written as
a pure function that serves as the specification, plus a Dafny `class`
whose fields are the state variables and whose methods perform the same
update in place, proved equal to the function. For the interactive
typewriter the class runs the corrected steps; the steps as written are
separate functions (see "## Findings"). Pure helpers (filters,
lookups, colour rules, the diff row layout) are functions with contracts.
Lemmas state what the site promises across many steps: prefixes, bounds,
periodicity, round trips and "nothing else changes".

Modules: three shared ones, `Wrappers` (Option/Result), `Text` (the
string operations used) and `ConfigTypes` (the configuration record),
and one per source file: `Defaults`, `ConfigContext`,
`ConfigEditor`, `ComponentsContext`, `ControlPanel`, `DocsSidebar`,
`MobileSequencer`, `TypewriterMenu`, `TypewriterShortcut`,
`DiffGenerator`, `CommandPalette`, `NotificationStack`, `MacWindow`,
`CodeBlock`.

## Model

| member | source | states |
|---|---|---|
| Text.ContainsAt | src/components/demos/CommandPaletteDemo.tsx:27 | `includes` holds exactly when the needle occurs at some position |
| Text.Lower | src/components/demos/CommandPaletteDemo.tsx:27 | `toLowerCase` on ASCII: same length, each character lowered on its own |
| Text.LowerIdempotent | src/components/demos/CommandPaletteDemo.tsx:27 | lowering twice is lowering once |
| Text.Split | src/pages/diff.tsx:17-18 | `split` on one character: at least one piece, and no piece contains the separator |
| Text.JoinSplit | src/pages/diff.tsx:17-18 | joining the pieces of `split('\n')` with newlines gives back the text |
| Text.SplitJoin | src/pages/diff.tsx:17-18 | splitting a join of newline-free lines gives back the lines |
| Defaults.DefaultCategoriesWellFormed | src/config/defaults.ts:109-138 | every typewriter category has items, the ids detection, vqa and caption are distinct, and detection comes first |
| Defaults.DefaultMenuNonEmpty | src/config/defaults.ts:96-101 | the typewriter menu has four items |
| Defaults.OnlyChromaSetsShadow | src/config/defaults.ts:159-197 | only the chroma variant carries a shadow setting, and that setting turns the shadow off |
| Defaults.NoVariantHidesButtons | src/config/defaults.ts:159-197 | no variant uses the hidden button style |
| Defaults.DefaultWindowMatchesVariant | src/config/defaults.ts:76-94 | the default window uses the default variant's colours and button style |
| ConfigContext.Initialise | src/context/ConfigContext.tsx:118-132 | no window or nothing stored gives the default; an unparseable record is an error; a stale record (typewriter section without categories) is removed and the default used; otherwise the parsed record is the result |
| ConfigContext.StoredRecordKept | src/context/ConfigContext.tsx:127 | a parseable, non-stale record, including one with no typewriter section, is kept exactly as parsed |
| ConfigContext.ConfigProvider.constructor | src/context/ConfigContext.tsx:118-136 | mounting removes a stale record and then persists the initial config under `componentConfig` |
| ConfigContext.ConfigProvider.UpdateConfig | src/context/ConfigContext.tsx:134-140 | the config is replaced whole, with no merge, and storage holds its serialisation |
| ConfigContext.Mount | src/context/ConfigContext.tsx:117-136 | start-up fails exactly when the initialiser fails; otherwise the provider holds the initial config, persisted |
| ConfigEditor.WithSection | src/components/ConfigEditor.tsx:32-35 | the edited section is replaced and every other section is unchanged |
| ConfigEditor.WithOwnSection | src/components/ConfigEditor.tsx:32-35 | writing back a section's own value leaves the config unchanged |
| ConfigEditor.DefaultSection | src/components/ConfigEditor.tsx:22 | the fallback section is the default config's section |
| ConfigEditor.SectionToEdit | src/components/ConfigEditor.tsx:22 | the edited section is the config's own, or the default when it is absent |
| ConfigEditor.Save | src/components/ConfigEditor.tsx:29-41 | an unparseable text gives 'Invalid JSON format'; otherwise only the parsed section changes |
| ConfigEditor.OpenThenSave | src/components/ConfigEditor.tsx:16-41 | opening and then saving unchanged text leaves the config as it was, or fills in the default section |
| ConfigEditor.Editor.constructor | src/components/ConfigEditor.tsx:12-14 | the editor starts closed, with empty text and no error |
| ConfigEditor.Editor.HandleEdit | src/components/ConfigEditor.tsx:16-27 | opening loads the serialised section (or its default) and opens the dialog |
| ConfigEditor.Editor.EditText | src/components/ConfigEditor.tsx:83 | typing changes only the edited text |
| ConfigEditor.Editor.HandleSave | src/components/ConfigEditor.tsx:29-41 | success updates the config, clears the error and closes; failure sets the error, keeps the config and stays open |
| ConfigEditor.Editor.Cancel | src/components/ConfigEditor.tsx:93 | cancel closes the dialog and touches nothing else |
| ComponentsContext.Flip | src/context/ComponentsContext.tsx:17-20 | the title's flag is negated, with a missing entry read as off, and every other entry is kept |
| ComponentsContext.FlipTwice | src/context/ComponentsContext.tsx:19 | flipping twice restores every flag, and restores the map when the title had an entry |
| ComponentsContext.ComponentsProvider.constructor | src/context/ComponentsContext.tsx:12 | the active map starts empty |
| ComponentsContext.ComponentsProvider.Toggle | src/context/ComponentsContext.tsx:15-30 | the map is flipped; navigation home is requested exactly when the flag is now on away from `/` |
| ControlPanel.Rows | src/components/ControlPanel.tsx:19-35 | one row per title, in order, checked exactly when the title is on |
| ControlPanel.ChangeRow | src/components/ControlPanel.tsx:24-29 | changing a row negates its checkbox and leaves rows of other titles unchanged |
| DocsSidebar.WithVariant | src/components/DocsSidebar.tsx:135-153 | the variant and the four variant colours and button style are set; radius, shadow, other window fields and other sections are kept |
| DocsSidebar.WithShowTitle | src/components/DocsSidebar.tsx:171-178 | only `showTitle` changes |
| DocsSidebar.WithTitle | src/components/DocsSidebar.tsx:190-197 | only `title` changes |
| DocsSidebar.WithCustomCursor | src/components/DocsSidebar.tsx:210-217 | only `customCursor` changes |
| DocsSidebar.WithVariantIdempotent | src/components/DocsSidebar.tsx:135-153 | choosing a variant twice is choosing it once |
| DocsSidebar.ChangeVariant | src/components/DocsSidebar.tsx:135-153 | the store holds the updated config, persisted |
| DocsSidebar.ChangeShowTitle | src/components/DocsSidebar.tsx:171-178 | the store holds the updated config, persisted |
| DocsSidebar.ChangeTitle | src/components/DocsSidebar.tsx:190-197 | the store holds the updated config, persisted |
| DocsSidebar.ChangeCustomCursor | src/components/DocsSidebar.tsx:210-217 | the store holds the updated config, persisted |
| DocsSidebar.OnTitles | src/components/DocsSidebar.tsx:71-73 | the titles whose flag is on |
| DocsSidebar.TogglePass | src/components/DocsSidebar.tsx:72-75 | toggling a set of titles that are all off (or all on) sets exactly those titles and counts the navigations |
| DocsSidebar.ResetAnimations | src/components/DocsSidebar.tsx:69-78 | after the immediate and deferred toggles the map is as before; one navigation per title that was on, unless already home |
| DocsSidebar.OneActiveLink | src/components/DocsSidebar.tsx:28-44 | at most one Getting Started link is active, and one is exactly when the path is one of theirs |
| DocsSidebar.IsActive | src/components/DocsSidebar.tsx:28 | a link is active when the current path is its path (`OneActiveLink` states the consequence for the three links) |
| MobileSequencer.CatalogWellFormed | src/pages/mobile.tsx:4-67 | the page's catalogue has three non-empty categories with distinct ids |
| MobileSequencer.Classify | src/pages/mobile.tsx:134-136 | a leading `@` means an image at the rest of the source; anything else is a video of the whole source |
| MobileSequencer.ClassifyInverse | src/pages/mobile.tsx:134-136 | classification loses nothing: the source can be recovered from what is rendered |
| MobileSequencer.ShownSource | src/pages/mobile.tsx:361 | the result source exactly when the result is shown, else the initial source |
| MobileSequencer.CurrentItem | src/pages/mobile.tsx:288-290 | there is a current item exactly when both indices are in range |
| MobileSequencer.ResetForItem | src/pages/mobile.tsx:292-299 | a new item resets video, result, typing, text, loading and progress, and nothing else |
| MobileSequencer.StartTyping | src/pages/mobile.tsx:301-308 | with an item and typing on, progress shows and the counter restarts |
| MobileSequencer.Start | src/pages/mobile.tsx:277-308 | after mount the page is on the first item of the first category, typing with empty text, video shown, nothing completed, no timer; progress shows exactly when that item exists |
| MobileSequencer.Tick | src/pages/mobile.tsx:310-324 | tick with counter k at most the prompt length shows its first k characters; typing ends only once the counter exceeds the length, then loading starts |
| MobileSequencer.LoadingDone | src/pages/mobile.tsx:318-321 | loading stops, the result shows, and the advance is scheduled |
| MobileSequencer.DelaysSum | src/pages/mobile.tsx:318-322 | the loading delay plus the result delay is the progress duration |
| MobileSequencer.ProgressToNext | src/pages/mobile.tsx:330-341 | the category id is appended exactly on a category's last item; the item index, else the category index, moves on; on the very last item nothing moves |
| MobileSequencer.Advance | src/pages/mobile.tsx:321-341 | the pending move runs `progressToNext` and clears the timer; when the item changed, the new item is reset and typing restarts; without a pending move nothing changes |
| MobileSequencer.ShownTextIsPrefix | src/pages/mobile.tsx:310-313 | the shown text is always a prefix of the current prompt |
| MobileSequencer.StartValid | src/pages/mobile.tsx:279-308 | mounting on a catalogue of non-empty categories satisfies the invariant |
| MobileSequencer.TickValid | src/pages/mobile.tsx:310-324 | a typing tick keeps the invariant |
| MobileSequencer.LoadingDoneValid | src/pages/mobile.tsx:318-321 | the end of loading keeps the invariant |
| MobileSequencer.IdsExtend | src/pages/mobile.tsx:332 | completing one more category appends its id |
| MobileSequencer.AdvanceValid | src/pages/mobile.tsx:330-341 | advancing keeps the indices valid and the completed list equal to the ids of the finished categories |
| MobileSequencer.FinishedCompletesAll | src/pages/mobile.tsx:331-340 | once halted, every category has been completed exactly once, in order |
| MobileSequencer.TypingRun | src/pages/mobile.tsx:310-317 | from a fresh item, tick k shows k-1 characters, and tick length+2 ends typing with the whole prompt shown |
| MobileSequencer.TicksSplit | src/pages/mobile.tsx:310 | n+1 ticks are n ticks and one more |
| MobileSequencer.MobileTypewriterMenu.constructor | src/pages/mobile.tsx:277-308 | the page starts on the first item, typing, satisfying the invariant |
| MobileSequencer.MobileTypewriterMenu.TypingTick | src/pages/mobile.tsx:310-324 | the state variables take one tick, keeping the invariant |
| MobileSequencer.MobileTypewriterMenu.LoadingTimerFires | src/pages/mobile.tsx:318-321 | the state variables take the end of loading, keeping the invariant |
| MobileSequencer.MobileTypewriterMenu.ProgressToNextStep | src/pages/mobile.tsx:330-341 | the state variables take `progressToNext` |
| MobileSequencer.MobileTypewriterMenu.AdvanceTimerFires | src/pages/mobile.tsx:321-341 | the state variables take the advance and the reset, keeping the invariant |
| TypewriterMenu.MenuItemsOf | src/components/demos/TypewriterMenuDemo.tsx:22 | the configured items, even an empty list, else the defaults |
| TypewriterMenu.Step | src/components/demos/TypewriterMenuDemo.tsx:25-56 | no step without an item; typing adds one character; at full length deleting starts with the text kept; deleting drops the last character; an empty deleting text moves to index (i+1) mod n |
| TypewriterMenu.StepKeepsInv | src/components/demos/TypewriterMenuDemo.tsx:40-51 | the shown text stays a prefix of the current item's text |
| TypewriterMenu.StepsAdd | src/components/demos/TypewriterMenuDemo.tsx:25-56 | runs of steps compose |
| TypewriterMenu.TypingSteps | src/components/demos/TypewriterMenuDemo.tsx:50-52 | k typing steps extend the prefix by k characters |
| TypewriterMenu.DeletingSteps | src/components/demos/TypewriterMenuDemo.tsx:39-41 | k deleting steps shorten the prefix by k characters |
| TypewriterMenu.Cycle | src/components/demos/TypewriterMenuDemo.tsx:25-56 | 2\|t\|+2 steps type, pause, delete and reach the next item, wrapping after the last |
| TypewriterMenu.TypewriterMenuDemo.constructor | src/components/demos/TypewriterMenuDemo.tsx:17-20 | the state starts at item 0, typing, with empty text |
| TypewriterMenu.TypewriterMenuDemo.Tick | src/components/demos/TypewriterMenuDemo.tsx:25-56 | the state variables take one step and keep the prefix invariant |
| TypewriterShortcut.FindCategory | src/components/demos/TypewriterMenuWithShortcut.tsx:33 | the first category with the id, or none when no category has it |
| TypewriterShortcut.CategoriesOf | src/components/demos/TypewriterMenuWithShortcut.tsx:32 | the configured categories, even an empty list, else the defaults |
| TypewriterShortcut.MountCategories | src/components/demos/TypewriterMenuWithShortcut.tsx:32-34 | rendering fails exactly when no category has the selected id `detection`; otherwise the categories are the configured (or default) ones |
| TypewriterShortcut.DefaultCategoriesMount | src/components/demos/TypewriterMenuWithShortcut.tsx:32-34 | a configuration without its own categories mounts on the defaults |
| TypewriterShortcut.EmptyCategoriesFail | src/components/demos/TypewriterMenuWithShortcut.tsx:32-34 | an empty categories list is kept by the fallback and fails to mount |
| TypewriterShortcut.InitialCategoryFound | src/components/demos/TypewriterMenuWithShortcut.tsx:29-33 | the initially selected `detection` is the first default category |
| TypewriterShortcut.TypeAsWritten | src/components/demos/TypewriterMenuWithShortcut.tsx:63-84 | the typing effect as written: nothing unless typing and not waiting; one more character while short; at full length typing stops and waiting starts, and no hint timer is left pending |
| TypewriterShortcut.Type | src/components/demos/TypewriterMenuWithShortcut.tsx:63-84 | as intended (corrected; see ## Findings): nothing unless typing and not waiting; one more character while short; at full length typing stops, waiting starts and the hint timer stays pending |
| TypewriterShortcut.Hint | src/components/demos/TypewriterMenuWithShortcut.tsx:78-80 | when the hint timer is pending, its firing makes `showEnterHint` true and clears the timer; otherwise nothing changes |
| TypewriterShortcut.Press | src/components/demos/TypewriterMenuWithShortcut.tsx:37-56 | only Enter while waiting acts: pressed is shown and a move to (i+1) mod n is scheduled |
| TypewriterShortcut.CompleteEnterAsWritten | src/components/demos/TypewriterMenuWithShortcut.tsx:40-48 | as written: the first pending completion moves to the index it captured, whatever category is now selected, clears the text and restarts typing |
| TypewriterShortcut.CompleteEnter | src/components/demos/TypewriterMenuWithShortcut.tsx:40-48 | as intended (corrected; see ## Findings): a completion from the selected category moves to its index, clears the text, restarts typing and clears waiting, hint and pressed; one from another category is dropped |
| TypewriterShortcut.SelectCategory | src/components/demos/TypewriterMenuWithShortcut.tsx:112-119 | the category is selected, the dropdown closes, and typing restarts on item 0 with empty text, not waiting, no hint |
| TypewriterShortcut.StepAsWritten | src/components/demos/TypewriterMenuWithShortcut.tsx:37-119 | one event as written: only a category click changes the selected category, and only it or the dropdown button the dropdown flag |
| TypewriterShortcut.Step | src/components/demos/TypewriterMenuWithShortcut.tsx:37-119 | one event as intended (corrected; see ## Findings): only a category click changes the selected category, and only it or the dropdown button the dropdown flag |
| TypewriterShortcut.HintNeverShownAsWritten | src/components/demos/TypewriterMenuWithShortcut.tsx:75-83 | as written, from a state where `showEnterHint` is false and no hint timer is pending, no event makes `showEnterHint` true or leaves a timer pending, so `showEnterHint` never becomes true |
| TypewriterShortcut.HintShownAfterTyping | src/components/demos/TypewriterMenuWithShortcut.tsx:75-80 | as intended, once the text is complete the typing step leaves the hint timer pending, and its firing makes `showEnterHint` true while still waiting |
| TypewriterShortcut.InitialValid | src/components/demos/TypewriterMenuWithShortcut.tsx:23-33 | the initial state satisfies the invariant over any categories that contain `detection` and all have items |
| TypewriterShortcut.StepKeepsInv | src/components/demos/TypewriterMenuWithShortcut.tsx:37-119 | as intended (corrected; see ## Findings): over categories that all have items, every event keeps the index on an item of the selected category and the text a prefix of its text |
| TypewriterShortcut.StaleCompletionAsWritten | src/components/demos/TypewriterMenuWithShortcut.tsx:37-50 | as written, Enter then a category switch within the press animation leaves an out-of-range index and a stuck menu |
| TypewriterShortcut.TypewriterMenuWithShortcut.constructor | src/components/demos/TypewriterMenuWithShortcut.tsx:23-33 | mounting with a configuration whose categories mount and all have items: the configured (or default) categories, the initial state, valid |
| TypewriterShortcut.TypewriterMenuWithShortcut.TypeTick | src/components/demos/TypewriterMenuWithShortcut.tsx:63-84 | as intended (corrected; see ## Findings): the state variables take the corrected typing step, keeping the invariant |
| TypewriterShortcut.TypewriterMenuWithShortcut.HintTimerFires | src/components/demos/TypewriterMenuWithShortcut.tsx:78-80 | as intended (corrected; see ## Findings): the pending hint timer makes `showEnterHint` true, keeping the invariant; as written the timer is never pending |
| TypewriterShortcut.TypewriterMenuWithShortcut.KeyPress | src/components/demos/TypewriterMenuWithShortcut.tsx:52-61 | the state variables take the key press, keeping the invariant; a click on the Enter button (lines 148-149) calls the same handler and is `KeyPress("Enter")` |
| TypewriterShortcut.TypewriterMenuWithShortcut.EnterTimerFires | src/components/demos/TypewriterMenuWithShortcut.tsx:40-48 | as intended (corrected; see ## Findings): the state variables take the corrected completion, keeping the invariant |
| TypewriterShortcut.TypewriterMenuWithShortcut.SelectCategory | src/components/demos/TypewriterMenuWithShortcut.tsx:112-119 | the state variables take the category click, keeping the invariant |
| TypewriterShortcut.TypewriterMenuWithShortcut.ToggleDropdown | src/components/demos/TypewriterMenuWithShortcut.tsx:93 | only the dropdown flag flips |
| DiffGenerator.MeasureIndentation | src/lib/diff-generator.ts:50-53 | the length of the leading whitespace run: at most the line, all whitespace, followed by non-whitespace or the end |
| DiffGenerator.TrimLeft | src/lib/diff-generator.ts:81 | the result is no longer than the line and starts with non-whitespace |
| DiffGenerator.IndentationThenText | src/lib/diff-generator.ts:79-81 | the shown text is the line with exactly the measured indentation removed |
| DiffGenerator.CodeX | src/lib/diff-generator.ts:80 | code is never left of the margin |
| DiffGenerator.CodeXExact | src/lib/diff-generator.ts:40-42 | x is `BASE_X + indent * SPACE_WIDTH / INDENT_SIZE`, and the division is exact |
| DiffGenerator.SyntaxHighlight | src/lib/diff-generator.ts:55-64 | the empty line highlights to the empty string |
| DiffGenerator.LineRow | src/lib/diff-generator.ts:79-112 | a row has its line's x, trimmed text, number, baseline and its kind's shape |
| DiffGenerator.PairRows | src/lib/diff-generator.ts:77-115 | a pair gives one or two rows, all with the pair's number, 25 apart, each with its kind's shape |
| DiffGenerator.PairRowsKinds | src/lib/diff-generator.ts:77-115 | an equal pair gives one plain row; otherwise a removed row exactly when the old line exists, then an added row exactly when the new line exists |
| DiffGenerator.DiffRows | src/lib/diff-generator.ts:73-116 | the rows of the first k pairs, pair i numbered i+1 and placed after the previous rows (`RowsEvenlySpaced`, `RowCount`, `RowsConsecutive` and `CreateSvg` state its properties) |
| DiffGenerator.RowsEvenlySpaced | src/lib/diff-generator.ts:68-116 | row j has baseline 95 + 25 j |
| DiffGenerator.RowCount | src/lib/diff-generator.ts:73-116 | k pairs give between k and 2k rows |
| DiffGenerator.RowsNumbered | src/lib/diff-generator.ts:70-115 | line numbers lie between 1 and the number of pairs |
| DiffGenerator.LastRowNumber | src/lib/diff-generator.ts:87-115 | the last row carries the number of the last pair |
| DiffGenerator.ConsecutiveAppend | src/lib/diff-generator.ts:87-115 | appending a pair's rows after the previous number keeps numbering consecutive |
| DiffGenerator.RowsConsecutive | src/lib/diff-generator.ts:70-115 | line numbers never go down and never skip |
| DiffGenerator.RowShapes | src/lib/diff-generator.ts:83-112 | every row has the background and marker its kind calls for |
| DiffGenerator.SameLinesUnchanged | src/lib/diff-generator.ts:77-87 | comparing a text with itself gives one plain row per line |
| DiffGenerator.EmitPair | src/lib/diff-generator.ts:74-116 | one loop iteration emits the pair's rows and moves y 25 per row |
| DiffGenerator.CreateSvg | src/lib/diff-generator.ts:66-138 | the rows are those of all `max(\|old\|, \|new\|)` pairs; height is max(500, y+50) and container height max(410, y-60), with y = 95 + 25 × rows |
| DiffGenerator.GenerateDiff | src/pages/diff.tsx:17-18 | both pictures draw the newline-split texts and have at least one row |
| CommandPalette.CommandsOf | src/components/demos/CommandPaletteDemo.tsx:23 | the configured commands, even an empty list, else the defaults |
| CommandPalette.Matches | src/components/demos/CommandPaletteDemo.tsx:26-28 | a command matches when its lowered title contains the lowered term (`Filter` lists exactly the matches) |
| CommandPalette.Filter | src/components/demos/CommandPaletteDemo.tsx:26-28 | a command is listed exactly when its lowered title contains the lowered term |
| CommandPalette.FilterAppend | src/components/demos/CommandPaletteDemo.tsx:26-28 | the filter keeps the original order |
| CommandPalette.EmptyTermKeepsAll | src/components/demos/CommandPaletteDemo.tsx:26-28 | an empty term lists every command |
| CommandPalette.FilterIgnoresTermCase | src/components/demos/CommandPaletteDemo.tsx:27 | the term's letter case does not matter |
| CommandPalette.FilterSameMatches | src/components/demos/CommandPaletteDemo.tsx:26-28 | terms that match the same commands give the same list |
| CommandPalette.FilterIdempotent | src/components/demos/CommandPaletteDemo.tsx:26-28 | filtering twice is filtering once |
| CommandPalette.NextIndex | src/components/demos/CommandPaletteDemo.tsx:32-39 | ArrowDown moves down unless on the last, ArrowUp up unless on the first, other keys do nothing |
| CommandPalette.NextIndexInRange | src/components/demos/CommandPaletteDemo.tsx:33-38 | one key press keeps an index in [0, len) and never makes it negative |
| CommandPalette.Navigate | src/components/demos/CommandPaletteDemo.tsx:32-39 | the index after a run of key presses (`NavigateInRange`, `ArrowDownReachesLast`) |
| CommandPalette.NavigateInRange | src/components/demos/CommandPaletteDemo.tsx:19-38 | any run of key presses from an index in range stays in range |
| CommandPalette.ArrowDownReachesLast | src/components/demos/CommandPaletteDemo.tsx:33-36 | enough ArrowDown presses reach the last command and stay there |
| CommandPalette.NewFileMatches | src/config/defaults.ts:27 | "New File" is listed under "new" |
| CommandPalette.OpenProjectDoesNotMatch | src/config/defaults.ts:33 | "Open Project" is not listed under "new" |
| CommandPalette.NarrowingLeavesSelectionPastEnd | src/components/demos/CommandPaletteDemo.tsx:18-44 | narrowing the search keeps the old index, which can point past the list until ArrowUp |
| CommandPalette.CommandPaletteDemo.constructor | src/components/demos/CommandPaletteDemo.tsx:17-23 | empty term, index 0, every command listed |
| CommandPalette.CommandPaletteDemo.SearchChange | src/components/demos/CommandPaletteDemo.tsx:78 | only the term changes; the index is kept |
| CommandPalette.CommandPaletteDemo.KeyDown | src/components/demos/CommandPaletteDemo.tsx:31-44 | the index takes the arrow rule against the current list length and stays in range |
| NotificationStack.IconsAndColorsDistinct | src/components/demos/NotificationStackDemo.tsx:17-41 | every type has its own icon and its own colours |
| NotificationStack.Icon | src/components/demos/NotificationStackDemo.tsx:17-28 | the icon of each notification type (`IconsAndColorsDistinct` shows no two types share one) |
| NotificationStack.ColorClasses | src/components/demos/NotificationStackDemo.tsx:30-41 | the background and border classes of each type (`IconsAndColorsDistinct` shows no two types share them) |
| NotificationStack.NotificationsOf | src/components/demos/NotificationStackDemo.tsx:48 | the configured notifications, else the defaults |
| NotificationStack.MaxShown | src/components/demos/NotificationStackDemo.tsx:50 | a missing or zero maximum falls back to 3 |
| NotificationStack.DurationOf | src/components/demos/NotificationStackDemo.tsx:73 | a missing or zero duration means 3000 |
| NotificationStack.RemoveAll | src/components/demos/NotificationStackDemo.tsx:75 | every occurrence of the id goes, every other id keeps its count |
| NotificationStack.ActiveOnes | src/components/demos/NotificationStackDemo.tsx:108-109 | the notifications whose ids are active |
| NotificationStack.ActiveOnesAppend | src/components/demos/NotificationStackDemo.tsx:108-109 | the filter keeps configuration order and multiplicity: it distributes over concatenation |
| NotificationStack.ActiveOnesSingle | src/components/demos/NotificationStackDemo.tsx:108-109 | one notification is kept exactly when its id is active |
| NotificationStack.SliceTo | src/components/demos/NotificationStackDemo.tsx:110 | the first `end` elements; a negative end counts from the back |
| NotificationStack.Visible | src/components/demos/NotificationStackDemo.tsx:108-110 | at most `max` notifications, all active |
| NotificationStack.VisibleIsPrefix | src/components/demos/NotificationStackDemo.tsx:108-110 | the visible list is the active ones when they fit, else their first `max` |
| NotificationStack.ShowNext | src/components/demos/NotificationStackDemo.tsx:61-72 | past the end, resetting starts; otherwise the id is appended and its hide scheduled |
| NotificationStack.Fire | src/components/demos/NotificationStackDemo.tsx:64-77 | a hide removes the id and schedules the next; a show shows; a reset clears and restarts from 0 |
| NotificationStack.InitialValid | src/components/demos/NotificationStackDemo.tsx:58-81 | the mounted state is a reachable state |
| NotificationStack.FireValid | src/components/demos/NotificationStackDemo.tsx:58-81 | every firing keeps the state reachable |
| NotificationStack.AtMostOneVisible | src/components/demos/NotificationStackDemo.tsx:71-110 | with distinct ids, at most one notification is ever on screen |
| NotificationStack.UniqueActive | src/components/demos/NotificationStackDemo.tsx:108-109 | with one active id, exactly its notification is active |
| NotificationStack.NoneActive | src/components/demos/NotificationStackDemo.tsx:108-109 | with no matching id, nothing is active |
| NotificationStack.RunToEnd | src/components/demos/NotificationStackDemo.tsx:71-76 | two firings per notification reach the end of the sequence |
| NotificationStack.Periodic | src/components/demos/NotificationStackDemo.tsx:58-81 | after 2n+1 firings the sequence is back at its start |
| NotificationStack.FiresAdd | src/components/demos/NotificationStackDemo.tsx:58-81 | runs of firings compose |
| NotificationStack.NotificationStackDemo.constructor | src/components/demos/NotificationStackDemo.tsx:43-81 | mounting shows notification 0 in a reachable state |
| NotificationStack.NotificationStackDemo.ShowNextNotification | src/components/demos/NotificationStackDemo.tsx:61-72 | the state variables take `showNextNotification` |
| NotificationStack.NotificationStackDemo.TimerFires | src/components/demos/NotificationStackDemo.tsx:64-77 | the state variables take the firing and stay reachable |
| MacWindow.WindowOf | src/components/MacWindow.tsx:15 | the configured window, else the default |
| MacWindow.ShadowRule | src/components/MacWindow.tsx:45 | a variant turning the shadow off wins; else `lg` gives the large shadow; else undefined |
| MacWindow.ShownTitle | src/components/MacWindow.tsx:75 | the title shows exactly when enabled and non-empty |
| MacWindow.Render | src/components/MacWindow.tsx:11-80 | background, border and title-bar colours come from the variant table; the radius from the style; the title by the title rule; hover lift, mount fade and button hover scale follow the three animation flags |
| MacWindow.BoxShadow | src/components/MacWindow.tsx:28-47 | none for chroma, the glow for glassmorphic, else the large shadow exactly when the style says `lg` |
| MacWindow.GlassExtras | src/components/MacWindow.tsx:28-36 | only glassmorphic gets the blur and its own border |
| MacWindow.Buttons | src/components/MacWindow.tsx:59-74 | the buttons always show: grey for minimal button styles, traffic lights otherwise |
| MacWindow.ColorsFromVariantOnly | src/components/MacWindow.tsx:18-56 | the style's own colours do not affect the frame |
| MacWindow.DefaultFrame | src/components/MacWindow.tsx:15 | with no window section: default colours, large shadow, traffic lights, no title |
| CodeBlock.CharClass | src/components/demos/CodeBlockDemo.tsx:64-74 | brackets yellow, quotes green, the first eight characters of a keyword line purple, dots white, the rest blue; earlier rules win |
| CodeBlock.LineColors | src/components/demos/CodeBlockDemo.tsx:56-78 | one colour per character, by the rule |
| CodeBlock.PurpleOnlyAtStartOfKeywordLines | src/components/demos/CodeBlockDemo.tsx:69 | purple marks only the first eight characters of keyword lines |
| CodeBlock.KeywordAnywhere | src/components/demos/CodeBlockDemo.tsx:69 | only `function` is anchored; `const`, `let`, `var` match anywhere on the line |
| CodeBlock.LinesOf | src/components/demos/CodeBlockDemo.tsx:15 | the code's lines, which rejoin to the code; a missing section is an error |
| CodeBlock.LineNumber | src/components/demos/CodeBlockDemo.tsx:52 | line numbers start at 1 |
| CodeBlock.LineNumbersConsecutive | src/components/demos/CodeBlockDemo.tsx:34-52 | k lines are numbered 1 to k, one apart |
| CodeBlock.CodeBlockDemo.constructor | src/components/demos/CodeBlockDemo.tsx:9-11 | no hovered line, animating, no lines |
| CodeBlock.CodeBlockDemo.CodeChanged | src/components/demos/CodeBlockDemo.tsx:13-18 | the lines are the split code, which rejoin to it, and the animation restarts |
| CodeBlock.CodeBlockDemo.MouseEnter | src/components/demos/CodeBlockDemo.tsx:41-47 | the line becomes hovered, and exactly that line is highlighted |
| CodeBlock.CodeBlockDemo.MouseLeave | src/components/demos/CodeBlockDemo.tsx:41-48 | no line is hovered, so none is highlighted |

## Findings

| source | as written | input that shows it | evidently intended | confidence | as-written member | corrected member |
|---|---|---|---|---|---|---|
| src/components/demos/TypewriterMenuWithShortcut.tsx:75-84 | the hint timeout is scheduled in the same effect run that changes `isTyping` and `isWaitingForEnter`, which are dependencies of that effect, so its cleanup clears the timeout before it fires | any item typed to its full length: the effect re-runs, clears the timer and returns early | `showEnterHint` becomes true after the delay while waiting for Enter. The render (src/components/demos/TypewriterMenuWithShortcut.tsx:86-178) never reads `showEnterHint`, so the defect has no visible effect | not executed | TypewriterShortcut.HintNeverShownAsWritten | TypewriterShortcut.HintShownAfterTyping |
| src/components/demos/TypewriterMenuWithShortcut.tsx:37-50 | the Enter completion captures the item index and item count when Enter is pressed, and the category click at lines 112-119 does not cancel it | waiting on "detect: moon" (item 3 of 4), press Enter, click "Visual Q&A" (3 items) within 150 ms: the index becomes 3 and typing, Enter and timers all do nothing | a pending completion is dropped (or clamped) when the category changes, so the index always names an item | not executed | TypewriterShortcut.StaleCompletionAsWritten | TypewriterShortcut.StepKeepsInv |

## Left out

- Real time: intervals, timeouts and their delays are not clocks. Each firing is one step, in the order the model's events are applied. Animation durations, easing, stagger delays and every float-valued style field are not represented.
- Rendering: markup, CSS classes (except the colour classes named above), framer-motion and the SVG text itself. `DiffGenerator.Svg` holds the row records and the two heights, not the markup string.
- JSON: parsing and serialising are function parameters (`parse`, `serialize`, `encode`, `decode`), and browser storage is a map. A parse that yields a different section kind than the editor's own is excluded by `ConfigEditor.Editor.HandleSave`'s precondition.
- The router, `console.log` calls, the copy button, the custom cursor's effect and the rest of the page chrome.
- Configuration changes after mount: the typewriter menus, palette and stack read their configuration once. The second effect chain that a changed notification list would start is not modelled.
- DiffGenerator.SyntaxHighlight: the regular-expression replacements on non-empty lines are a parameter. Only the empty-line case is fixed.
- Text.Lower: only ASCII letters are lowered, unlike full Unicode `toLowerCase`.
- CodeBlock.LineColors: characters are Unicode scalar values, so a surrogate pair is one character where `split('')` gives two UTF-16 code units; the `charIndex < 8` purple window then counts scalar values rather than code units.
- MobileSequencer: the catalogue is the page's own constant. The category pills' clicks do nothing (their handler is empty), and the video player's playback is not modelled.
- TypewriterMenu: the 1500 ms pause before deleting is the ordinary step into the deleting phase.
- NotificationStack.DurationOf: a `NaN` duration, which `||` would also replace, cannot occur with integer durations.
- CommandPalette: `isOpen` is never changed by the component, so the list is always shown, and the model has no field for it.
- TypewriterShortcut.TypewriterMenuWithShortcut.constructor: mounts only when the categories contain `detection` and every category has items. Without `detection` the source throws while rendering; `TypewriterShortcut.MountCategories` models that crash, and the class has no state for it. A category without items would leave the source typing nothing, because the typing effect returns when there is no current item; the class's invariant, which keeps the index on an item, excludes that case.
- TypewriterShortcut.TypewriterMenuWithShortcut: the class runs the corrected steps (`TypewriterShortcut.Step`). The code as written, whose `showEnterHint` never becomes true and whose stale Enter completion can leave the index past the items, is `TypewriterShortcut.StepAsWritten`, a function on states with no class running it.
