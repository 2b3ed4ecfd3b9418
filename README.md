# Category Recorder: a verified model of its category and recording logic

The app lets a user keep a set of category names and record audio clips
into the media store. This project models the logic of its one source file,
`MainActivity.kt`, and proves what that logic guarantees:

- **Categories** (`categories.dfy`). The stored string set and the two edits
  the categories screen makes to it. Adding ignores blank input, trims the
  text and unions it in. Removing subtracts the exact string. Every reachable
  set holds only non-empty trimmed names, and the last edit that names a
  string decides whether it is stored.
- **Display order** (`display.dfy`, `text.dfy`). Both screens order the set
  with `String.CASE_INSENSITIVE_ORDER`. It is modelled as a recursive
  comparator, which is proved to be a total preorder whose zero is exactly
  "equal ignoring case". The categories screen collects the set into a
  comparator-keyed sorted set. Its list is strictly increasing and holds one
  entry per case class: the spelling met first in the set's iteration order.
  The recorder screen sorts a list instead, with a stable sort. Its options
  are a non-decreasing permutation of the set in which names equal ignoring
  case keep their iteration order, so the first option is the spelling met
  first. The set's iteration order belongs to the platform, so it is a
  parameter.
- **Selection** (`selection.dfy`). The collector's auto-select and the
  dropdown's reconciliation effect, as functions on the pair of the
  dropdown's remembered value and the global selection. Afterwards the
  selection is empty or offered. A blank selection takes the first option. A
  selection that is offered is kept, and one that was removed is cleared.
  The methods of `Session` that write `selectedCategory` are proved to do
  what these functions say.
- **Recording** (`recording.dfy`). The process-wide variables `mediaRecorder`,
  `isRecording`, `currentRecordingUri` and `currentPfd` (plus
  `selectedCategory`) are the fields of class `Session`. `startRecording`,
  its catch block, `stopRecording` and the record button are methods on it.
  Class `Platform` stands for the media store, the open file descriptors and
  the live recorders. Each platform call that can fail takes a flag saying
  whether it fails, and the SDK level is a constant of the platform. The
  session invariant says that an idle session holds nothing. A recording
  session holds all three handles: an entry exactly as inserted, a
  descriptor open on that entry, and a live recorder.

The source's templates `"REC_${'$'}timestamp.m4a"` and
`"Recordings/MultiDirRecorder/${'$'}category"` (MainActivity.kt lines 273 and
279) produce a literal dollar sign. So every entry is named
`REC_$timestamp.m4a` and placed under `Recordings/MultiDirRecorder/$category`,
whatever the time and the category. The model follows the code. The values
computed at lines 271-272 are never read, so the model has no counterpart
for them.

Three behaviours of the code that a reader might not expect, all modelled
as written:

- `stopRecording` calls `stop()`, `reset()` and `release()` in one try block.
  When `stop()` or `reset()` throws, `release()` is skipped and the recorder
  stays live, though the variable is cleared. Cleanup is therefore not
  complete in all cases.
- Below SDK level Q no entry has a pending flag.
- A failed start whose update and delete both throw leaves its entry pending.

## Model

| member | source | states |
|---|---|---|
| Text.Trim | app/src/main/java/com/example/android_multi_dir_recorder/MainActivity.kt:126-127 | the trimmed name is the input with a blank prefix and a blank suffix cut off, neither of its ends is whitespace, and it is empty exactly when the input is blank (so `isNotBlank` guards a non-empty name) |
| Text.Compare | app/src/main/java/com/example/android_multi_dir_recorder/MainActivity.kt:114 | the case-insensitive comparator returns zero exactly on strings of equal length whose characters agree ignoring case |
| Text.CompareAntisymmetric | app/src/main/java/com/example/android_multi_dir_recorder/MainActivity.kt:114 | swapping the comparator's arguments negates its result |
| Text.CompareCongruent | app/src/main/java/com/example/android_multi_dir_recorder/MainActivity.kt:114 | strings equal ignoring case compare the same way against every string |
| Text.CompareTransitive | app/src/main/java/com/example/android_multi_dir_recorder/MainActivity.kt:180 | the comparator's order is transitive |
| Text.CompareTransitiveStrict | app/src/main/java/com/example/android_multi_dir_recorder/MainActivity.kt:114 | a chain with one strict step is strict |
| Categories.AddCategory | app/src/main/java/com/example/android_multi_dir_recorder/MainActivity.kt:126-132 | blank input leaves the set as it was; otherwise the trimmed name is non-empty, trimmed, in the result, and nothing else changes; re-adding a stored name changes nothing; a set of names stays a set of names |
| Categories.RemoveCategory | app/src/main/java/com/example/android_multi_dir_recorder/MainActivity.kt:156-158 | the removed string is gone, every other string keeps its membership, removing an absent name changes nothing, and a set of names stays one |
| Categories.EditsKeepNames | app/src/main/java/com/example/android_multi_dir_recorder/MainActivity.kt:126-158 | after any sequence of adds and removes from a set of names (the empty preference included), every stored name is non-empty and trimmed |
| Categories.LastEditDecides | app/src/main/java/com/example/android_multi_dir_recorder/MainActivity.kt:126-158 | after a sequence of edits a name is stored exactly when the last edit naming it is an add, or no edit names it and it was stored before |
| Categories.RemoveUndoesAdd | app/src/main/java/com/example/android_multi_dir_recorder/MainActivity.kt:126-158 | adding a new name and then removing it restores the set |
| Categories.LastMention | app/src/main/java/com/example/android_multi_dir_recorder/MainActivity.kt:126-158 | the index found names the string, and no later edit does; none found means no edit names it |
| Display.AddToSortedSet | app/src/main/java/com/example/android_multi_dir_recorder/MainActivity.kt:114 | adding to a comparator-keyed sorted set keeps it strictly increasing; a name equal (ignoring case) to an entry leaves the set as it was; otherwise exactly that name is added |
| Display.ToSortedSet | app/src/main/java/com/example/android_multi_dir_recorder/MainActivity.kt:114 | the collected set is strictly increasing, holds only input names, has an entry equal ignoring case to every input name, and shows a name only if no earlier name in iteration order equals it ignoring case |
| Display.CategoriesDisplay | app/src/main/java/com/example/android_multi_dir_recorder/MainActivity.kt:114 | the categories screen's list is strictly increasing ignoring case, no two entries are equal ignoring case, every entry is stored, every stored name has an entry equal to it ignoring case, the entry kept is the first spelling in iteration order, and when no two stored names differ only in case all of them are shown |
| Display.InsertSorted | app/src/main/java/com/example/android_multi_dir_recorder/MainActivity.kt:180 | inserting into a non-decreasing list keeps it non-decreasing and adds exactly that name (as a multiset), after every entry equal to it ignoring case: each case class of the result is that of the input with the name appended when it belongs there |
| Display.SortIgnoreCase | app/src/main/java/com/example/android_multi_dir_recorder/MainActivity.kt:180 | the sorted list is non-decreasing ignoring case, a permutation of the input, and stable: the entries equal to any string ignoring case appear in the same order as in the input |
| Display.RecorderOptions | app/src/main/java/com/example/android_multi_dir_recorder/MainActivity.kt:179-180 | the recorder screen's options are every stored name exactly once, in non-decreasing case-insensitive order, with names equal ignoring case in iteration order |
| Display.FirstOptionListedFirst | app/src/main/java/com/example/android_multi_dir_recorder/MainActivity.kt:180-182 | the first option, the one auto-selection takes, is listed before every other stored name equal to it ignoring case in the set's iteration order |
| Display.DistinctSize | app/src/main/java/com/example/android_multi_dir_recorder/MainActivity.kt:180 | a listing of a set without repeats is as long as the set is large (so the options lose and gain no names) |
| Selection.AutoSelect | app/src/main/java/com/example/android_multi_dir_recorder/MainActivity.kt:182 | a blank selection takes the first sorted option when there is one, and a blank selection with no options is kept; a non-blank selection is kept |
| Selection.Reconcile | app/src/main/java/com/example/android_multi_dir_recorder/MainActivity.kt:220-228 | the result is empty or one of the options; a blank selection with options becomes the first option; an offered non-blank selection is kept; a non-blank selection no longer offered, or any selection with no options, is cleared |
| Selection.DropdownEffect | app/src/main/java/com/example/android_multi_dir_recorder/MainActivity.kt:220-228 | the dropdown's current value is reconciled; the global selection becomes that value when the selection was blank with options or is not offered, and is otherwise left as it was (even when it differs from the dropdown's value) |
| Selection.Choose | app/src/main/java/com/example/android_multi_dir_recorder/MainActivity.kt:251-254 | clicking an option selects it in both places |
| Selection.OfferedSelectionKept | app/src/main/java/com/example/android_multi_dir_recorder/MainActivity.kt:224 | when the options are category names, a selection among them is never changed |
| Selection.OnEmission | app/src/main/java/com/example/android_multi_dir_recorder/MainActivity.kt:179-228 | after an emission of a set of names is sorted, auto-selected and reconciled, the two selections agree and are empty or stored; a stored selection is kept; a blank one becomes the first option, which is at or below every stored name ignoring case and is the earliest in iteration order among the names equal to it ignoring case; one that was removed is cleared |
| Selection.FirstEffectClears | app/src/main/java/com/example/android_multi_dir_recorder/MainActivity.kt:218-228 | the dropdown's first effect, run with the initial empty list, clears any selection, so the next emission selects the first option again |
| Recording.NewEntry | app/src/main/java/com/example/android_multi_dir_recorder/MainActivity.kt:273-284 | the inserted row is named `REC_$timestamp.m4a` with MIME `audio/mp4`; it has relative path `Recordings/MultiDirRecorder/$category` and pending 1 exactly from level Q on, and neither column below it |
| Recording.Published | app/src/main/java/com/example/android_multi_dir_recorder/MainActivity.kt:347-349 | the update sets pending to 0 and leaves name, MIME and path alone |
| Recording.Finished | app/src/main/java/com/example/android_multi_dir_recorder/MainActivity.kt:344-352 | a stopped recording's row keeps its name and MIME; from level Q it is published with its path, and below Q it is the row as inserted |
| Recording.Platform.Insert | app/src/main/java/com/example/android_multi_dir_recorder/MainActivity.kt:287-288 | a successful insert adds exactly one row under a fresh id; a failed one adds nothing |
| Recording.Platform.OpenFileDescriptor | app/src/main/java/com/example/android_multi_dir_recorder/MainActivity.kt:290-291 | a successful open adds one fresh descriptor on that row; it fails when asked to or when the row is gone |
| Recording.Platform.Close | app/src/main/java/com/example/android_multi_dir_recorder/MainActivity.kt:342 | a close that does not throw removes the descriptor |
| Recording.Platform.Publish | app/src/main/java/com/example/android_multi_dir_recorder/MainActivity.kt:320-322 | an update that does not throw publishes an existing row and changes nothing else |
| Recording.Platform.Delete | app/src/main/java/com/example/android_multi_dir_recorder/MainActivity.kt:325 | a delete that does not throw removes the row |
| Recording.Platform.NewRecorder | app/src/main/java/com/example/android_multi_dir_recorder/MainActivity.kt:294 | creating a recorder adds one fresh live recorder, or nothing when it fails |
| Recording.Platform.Release | app/src/main/java/com/example/android_multi_dir_recorder/MainActivity.kt:308 | releasing removes the recorder from the live ones |
| Recording.Session.constructor | app/src/main/java/com/example/android_multi_dir_recorder/MainActivity.kt:209-213 | the variables start idle, with every handle null and no selection |
| Recording.Session.HandlesAgree | app/src/main/java/com/example/android_multi_dir_recorder/MainActivity.kt:209-213 | between actions, `isRecording` holds exactly when the recorder, the descriptor and the uri are all set |
| Recording.Session.StartRecording | app/src/main/java/com/example/android_multi_dir_recorder/MainActivity.kt:269-329 | on success: recording, with one new row (the `NewEntry` values), one new descriptor on it and one new live recorder; on any failing step: idle with every handle null, any recorder created released, the descriptors as they were when the insert or the open failed or the close succeeded, and otherwise (the close throws after a successful open) exactly one new descriptor left open on the inserted row, the inserted row deleted unless the delete throws (then left published from level Q when the update succeeded), and no row touched when the insert failed |
| Recording.Session.TrySetup | app/src/main/java/com/example/android_multi_dir_recorder/MainActivity.kt:270-304 | the try block stops at the first failing step: it succeeds exactly when no step fails, and then the session is recording; otherwise it holds exactly the handles set before the failure (the new row under the next id, the descriptor on it, the recorder), each platform collection holding exactly what those steps added |
| Recording.Session.RollBack | app/src/main/java/com/example/android_multi_dir_recorder/MainActivity.kt:305-328 | the catch block releases a held recorder, closes a held descriptor unless that throws, clears the held row's pending flag (level Q on) and then deletes it unless that throws, and nulls every handle |
| Recording.Session.StopRecording | app/src/main/java/com/example/android_multi_dir_recorder/MainActivity.kt:331-355 | whatever throws, ends idle with every handle null; no row is ever deleted; from level Q the row is published unless the update throws; the recorder is released unless `stop` or `reset` threw; the descriptor is closed unless the close throws; when idle nothing is touched |
| Recording.Session.OnButtonClick | app/src/main/java/com/example/android_multi_dir_recorder/MainActivity.kt:359-365 | without `canRecord` it only requests permission and changes no recording state or platform state; otherwise, when idle, it has exactly the effects `StartRecording` states (the row, descriptor and recorder it adds on success, the rollback's effects on each failure), and when recording exactly those `StopRecording` states |
| Recording.StatusText | app/src/main/java/com/example/android_multi_dir_recorder/MainActivity.kt:371-376 | the first matching case wins: the permission message exactly when recording is not possible, the select message exactly when possible with a blank selection, recording or ready exactly when possible with a selection and recording or idle |
| Recording.Session.StatusTextCases | app/src/main/java/com/example/android_multi_dir_recorder/MainActivity.kt:370-376 | with `canRecord` computed from the session's own selection, the status never asks to select a category; it asks for permission exactly when recording is not possible, and shows recording or ready exactly when possible and recording or idle |
| Recording.Session.SelectFirstIfBlank | app/src/main/java/com/example/android_multi_dir_recorder/MainActivity.kt:182 | the collector writes the global selection as `AutoSelect` says and changes no recording state |
| Recording.Session.ReconcileDropdown | app/src/main/java/com/example/android_multi_dir_recorder/MainActivity.kt:220-228 | the dropdown's effect writes the global selection and returns the dropdown's value as `DropdownEffect` says, and changes no recording state |
| Recording.Session.ChooseOption | app/src/main/java/com/example/android_multi_dir_recorder/MainActivity.kt:251-254 | a click on an option writes it to both the dropdown's value and the global selection |
| Recording.RecordOnce | app/src/main/java/com/example/android_multi_dir_recorder/MainActivity.kt:359-363 | two clicks of the record button, with recording possible and no fault, go idle, recording, idle and leave exactly one new row, finished (published from level Q), with no descriptor or recorder left over |

## Left out

- Compose layout, tabs, the text field, cards, the dropdown's `expanded` flag, the "Selecciona" placeholder and the preview: they are UI with no state the logic reads.
- The clearing of the text field after an add (line 133): it is UI state.
- DataStore persistence, Flow collection, coroutines and the order in which `LaunchedEffect`s run: edits are pure functions on the set, one emission is handled as a whole, and write races are not modelled.
- The permission launcher and `checkSelfPermission`: the permission is a boolean input.
- The recorder's settings (microphone source, MPEG-4/AAC, 128000 bit/s, 44100 Hz): they are foreign-library configuration, and only whether that step fails is modelled. `MediaRecorder(context)` and `MediaRecorder()` are the same creation here.
- The DATE_ADDED and DATE_TAKEN columns, `SimpleDateFormat` and the clock: these are clock values, and the name does not use them.
- `printStackTrace`: it is logging.
- Recording.Platform.Release: `release()` is taken never to throw. In the source's catch block an exception from it would escape and skip the rest of the cleanup.
- Recording.Platform.Close: a close that throws is taken to leave the descriptor open, since the platform's behaviour there is not specified.
- Text.IsWhitespace: covers the ASCII whitespace of `Char.isWhitespace` only; Unicode spaces are not modelled.
- Text.FoldCase: folds ASCII letters only, whereas the comparator folds all of Unicode.
- Text.Compare: compares Unicode scalar values where the runtime compares UTF-16 code units, so a name holding a character above U+FFFF (compared there by its high surrogate) can sort differently against a name holding a character in U+E000..U+FFFF; both displays and the first option auto-selection takes can then differ from the device.
- The record button's label (line 367) and its `enabled` flag (line 365): they are UI text and state; the click handler still checks `canRecord` itself, and that check is modelled.
