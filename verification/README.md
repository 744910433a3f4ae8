# FilePicker browsing and selection engine in Dafny

This project models the engine behind the `FilePickerDialogFragment` of the
Android FilePicker library, without its views. It covers:

- the directory lister `listFiles`, which filters a directory's entries by
  selection mode and extensions and then sorts them stably, directories
  first, by the key `SortBy` chooses;
- the list adapter's two lists: the rows, where row 0 is the directory shown
  as "..", and the selection;
- the checkbox rule;
- navigation: the initial directory, entering a directory, the ".." row and
  the back key, and re-listing on a sort change;
- committing and cancelling the selection;
- the `FilePickerOptions` record with its defaults and seven chaining setters;
- the size column's unit loop.

Modules:

- `Files`: entries and the file system. An `Entry` is a snapshot of what
  `java.io.File` reports for one path. A `FileSystem` maps paths to entries
  and directories to their listings. It is passed to every event, as the
  file system stands at that moment.
- `PickerOptions`: `SortBy`, `SelectionMode` and the `FilePickerOptions` class.
- `Ordering`: the two-level comparator and a direct statement of the order it
  means (`InOrder`).
- `StableSort`: `sortedWith`, as a stable insertion sort over any total
  preorder. It is proved to give a sorted permutation that keeps ties in input
  order, and to be the only sequence with those three properties.
- `Lister`: `listFiles` and its properties. `ListerExamples` holds two worked
  listings.
- `Selection`: `updateSelection` as the function `Toggle` on the selection
  list, the checkbox visibility rule, and the checkbox listener. Like
  `java.io.File`, the selection compares entries by path, so an entry listed
  again with a new size or time is the file already selected.
- `Picker`: the classes `FileAdapter` and `FilePickerDialog`.
  - The dialog's invariant `Valid` says that row 0 is the current directory,
    every other row passed the filter, and no two selected entries share a
    path.
    It also says that the selection holds only entries the mode allows, and at
    most one under single selection.
  - Every event handler preserves `Valid`.
  - Toasts are returned as values.
  - The host callback's answer to a cancel is a parameter, and its
    notifications on commit are the returned `Commit` value.
- `SizeLabels`: the unit loop of `getSize`, as written and corrected.

Three behaviours a user might expect that the code does not have; the model
follows the code:

- Under single selection a second toggle of the same entry does not
  deselect it. The list is cleared first, so the entry is always added back
  (`Selection.SingleSelectionHoldsOne`).
- FILE mode lists directories as well as matching files. FILE and BOTH filter
  identically (`Lister.FileAndBothListAlike`).
- Entries whose sort keys tie are not ordered by path. They stay in the order
  the directory listing gave them (`Lister.ListFilesStable`).

The default `FilePickerCallback.onFileSelectionCancelled()` answers true
(filepicker/src/main/java/dev/pranav/filepicker/FilePickerCallback.kt:27). It is
the constant `Picker.DefaultCallbackAllowsCancel`, to pass to `OnCancel`.

## Model

| member | source | states |
|---|---|---|
| Files.LastIndexOf | filepicker/src/main/java/dev/pranav/filepicker/FilePicker.kt:232 | The index of the last occurrence of a character, or -1 exactly when it does not occur. |
| Files.AfterLast | filepicker/src/main/java/dev/pranav/filepicker/FilePicker.kt:232 | What follows the last occurrence of a character, which `File.extension` takes after '.': it holds no such character. It is empty when the character does not occur. Otherwise the text ends in the character followed by it. |
| Files.Resolve | filepicker/src/main/java/dev/pranav/filepicker/FilePicker.kt:43-44 | `File(path)` is the entry at the path. A path where nothing exists gives an unreadable non-directory whose name is the path's last segment and whose parent is the path before it. |
| Files.ParentAndNameSplitPath | filepicker/src/main/java/dev/pranav/filepicker/FilePicker.kt:369-377 | A path with a separator has a parent, its name holds no separator, and parent, separator and name put back together give the path. |
| Files.ParentOfResolved | filepicker/src/main/java/dev/pranav/filepicker/FilePicker.kt:369-377 | In a well-formed snapshot, the `parentFile` of `File(q)` for a path with a separator is the file at the parent path `q` spells ("/" for a child of the root), whether or not anything exists at `q`. |
| Files.ParentOfChild | filepicker/src/main/java/dev/pranav/filepicker/FilePicker.kt:224-225 | The parent path of `File(dir, name)`, for a plain name, is the directory's path, the root included. |
| Files.ParentOfListed | filepicker/src/main/java/dev/pranav/filepicker/FilePicker.kt:369-377 | In a well-formed snapshot, where every listed entry is `File(dir, name)`, the `parentFile` of an entry a directory listed is that directory. |
| PickerOptions.EnumsExhaustive | filepicker/src/main/java/dev/pranav/filepicker/FilePickerOptions.kt:6-22 | There are exactly six distinct sort orders and three distinct selection modes, so every case analysis over them is exhaustive. |
| PickerOptions.SettersIdempotent | filepicker/src/main/java/dev/pranav/filepicker/FilePickerOptions.kt:48-111 | Setting any one field twice to the same value gives the same options as setting it once. |
| PickerOptions.FilePickerOptions.constructor | filepicker/src/main/java/dev/pranav/filepicker/FilePickerOptions.kt:35-41 | A fresh options object has mode FILE, no extensions, no title, single selection, name ascending, the sort button shown and no initial directory. |
| PickerOptions.FilePickerOptions.SetSelectionMode | filepicker/src/main/java/dev/pranav/filepicker/FilePickerOptions.kt:48-51 | Sets exactly the selection mode, leaves the other six fields unchanged and returns the receiver. |
| PickerOptions.FilePickerOptions.SetExtensions | filepicker/src/main/java/dev/pranav/filepicker/FilePickerOptions.kt:58-61 | Sets exactly the extensions, leaves the other six fields unchanged and returns the receiver. |
| PickerOptions.FilePickerOptions.SetTitle | filepicker/src/main/java/dev/pranav/filepicker/FilePickerOptions.kt:68-71 | Sets exactly the title, leaves the other six fields unchanged and returns the receiver. |
| PickerOptions.FilePickerOptions.SetMultipleSelection | filepicker/src/main/java/dev/pranav/filepicker/FilePickerOptions.kt:78-81 | Sets exactly the multiple-selection flag, leaves the other six fields unchanged and returns the receiver. |
| PickerOptions.FilePickerOptions.SetSortBy | filepicker/src/main/java/dev/pranav/filepicker/FilePickerOptions.kt:88-91 | Sets exactly the sort order, leaves the other six fields unchanged and returns the receiver. |
| PickerOptions.FilePickerOptions.SetShowSortOption | filepicker/src/main/java/dev/pranav/filepicker/FilePickerOptions.kt:98-101 | Sets exactly the sort-button flag, leaves the other six fields unchanged and returns the receiver. |
| PickerOptions.FilePickerOptions.SetInitialDirectory | filepicker/src/main/java/dev/pranav/filepicker/FilePickerOptions.kt:108-111 | Sets exactly the initial directory, leaves the other six fields unchanged and returns the receiver. |
| PickerOptions.ConfigureChain | filepicker/src/main/java/dev/pranav/filepicker/FilePickerOptions.kt:48-91 | Because each setter returns its receiver, a chain of setters on a fresh object configures that one object: the defaults with exactly the chained fields replaced. |
| Ordering.LexCmp | filepicker/src/main/java/dev/pranav/filepicker/FilePicker.kt:246 | `String.compareTo` in sign only: it is zero exactly on equal strings. |
| Ordering.LexCmpFlip | filepicker/src/main/java/dev/pranav/filepicker/FilePicker.kt:246-247 | Swapping the two strings negates the string comparison. |
| Ordering.LexCmpTrans | filepicker/src/main/java/dev/pranav/filepicker/FilePicker.kt:246-247 | The string comparison's "not after" is transitive. |
| Ordering.KeyCmp | filepicker/src/main/java/dev/pranav/filepicker/FilePicker.kt:245-252 | The second-level key comparison returns a sign. |
| Ordering.Cmp | filepicker/src/main/java/dev/pranav/filepicker/FilePicker.kt:244 | A directory always compares before a file, and a file after a directory. |
| Ordering.CmpMeansInOrder | filepicker/src/main/java/dev/pranav/filepicker/FilePicker.kt:243-253 | The comparator puts `a` no later than `b` exactly when they are in order. That is, `a` is a directory and `b` a file, or they are of the same kind and the lowercased name, length or modification time of `a` is not after that of `b` in the chosen direction. |
| Ordering.CmpFlip | filepicker/src/main/java/dev/pranav/filepicker/FilePicker.kt:243-253 | The comparator is antisymmetric in sign, for every sort order. |
| Ordering.CmpTrans | filepicker/src/main/java/dev/pranav/filepicker/FilePicker.kt:243-253 | The comparator's "not after" is transitive, for every sort order. |
| Ordering.TieTrans | filepicker/src/main/java/dev/pranav/filepicker/FilePicker.kt:243-253 | Ties under the comparator are transitive, so tie classes are well defined. |
| StableSort.Insert | filepicker/src/main/java/dev/pranav/filepicker/FilePicker.kt:243 | One insertion step adds exactly the inserted element. |
| StableSort.Sort | filepicker/src/main/java/dev/pranav/filepicker/FilePicker.kt:243 | `sortedWith` returns a permutation of its input. |
| StableSort.InsertSorted | filepicker/src/main/java/dev/pranav/filepicker/FilePicker.kt:243 | Inserting into a sorted sequence keeps it sorted. |
| StableSort.SortSorted | filepicker/src/main/java/dev/pranav/filepicker/FilePicker.kt:243 | The sort's result is sorted pairwise, for any total preorder. |
| StableSort.InsertStable | filepicker/src/main/java/dev/pranav/filepicker/FilePicker.kt:243 | An inserted element lands after every element it ties with. |
| StableSort.SortStable | filepicker/src/main/java/dev/pranav/filepicker/FilePicker.kt:243 | The sort is stable: each tie class appears in the result in its input order. |
| StableSort.SortedUnique | filepicker/src/main/java/dev/pranav/filepicker/FilePicker.kt:243 | Two sorted permutations of each other whose tie classes come in the same order are equal. |
| StableSort.SortCharacterised | filepicker/src/main/java/dev/pranav/filepicker/FilePicker.kt:243 | Any sorted, stable permutation of the input is the sort's result, so the result is exactly what a stable sort returns. |
| Lister.KeepRule | filepicker/src/main/java/dev/pranav/filepicker/FilePicker.kt:226-239 | FOLDER mode keeps exactly the directories. In FILE and BOTH mode an entry is kept exactly when it is a directory, the extension list is empty, or its extension equals one of the listed extensions. |
| Lister.FilterSpec | filepicker/src/main/java/dev/pranav/filepicker/FilePicker.kt:225-241 | The filter's result holds exactly the entries that pass. Each appears as often as in the input, and no entry that fails appears. |
| Lister.ComparatorTotalPreorder | filepicker/src/main/java/dev/pranav/filepicker/FilePicker.kt:243-253 | The comparator `listFiles` sorts with is a total preorder for every sort order. |
| Lister.ListFiles | filepicker/src/main/java/dev/pranav/filepicker/FilePicker.kt:224-255 | `listFiles` holds exactly the directory's entries the options admit, and it is a permutation of the filtered entries. |
| Lister.ListFilesOrdered | filepicker/src/main/java/dev/pranav/filepicker/FilePicker.kt:243-253 | Every pair of listed entries is in order, and every directory precedes every file, whatever the sort order. |
| Lister.ListFilesStable | filepicker/src/main/java/dev/pranav/filepicker/FilePicker.kt:243-254 | Entries whose keys tie appear in the listing in the order the directory listed them. |
| Lister.ListFilesCharacterised | filepicker/src/main/java/dev/pranav/filepicker/FilePicker.kt:224-255 | Any ordered, stable permutation of the admitted entries equals the listing, so the listing is determined by the options and the directory. |
| Lister.FolderListsDirectoriesOnly | filepicker/src/main/java/dev/pranav/filepicker/FilePicker.kt:226-227 | In FOLDER mode the listing holds directories only. |
| Lister.FileAndBothListAlike | filepicker/src/main/java/dev/pranav/filepicker/FilePicker.kt:228-239 | FILE and BOTH mode give the same listing for every directory and extension list. |
| ListerExamples.FileModeWithExtensions | filepicker/src/main/java/dev/pranav/filepicker/FilePicker.kt:224-255 | In FILE mode with extensions "zip" and "tar", a directory `sub`, `a.zip` and `b.txt` list as `sub`, then `a.zip`. |
| ListerExamples.FolderModeByName | filepicker/src/main/java/dev/pranav/filepicker/FilePicker.kt:224-255 | In FOLDER mode by name ascending, `a.zip`, `sub1` and `sub2` list as `sub1`, then `sub2`. |
| Selection.RemovePath | filepicker/src/main/java/dev/pranav/filepicker/FilePicker.kt:468 | `MutableList.remove` on files shortens the list by one when an entry with the path is present, changes nothing otherwise, and never adds an entry. |
| Selection.RemovePathDropsFirst | filepicker/src/main/java/dev/pranav/filepicker/FilePicker.kt:468 | What `remove` drops is the first entry with the path; the rest keeps its order. |
| Selection.RemovePathCount | filepicker/src/main/java/dev/pranav/filepicker/FilePicker.kt:468 | `remove` takes exactly one copy of the path out of the selection's paths. |
| Selection.Toggle | filepicker/src/main/java/dev/pranav/filepicker/FilePicker.kt:463-471 | Under single selection the result is exactly the toggled entry. Under multiple selection an entry whose file is absent is appended, and when its file is present one copy of that path is removed. |
| Selection.ToggleKeepsNoDuplicates | filepicker/src/main/java/dev/pranav/filepicker/FilePicker.kt:463-471 | A toggle keeps the selection free of repeated paths. Afterwards the file is selected exactly when selection is single or it was not selected before. |
| Selection.ToggleAddsOnlyItsEntry | filepicker/src/main/java/dev/pranav/filepicker/FilePicker.kt:463-471 | A toggle selects nothing but its entry and what was already selected. |
| Selection.ToggleTwiceRestores | filepicker/src/main/java/dev/pranav/filepicker/FilePicker.kt:467-470 | Under multiple selection, toggling an unselected file twice restores the selection exactly. |
| Selection.ToggleTwiceReorders | filepicker/src/main/java/dev/pranav/filepicker/FilePicker.kt:467-470 | Under multiple selection, toggling a selected file twice removes the entry held for it and appends the toggled entry at the end, so the same files stay selected. |
| Selection.RelistedEntryIsSameFile | filepicker/src/main/java/dev/pranav/filepicker/FilePicker.kt:436-442 | Under multiple selection, an entry with the path of a selected one, even with another size or time, is that file: toggling or unticking it empties a selection of that one file. |
| Selection.RelistedEntryUnderSingleSelection | filepicker/src/main/java/dev/pranav/filepicker/FilePicker.kt:463-470 | Under single selection the list is cleared first, so toggling or unticking a re-listed selected file leaves just its new entry. |
| Selection.SingleSelectionHoldsOne | filepicker/src/main/java/dev/pranav/filepicker/FilePicker.kt:464-470 | Under single selection a toggle always leaves exactly one entry, never empties the selection, and a later toggle replaces it. |
| Selection.ToggleScenario | filepicker/src/main/java/dev/pranav/filepicker/FilePicker.kt:463-471 | Under multiple selection, toggling two different files f1, f2 and then f1 again leaves just f2. |
| Selection.CheckboxRule | filepicker/src/main/java/dev/pranav/filepicker/FilePicker.kt:399-416 | A checkbox shows exactly on rows after the ".." row whose entry the mode allows: every row in BOTH, directories in FOLDER, files in FILE. |
| Selection.OnChecked | filepicker/src/main/java/dev/pranav/filepicker/FilePicker.kt:438-444 | Unticking an unselected file changes nothing. Under single selection any effective tick or untick leaves just that entry. Under multiple selection ticking an unselected file appends it, and ticking or unticking a selected file removes it. |
| Picker.FileAdapter.constructor | filepicker/src/main/java/dev/pranav/filepicker/FilePicker.kt:311-313 | A new adapter has no rows and no selection. |
| Picker.FileAdapter.SetFiles | filepicker/src/main/java/dev/pranav/filepicker/FilePicker.kt:318-326 | The rows become the root followed by the listing. The selection is cleared exactly under single selection and kept otherwise. |
| Picker.FileAdapter.UpdateSelection | filepicker/src/main/java/dev/pranav/filepicker/FilePicker.kt:463-471 | The new selection is the toggle of the old one by the entry, and the rows are unchanged. |
| Picker.FileAdapter.OnCheckedChanged | filepicker/src/main/java/dev/pranav/filepicker/FilePicker.kt:438-444 | The checkbox listener of a visible checkbox updates the selection by the listener rule, and the rows are unchanged. |
| Picker.FileAdapter.GetSelectedFiles | filepicker/src/main/java/dev/pranav/filepicker/FilePicker.kt:496 | Returns the selection as it stands. |
| Picker.FilePickerDialog.constructor | filepicker/src/main/java/dev/pranav/filepicker/FilePicker.kt:43-125 | The session starts in the initial directory when one is set, else in the default root. The rows are that directory and its listing, the selection is empty, the dialog is open and the invariant holds. |
| Picker.FilePickerDialog.Refresh | filepicker/src/main/java/dev/pranav/filepicker/FilePicker.kt:306-309 | Re-listing shows the current directory and its listing under the current options, clears the selection exactly under single selection, and keeps the invariant. |
| Picker.FilePickerDialog.OnRowClick | filepicker/src/main/java/dev/pranav/filepicker/FilePicker.kt:418-432 | Clicking a readable directory enters and lists it. Clicking an unreadable one only yields "Cannot read directory", and clicking a file changes nothing. The invariant holds throughout. |
| Picker.FilePickerDialog.OnParentClick | filepicker/src/main/java/dev/pranav/filepicker/FilePicker.kt:368-380 | The ".." row moves to the parent and lists it exactly when the parent exists and is readable. Otherwise it only yields "Cannot read parent directory" and changes nothing. |
| Picker.FilePickerDialog.OnKey | filepicker/src/main/java/dev/pranav/filepicker/FilePicker.kt:167-185 | The back key's release is consumed and acts as the ".." row: the parent is listed and the selection is cleared exactly under single selection. Every other key is not consumed and changes nothing. |
| Picker.FilePickerDialog.OnSortItem | filepicker/src/main/java/dev/pranav/filepicker/FilePicker.kt:261-300 | The menu opens only from the sort button, which exists only when `showSortOption` is set (FilePicker.kt:103-110). A sort item sets exactly the sort order and re-lists the current directory. Any other item is not handled and changes nothing. |
| Picker.FilePickerDialog.OnChecked | filepicker/src/main/java/dev/pranav/filepicker/FilePicker.kt:438-444 | A visible checkbox changing updates the selection by the listener rule and keeps the invariant, including distinct paths and at most one entry under single selection. |
| Picker.FilePickerDialog.OnSelect | filepicker/src/main/java/dev/pranav/filepicker/FilePicker.kt:80-101 | With nothing selected the mode's message is returned and the dialog stays open. Otherwise it closes and exactly one callback fires. Under multiple selection that is the whole list; under single selection it is the one selected entry. |
| Picker.FilePickerDialog.OnCancel | filepicker/src/main/java/dev/pranav/filepicker/FilePicker.kt:62-72 | The dialog closes exactly when the callback allows it, the directory is unchanged and the invariant holds. |
| SizeLabels.StepsSaturate | filepicker/src/main/java/dev/pranav/filepicker/FilePicker.kt:489-492 | Above 1024^k bytes the unit loop uses every one of the k divisions it is allowed. |
| SizeLabels.UnitAsWritten | filepicker/src/main/java/dev/pranav/filepicker/FilePicker.kt:486-492 | The loop as written divides while the amount exceeds 1024 and the index is below five. The amount times 1024^index is the length. |
| SizeLabels.AsWrittenOverruns | filepicker/src/main/java/dev/pranav/filepicker/FilePicker.kt:486-493 | Every length above 1024^5 bytes drives the as-written index to 5, past the last of the five unit names. |
| SizeLabels.AsWrittenOverrunsAtTwoPebibytes | filepicker/src/main/java/dev/pranav/filepicker/FilePicker.kt:486-493 | A length of 2^51 bytes is such a length. |
| SizeLabels.StepsMinimal | filepicker/src/main/java/dev/pranav/filepicker/FilePicker.kt:489-492 | The loop divides only while it must: after u > 0 divisions the length exceeds 1024^u. |
| SizeLabels.GetSize | filepicker/src/main/java/dev/pranav/filepicker/FilePicker.kt:477-494 | A directory shows "Directory". A file shows its length divided by 1024^k with unit name k, where k always names a unit. The amount exceeds 1024 only in the largest unit and is above 1 in every unit but bytes. |

## Findings

| source | as written | input that shows it | evidently intended | confidence | as-written member | corrected member |
|---|---|---|---|---|---|---|
| filepicker/src/main/java/dev/pranav/filepicker/FilePicker.kt:489 | the loop guard `unit < units.size` allows a fifth division, leaving `unit == 5` for `units[unit]` in a five-element array | a file of length 2^51 bytes (2 PiB), or any length above 1024^5 | stop at the last unit, `unit < units.size - 1`, showing the amount in TiB | not executed; high for the index, low for impact, since files that large are rare | SizeLabels.AsWrittenOverruns | SizeLabels.GetSize |

## Left out

- Android views: widget wiring, titles, transitions, window insets, the divider, `visibleViewHolders` and `updateCheckboxState`. Toasts are returned as values, not shown.
- The storage permission request (`requestManageAllFilesPermission`). It is operating-system intents. Its effect appears only as each entry's `readable` flag.
- Real file-system calls. `listFiles`, `canRead`, `length`, `lastModified` and `parentFile` are read from a `FileSystem` snapshot value given to each event. Readability of a listed directory is the one recorded when it was listed.
- `Files.Resolve`: the name and parent of a path where nothing exists are taken from the path as given, with '/' as the separator. `java.io.File` first normalises repeated and trailing separators.
- `Files.FileSystem` does not itself force an entry to carry the path it is recorded under, its parent to be the one its path spells, or its listings to agree with `entries` on attributes. `Files.WellFormed` states the first two and that a listed entry is `File(dir, name)` for its listing directory and a plain name; the lemmas about `parentFile` assume it, the other operations do not need it. Rows and selected entries are snapshots taken when listed; only their paths decide selection.
- `Ordering.Lower`: locale-aware `lowercase` is modelled for ASCII letters only. Strings compare by Dafny characters, not by UTF-16 code units.
- Aliasing is not modelled. The options object and the caller share the extensions array, and `getSelectedFiles` returns the adapter's live list. The model copies both as values.
- `isCancelable = false` and the dialog lifecycle (`onStart`, `onResume`) are not modelled beyond `Refresh`, which `onResume` performs.
- `SizeLabels.GetSize`: the Long-to-Double conversion of lengths above 2^53 is exact in the model, and `String.format` with two decimals and the locale is not modelled. Date formatting is not modelled.
- The sample host activities in the app module are not part of this model.
