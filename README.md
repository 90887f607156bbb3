# NoteSpisok main window — a Dafny model

NoteSpisok is a small glossary program: each dictionary is a folder under
`resources/`, each term is a file in its dictionary's folder, and the file
holds the term's definition. The main window saves, adds and deletes term
files, shows a term's definition when it is selected or typed into the search
field, and keeps a viewing history in `resources/history.txt`.

This project models the file handling of `mainwindow.cpp`:

- `term_paths.dfy` (module `TermPaths`): the file locations
  (`resources/<dictionary>/<term>`, `resources/history.txt`) and the rule that
  accepts a definition or a new term name (not empty, not starting with a
  space). It proves that for dictionary names without a slash, which folder
  names never have, different terms never give the same path string, and
  that no term path string is the history file's path string.
- `term_store.dfy` (module `TermStore`): the term files as a map from path to
  contents, with Read, Saved, Added and Deleted as functions of the map, and
  lemmas that relate them (save then view, add never overwrites, every other
  term is left alone).
- `history.dfy` (module `History`): the viewing history as its list of lines,
  oldest first. `Recorded` is what one view does to it; lemmas cover one view
  and runs of views (absent terms are appended, present ones change nothing,
  the strict 50-line limit, the history being emptied above it, no
  duplicates, the 51-line bound).
- `main_window.dfy` (module `MainWindowModel`): the class `MainWindow`, whose
  fields are the term files and the history lines and whose methods update them
  in place as the program's slots do. `RecordView` keeps the program's
  counting loop with its two flags and its truncation loop. Each method is
  proved against the functions above.
- `wrappers.dfy`: an `Option` type.

The history behaves as the code in `mainwindow.cpp:240-285` does. The new term
is appended at the end of the file. A term already in the file changes
nothing. The truncation pass runs when the file held more than 50 lines
before the view, and it leaves the file empty. Its first pass empties and
closes the file before any line is kept. The term is then not written either,
because the file is closed. This model follows the code, not a
most-recently-used list with move-to-front, a cut to 20 entries, a navigation
cursor with back and next, or an atomic rewrite: none of these are in the
code.

## Model

| member | source | states |
|---|---|---|
| `TermPaths.CurrentDirectory` | mainwindow.cpp:13-19 | the dictionary's folder is `resources/`, then the dictionary name, then a slash |
| `TermPaths.Accepted` | mainwindow.cpp:132-153 | text is accepted, for saving and as a new term name, exactly when it is non-empty and does not start with a space |
| `TermPaths.TermPath` | mainwindow.cpp:225 | a term's file is its dictionary's folder followed by the term name |
| `TermPaths.TermPathInjective` | mainwindow.cpp:15-19 | for slash-free dictionary names, two (dictionary, term) pairs give the same path string exactly when they are equal |
| `TermPaths.HistoryFileIsNoTermPath` | mainwindow.cpp:13-14 | no term path string of any dictionary equals the history file's path string |
| `TermStore.Read` | mainwindow.cpp:225-230 | a definition is shown exactly when the term's file exists and can be opened, and it is the file's contents |
| `TermStore.Saved` | mainwindow.cpp:117-136 | if the file opens, it holds the text and a line break when the text is accepted and is empty otherwise; no other file changes and no file is removed |
| `TermStore.Added` | mainwindow.cpp:152-162 | no existing file is changed or removed; the term's file exists afterwards exactly when it existed before or the name is accepted and the file could be created, and a new file is empty |
| `TermStore.Deleted` | mainwindow.cpp:200-204 | when removal succeeds the term's file is gone, otherwise the files are the same; remaining files keep their contents |
| `TermStore.ReadAfterSave` | mainwindow.cpp:117-133 | viewing a term just saved shows the text and a line break, or an empty definition when the text was not accepted |
| `TermStore.OtherTermsUntouched` | mainwindow.cpp:118-204 | saving, adding or deleting one term leaves what every other (dictionary, term) pair reads, by path string, unchanged |
| `TermStore.AddKeepsDefinition` | mainwindow.cpp:156-161 | adding a term that already has a file keeps its definition |
| `TermStore.DeleteThenAdd` | mainwindow.cpp:153-204 | a deleted term can no longer be viewed, and adding it again gives it an empty definition |
| `History.Recorded` | mainwindow.cpp:240-285 | above 50 lines the history ends empty; otherwise the old lines stay as a prefix, the term is in the history, and it grows by one line exactly when the term was absent |
| `History.RecordAbsent` | mainwindow.cpp:242-280 | an absent term viewed with at most 50 lines becomes the last line and every earlier line keeps its place |
| `History.RecordPresent` | mainwindow.cpp:245-275 | a term already present with at most 50 lines leaves the history unchanged: no reordering and no second copy |
| `History.FiftyLinesGrowToFiftyOne` | mainwindow.cpp:245-254 | the limit is strict and uses the count before the view: 50 lines and a new term give 51 lines |
| `History.OversizeEmpties` | mainwindow.cpp:253-285 | with more than 50 lines the history ends empty and the viewed term is not in it |
| `History.BlankLinesCount` | mainwindow.cpp:245-250 | blank lines count towards the limit: 50 lines plus one blank line empty the history |
| `History.RecordKeepsDistinct` | mainwindow.cpp:242-280 | a history with no duplicate lines keeps none after a view |
| `History.RecordTwiceIsOnce` | mainwindow.cpp:242-280 | below 50 lines, viewing a term twice gives the same history as viewing it once |
| `History.RecordTwiceAtFifty` | mainwindow.cpp:253-280 | at exactly 50 lines, viewing a new term twice empties the history |
| `History.RecordedAllBounded` | mainwindow.cpp:253-280 | from at most 51 lines, any run of views keeps the history at most 51 lines |
| `History.RecordedAllKeepsDistinct` | mainwindow.cpp:245-280 | any run of views keeps a history free of duplicate lines |
| `History.RecordedAllFrom` | mainwindow.cpp:275-280 | every line after a run of views was in the history before or is one of the viewed terms |
| `History.RecordedAllAppends` | mainwindow.cpp:276-279 | while the limit is not passed, a run of views keeps the old history as a prefix and contains every viewed term |
| `History.FreshStartExample` | mainwindow.cpp:242-280 | from an empty history, apple then banana then apple gives the two lines apple and banana |
| `MainWindowModel.MainWindow.ScanHistory` | mainwindow.cpp:242-250 | the counting loop counts every line of the history and its flag is set exactly when the term is absent |
| `MainWindowModel.MainWindow.RecordView` | mainwindow.cpp:240-285 | the counting loop, the truncation loop and the append leave the history as `Recorded` of the old history |
| `MainWindowModel.MainWindow.ViewContents` | mainwindow.cpp:223-286 | shows what `Read` gives; the history is recorded only when both the term's file and the history file open, and is unchanged otherwise |
| `MainWindowModel.MainWindow.Back` | mainwindow.cpp:288-301 | the list it builds is the history's lines in file order, empty when the file does not open; it has no modifies clause, so nothing changes |
| `MainWindowModel.MainWindow.Save` | mainwindow.cpp:112-137 | the term files become `Saved` of the old ones |
| `MainWindowModel.MainWindow.Add` | mainwindow.cpp:144-166 | the term files become `Added` of the old ones |
| `MainWindowModel.MainWindow.DeleteTerm` | mainwindow.cpp:198-208 | the term files become `Deleted` of the old ones |
| `MainWindowModel.BackBetweenViews` | mainwindow.cpp:288-301 | going back twice between two views leaves the history as the two views alone make it, and the term files unchanged |

## Left out

- Widgets and presentation: the dictionary box, the term list, the
  completer, enabling and disabling buttons, and list reloads (`loadTerms`,
  `loadDirectories`, mainwindow.cpp:21-71). Their texts come in as parameters.
  The definition shown in the text field is the value `ViewContents` returns.
- The event wiring that calls `viewContents` on every keystroke in the search
  field and on list clicks (mainwindow.cpp:168-221), and the dialogs
  (dictionaries.cpp, delete.cpp, rename.cpp): these are GUI glue.
- Real file I/O: whether a file can be opened, created or removed is a boolean
  parameter. Text codecs and UTF-8 are not modelled, and neither is creating
  the `resources/` folder (mainwindow.cpp:26). Folders are not files in the
  model.
- Path resolution: paths are compared as strings. A term name typed into the
  search field may contain `/`, such as `./x` or `../history.txt`
  (mainwindow.cpp:152-155, 218-225). The operating system resolves such a name
  to another term's file or to the history file; the model treats it as a file
  of its own. `TermPathInjective`, `HistoryFileIsNoTermPath` and
  `OtherTermsUntouched` speak of path strings, not of files on disk.
- Text encoding: the history is read with the locale's encoding
  (mainwindow.cpp:247) and written as UTF-8 (mainwindow.cpp:278). The model
  assumes the two agree. Where they differ, a non-ASCII term never matches its
  own line and is appended again on every view, so `RecordPresent` and
  `RecordKeepsDistinct` would not hold on disk.
- Missing final line break: the append at mainwindow.cpp:279 writes at the end
  of the file. The model assumes the file ends with a line break, as every
  line the program writes does. If it does not, the term is joined onto the
  last line instead of becoming a line of its own.
- Files as bytes: the history file is modelled as its list of lines. The
  difference between a line read with its line break (mainwindow.cpp:298) and
  one read without it (mainwindow.cpp:247) is not modelled. Terms are assumed
  to hold no line break. A missing history file is the empty list.
- The declarations at mainwindow.h:56-64 (`checkHistoryLength`,
  `updateHistory`, `renameTerm`, a second `viewContents`) have no bodies in the
  source. They are not part of this model.
- "Back" builds its list and then discards it. No term is shown from it. The
  model returns the list.
- The history records the bare term name, not the dictionary, as the code does
  (mainwindow.cpp:279). The same name in two dictionaries is one history line.
- The source dereferences the selected list item without checking it
  (mainwindow.cpp:117, 200). The model takes the selected term as a parameter.
