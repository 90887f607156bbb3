/**
 * The main window's file handling (mainwindow.cpp): the term files and the
 * history file are fields that its methods update in place. Widgets are not
 * modelled; the text of the dictionary box, the list and the line edit come
 * in as parameters, and so does whether the operating system lets a file be
 * opened, created or removed.
 */
module MainWindowModel {
  import opened Wrappers
  import opened TermPaths
  import opened TermStore
  import opened History

  class MainWindow {
    /** The term files under `resources/`, by path. */
    var files: Files
    /** The lines of `resources/history.txt`, oldest first. */
    var history: seq<string>

    constructor (files0: Files, history0: seq<string>)
      ensures files == files0 && history == history0
    {
      files := files0;
      history := history0;
    }

    /** The first pass over the history file: count every line and note
        whether one of them is `term` (mainwindow.cpp:242-250). */
    method ScanHistory(term: string) returns (entryNumber: nat, notInHistory: bool)
      ensures entryNumber == |history|
      ensures notInHistory <==> term !in history
    {
      notInHistory := true;
      entryNumber := 0;
      while entryNumber < |history|
        invariant entryNumber <= |history|
        invariant notInHistory <==> term !in history[..entryNumber]
      {
        if history[entryNumber] == term {
          notInHistory := false;
        }
        entryNumber := entryNumber + 1;
      }
      assert history[..entryNumber] == history;
    }

    /** Records a view of `term` in the history file, which is open for
        reading and writing (mainwindow.cpp:240-285). `open` tracks whether
        the file is still open and `position` where the next read starts,
        counted in lines. */
    method RecordView(term: string)
      modifies this`history
      ensures history == Recorded(old(history), term)
    {
      var entryNumber, notInHistory := ScanHistory(term);
      var open := true;
      var position: nat := entryNumber;

      if entryNumber > MaxEntries {
        // Every pass reads from where the first pass stopped, empties the
        // file, writes what it kept and closes the file; later passes find
        // it closed.
        for i := 0 to MaxEntries
          invariant i > 0 ==> !open && history == []
          invariant position <= |history| || !open
        {
          var kept: seq<string> := [];
          while open && position < |history|
            invariant open ==> position <= |history|
            invariant i <= KeepAfter ==> kept == []
            decreases |history| - position
          {
            var line := history[position];
            position := position + 1;
            if i > KeepAfter {
              kept := kept + [line];
            }
          }
          history := [];
          position := 0;
          if open {
            history := kept;
          }
          open := false;
        }
      }

      if notInHistory && open {
        history := history + [term];
      }
    }

    /** Shows the definition of `term` in `dictionary` and records the view.
        Nothing is recorded when the term's file cannot be opened, which is
        the case for a name that is still being typed into the search field,
        or when the history file cannot be opened (mainwindow.cpp:223-238). */
    method ViewContents(dictionary: string, term: string, readable: bool, historyOpens: bool)
      returns (shown: Option<string>)
      modifies this`history
      ensures shown == Read(files, dictionary, term, readable)
      ensures history == if shown.Some? && historyOpens then Recorded(old(history), term) else old(history)
    {
      shown := Read(files, dictionary, term, readable);
      if shown.None? {
        return;
      }
      if !historyOpens {
        return;
      }
      RecordView(term);
    }

    /** "Back": reads the history file line by line into a list, in file
        order, and writes nothing (mainwindow.cpp:288-301). The method has no
        modifies clause, so neither the history nor the term files can
        change. */
    method Back(historyOpens: bool) returns (terms: seq<string>)
      ensures historyOpens ==> terms == history
      ensures !historyOpens ==> terms == []
    {
      terms := [];
      if !historyOpens {
        return;
      }
      var position := 0;
      while position < |history|
        invariant position <= |history|
        invariant terms == history[..position]
      {
        terms := terms + [history[position]];
        position := position + 1;
      }
      assert history[..position] == history;
    }

    /** "Save" on the selected term (mainwindow.cpp:112-137). */
    method Save(dictionary: string, term: string, text: string, opens: bool)
      modifies this`files
      ensures files == Saved(old(files), dictionary, term, text, opens)
    {
      if !opens {
        return;
      }
      var path := TermPath(dictionary, term);
      files := files[path := ""];
      if Accepted(text) {
        files := files[path := text + "\n"];
      }
    }

    /** "Add" with the name typed into the search field (mainwindow.cpp:144-166). */
    method Add(dictionary: string, name: string, creates: bool)
      modifies this`files
      ensures files == Added(old(files), dictionary, name, creates)
    {
      if Accepted(name) {
        var path := TermPath(dictionary, name);
        if path !in files {
          if !creates {
            return;
          }
          files := files[path := ""];
        }
      }
    }

    /** Deletes the selected term once the dialog is accepted
        (mainwindow.cpp:198-208). */
    method DeleteTerm(dictionary: string, term: string, removes: bool)
      modifies this`files
      ensures files == Deleted(old(files), dictionary, term, removes)
    {
      var path := TermPath(dictionary, term);
      if path in files {
        if removes {
          files := files - {path};
        }
      }
    }
  }

  /** Going back twice between two views changes nothing: the history is
      what the views alone make of it, and the term files are untouched. */
  method BackBetweenViews(w: MainWindow, dictionary: string, first: string, second: string)
    requires TermPath(dictionary, first) in w.files && TermPath(dictionary, second) in w.files
    modifies w
    ensures w.history == RecordedAll(old(w.history), [first, second])
    ensures w.files == old(w.files)
  {
    ghost var start := w.history;
    var _ := w.ViewContents(dictionary, first, true, true);
    var listed := w.Back(true);
    assert listed == w.history == Recorded(start, first);
    listed := w.Back(true);
    var _ := w.ViewContents(dictionary, second, true, true);
    assert w.history == RecordedAll(Recorded(Recorded(start, first), second), []);
    assert [first, second][1..] == [second] && [second][1..] == [];
  }
}
