/**
 * The term files as the program sees them: a map from file path to file
 * contents. Each operation is stated here as a function of the store before
 * it; the `MainWindow` class applies them in place. Whether the operating
 * system lets a file be opened, created or removed is a parameter.
 */
module TermStore {
  import opened Wrappers
  import opened TermPaths

  /** Every file under `resources/`, by path string. Paths are compared as
      strings: `./` and `../` in a term name are not resolved. */
  type Files = map<string, string>

  /** The contents of `term` in `dictionary`, if its file exists and can be
      opened for reading (mainwindow.cpp:225-230). */
  function Read(files: Files, dictionary: string, term: string, readable: bool): (r: Option<string>)
    ensures r.Some? <==> readable && TermPath(dictionary, term) in files
    ensures r.Some? ==> r.value == files[TermPath(dictionary, term)]
  {
    var path := TermPath(dictionary, term);
    if readable && path in files then Some(files[path]) else None
  }

  /** "Save": the term's file is opened write-only, which empties it, and the
      text followed by a line break is written only when it is accepted
      (mainwindow.cpp:117-136). */
  function Saved(files: Files, dictionary: string, term: string, text: string, opens: bool): (r: Files)
    ensures !opens ==> r == files
    ensures opens ==> TermPath(dictionary, term) in r
    ensures opens && Accepted(text) ==> r[TermPath(dictionary, term)] == text + "\n"
    ensures opens && !Accepted(text) ==> r[TermPath(dictionary, term)] == ""
    ensures r.Keys <= files.Keys + {TermPath(dictionary, term)}
    ensures forall p :: p in files && p != TermPath(dictionary, term) ==> p in r && r[p] == files[p]
  {
    if !opens then files
    else files[TermPath(dictionary, term) := if Accepted(text) then text + "\n" else ""]
  }

  /** "Add": an accepted name whose file does not exist yet gets an empty file
      (if it can be created); an existing file is never overwritten
      (mainwindow.cpp:152-162). */
  function Added(files: Files, dictionary: string, name: string, creates: bool): (r: Files)
    ensures files.Keys <= r.Keys
    ensures forall p :: p in files ==> r[p] == files[p]
    ensures r.Keys <= files.Keys + {TermPath(dictionary, name)}
    ensures TermPath(dictionary, name) in r <==>
              TermPath(dictionary, name) in files || (Accepted(name) && creates)
    ensures TermPath(dictionary, name) !in files && TermPath(dictionary, name) in r ==>
              r[TermPath(dictionary, name)] == ""
  {
    var path := TermPath(dictionary, name);
    if Accepted(name) && path !in files && creates then files[path := ""] else files
  }

  /** "Delete": the term's file is removed only if it exists (and the
      removal succeeds); nothing else changes (mainwindow.cpp:200-204). */
  function Deleted(files: Files, dictionary: string, term: string, removes: bool): (r: Files)
    ensures r.Keys == if removes then files.Keys - {TermPath(dictionary, term)} else files.Keys
    ensures forall p :: p in r ==> r[p] == files[p]
  {
    var path := TermPath(dictionary, term);
    if path in files && removes then files - {path} else files
  }

  /** Saving a definition and viewing it again shows what was saved: the text
      and a line break when accepted, an empty definition otherwise. */
  lemma ReadAfterSave(files: Files, dictionary: string, term: string, text: string)
    ensures Read(Saved(files, dictionary, term, text, true), dictionary, term, true)
            == Some(if Accepted(text) then text + "\n" else "")
  {
  }

  /** Saving, adding or deleting one term leaves what every other
      (dictionary, term) pair reads, by path string, as it was. */
  lemma {:induction false} OtherTermsUntouched(files: Files, d: string, t: string, d': string, t': string,
                                               text: string, flag: bool)
    requires '/' !in d && '/' !in d'
    requires d != d' || t != t'
    ensures Read(Saved(files, d, t, text, flag), d', t', true) == Read(files, d', t', true)
    ensures Read(Added(files, d, t, flag), d', t', true) == Read(files, d', t', true)
    ensures Read(Deleted(files, d, t, flag), d', t', true) == Read(files, d', t', true)
  {
    TermPathInjective(d, t, d', t');
  }

  /** Adding a term that already has a file keeps its definition. */
  lemma AddKeepsDefinition(files: Files, dictionary: string, name: string, creates: bool)
    ensures Read(files, dictionary, name, true).Some? ==>
            Read(Added(files, dictionary, name, creates), dictionary, name, true) == Read(files, dictionary, name, true)
  {
  }

  /** A term that has been deleted can no longer be viewed, and adding it
      again gives it an empty definition. */
  lemma DeleteThenAdd(files: Files, dictionary: string, term: string)
    requires Accepted(term)
    ensures Read(Deleted(files, dictionary, term, true), dictionary, term, true) == None
    ensures Read(Added(Deleted(files, dictionary, term, true), dictionary, term, true), dictionary, term, true) == Some("")
  {
  }
}
