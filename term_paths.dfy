/**
 * Where the program keeps its files: every dictionary is a folder under
 * `resources/`, every term a file in its dictionary's folder, and the
 * viewing history the single file `resources/history.txt`
 * (mainwindow.cpp:13-19, 118, 155, 202, 225).
 */
module TermPaths {

  /** The folder that holds every dictionary. */
  const MainDirectory: string := "resources/"

  /** The file that holds the viewing history. */
  const HistoryFile: string := "resources/history.txt"

  /** The folder of the dictionary selected in the dictionary box. */
  function CurrentDirectory(dictionary: string): (dir: string)
    ensures |dir| == |MainDirectory| + |dictionary| + 1
    ensures dir[..|MainDirectory|] == MainDirectory
    ensures dir[|MainDirectory|..|dir| - 1] == dictionary
    ensures dir[|dir| - 1] == '/'
  {
    MainDirectory + dictionary + "/"
  }

  /** The file that holds `term` in `dictionary`. */
  function TermPath(dictionary: string, term: string): (path: string)
    ensures CurrentDirectory(dictionary) <= path
    ensures path[|CurrentDirectory(dictionary)|..] == term
  {
    CurrentDirectory(dictionary) + term
  }

  /** What the program accepts as the text of a definition to save and as
      the name of a new term: something that is not empty and does not
      start with a space. */
  predicate Accepted(text: string)
  {
    text != [] && text[0] != ' '
  }

  /** The index of the first slash in `s`, or `|s|` when there is none. */
  function SlashIndex(s: string): (i: nat)
    ensures i <= |s|
    ensures i < |s| ==> s[i] == '/'
    ensures '/' !in s[..i]
  {
    if s == [] || s[0] == '/' then 0
    else
      assert s[..1 + SlashIndex(s[1..])] == [s[0]] + s[1..][..SlashIndex(s[1..])];
      1 + SlashIndex(s[1..])
  }

  /** In "<dictionary>/<term>" with a slash-free dictionary name, the first
      slash is the one that ends the dictionary name. */
  lemma {:induction false} SlashIndexEndsDictionary(dictionary: string, term: string)
    requires '/' !in dictionary
    ensures SlashIndex(dictionary + "/" + term) == |dictionary|
  {
    var s := dictionary + "/" + term;
    if dictionary != [] {
      assert s[0] == dictionary[0] != '/';
      assert s[1..] == dictionary[1..] + "/" + term;
      SlashIndexEndsDictionary(dictionary[1..], term);
    }
  }

  /** Dictionary names are folder names, so they never contain a slash; for
      such names, two different (dictionary, term) pairs never give the same
      path string. */
  lemma TermPathInjective(d1: string, t1: string, d2: string, t2: string)
    requires '/' !in d1 && '/' !in d2
    ensures TermPath(d1, t1) == TermPath(d2, t2) <==> d1 == d2 && t1 == t2
  {
    var n := |MainDirectory|;
    var s1, s2 := TermPath(d1, t1)[n..], TermPath(d2, t2)[n..];
    assert s1 == d1 + "/" + t1 && s2 == d2 + "/" + t2;
    SlashIndexEndsDictionary(d1, t1);
    SlashIndexEndsDictionary(d2, t2);
    if TermPath(d1, t1) == TermPath(d2, t2) {
      assert |d1| == SlashIndex(s1) == SlashIndex(s2) == |d2|;
      assert d1 == s1[..|d1|] == s2[..|d2|] == d2;
      assert t1 == s1[|d1| + 1..] == s2[|d2| + 1..] == t2;
    }
  }

  /** The history file lies directly in `resources/`, so no term path string
      of any dictionary is the history file's path string. */
  lemma HistoryFileIsNoTermPath(dictionary: string, term: string)
    ensures TermPath(dictionary, term) != HistoryFile
  {
    var n := |MainDirectory|;
    var p := TermPath(dictionary, term);
    assert p[n..] == dictionary + "/" + term;
    assert p[n + |dictionary|] == '/';
    assert forall i | n <= i < |HistoryFile| :: HistoryFile[i] != '/';
  }
}
