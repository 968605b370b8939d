/** The POSIX flavour of Python's os.path functions the pipeline uses to
    name its folders and artifacts: rfind, basename, splitext and join. */
module Paths {

  type Path = string

  const Sep: char := '/'
  const ExtSep: char := '.'

  /** str.rfind(c): the index of the last occurrence of c, or -1. */
  function RFind(s: string, c: char): (r: int)
    ensures -1 <= r < |s|
    ensures r == -1 <==> c !in s
    ensures r >= 0 ==> s[r] == c
    ensures forall k :: r < k < |s| ==> s[k] != c
  {
    if s == [] then -1
    else if s[|s| - 1] == c then |s| - 1
    else
      var r := RFind(s[..|s| - 1], c);
      assert s == s[..|s| - 1] + [s[|s| - 1]];
      r
  }

  /** os.path.basename: everything after the last separator. */
  function Basename(p: Path): (r: Path)
    ensures Sep !in r
    ensures EndsWithPath(p, r)
    ensures Sep !in p ==> r == p
    ensures |r| == |p| || p[|p| - |r| - 1] == Sep
  {
    p[RFind(p, Sep) + 1..]
  }

  predicate EndsWithPath(p: Path, suffix: Path) {
    |suffix| <= |p| && p[|p| - |suffix|..] == suffix
  }

  /** True when p[from..to] holds some character other than a dot. */
  predicate HasNonDot(p: string, from: int, to: int)
    requires 0 <= from <= to <= |p|
  {
    exists k :: from <= k < to && p[k] != ExtSep
  }

  /** os.path.splitext: the extension starts at the last dot of the last
      path component, unless everything before that dot in the component
      is dots (so ".bashrc" and "..x" have no extension). */
  function Splitext(p: Path): (r: (Path, string))
    ensures r.0 + r.1 == p
    ensures r.1 == [] || r.1[0] == ExtSep
    ensures forall k :: 0 <= k < |r.1| ==> r.1[k] != Sep && (k > 0 ==> r.1[k] != ExtSep)
    ensures r.1 != [] <==>
      (RFind(p, ExtSep) > RFind(p, Sep) && HasNonDot(p, RFind(p, Sep) + 1, RFind(p, ExtSep)))
  {
    var sepIndex := RFind(p, Sep);
    var dotIndex := RFind(p, ExtSep);
    if dotIndex > sepIndex && HasNonDot(p, sepIndex + 1, dotIndex) then
      (p[..dotIndex], p[dotIndex..])
    else
      (p, "")
  }

  /** os.path.join(a, b) for two components. */
  function Join(a: Path, b: Path): (r: Path)
    ensures EndsWithPath(r, b)
    ensures |b| > 0 && b[0] == Sep ==> r == b
    ensures !(|b| > 0 && b[0] == Sep) && a != [] && a[|a| - 1] != Sep ==> r == a + [Sep] + b
    ensures !(|b| > 0 && b[0] == Sep) && (a == [] || a[|a| - 1] == Sep) ==> r == a + b
  {
    if |b| > 0 && b[0] == Sep then b
    else if a == [] || a[|a| - 1] == Sep then a + b
    else a + [Sep] + b
  }

  /** A lower-case test of the extension must see ".MP3", not ".mp3". */
  lemma SplitextKeepsCase()
    ensures Splitext("podcast.MP3") == ("podcast", ".MP3")
  {
    var p := "podcast.MP3";
    assert RFind(p, Sep) == -1;
    assert RFind(p, ExtSep) == 7;
    assert p[0] != ExtSep;
    assert HasNonDot(p, 0, 7);
    assert p[..7] == "podcast" && p[7..] == ".MP3";
  }

  /** A dot in a directory name is not an extension. */
  lemma SplitextIgnoresDirectoryDots()
    ensures Splitext("d.v/ep") == ("d.v/ep", "")
  {
    var p := "d.v/ep";
    assert p[3] == Sep && p[4] != Sep && p[5] != Sep;
    assert RFind(p, Sep) == 3;
    assert p[1] == ExtSep && p[2] != ExtSep;
    assert RFind(p, ExtSep) == 1;
  }

  /** A last path component whose dots all lead it (".mp3", "..x") has
      no extension: the component starts at j, p[j..i+1] is all dots, and
      no dot or separator follows. */
  lemma SplitextHiddenFile(p: Path, j: nat, i: nat)
    requires j <= i < |p| && (j == 0 || p[j - 1] == Sep)
    requires forall k :: j <= k <= i ==> p[k] == ExtSep
    requires forall k :: i < k < |p| ==> p[k] != Sep && p[k] != ExtSep
    ensures Splitext(p) == (p, "")
  {
    var s := RFind(p, Sep);
    var d := RFind(p, ExtSep);
    assert p[i] == ExtSep;
    assert d == i;
    assert s == j - 1 by {
      if j > 0 {
        assert p[j - 1] == Sep;
      } else {
        assert forall k :: 0 <= k < |p| ==> p[k] != Sep;
      }
    }
    assert !HasNonDot(p, s + 1, d);
  }

  /** p names an entry strictly inside directory d, d written without a
      trailing separator. */
  predicate InDir(p: Path, d: Path) {
    |d| < |p| && p[..|d|] == d && p[|d|] == Sep
  }

  /** Joining a non-empty relative name gives a longer path. */
  lemma JoinIsLonger(a: Path, b: Path)
    requires b != [] && b[0] != Sep
    ensures |Join(a, b)| > |a|
  {
  }

  /** A relative name joined to a directory lies inside that directory. */
  lemma JoinInDir(d: Path, name: Path)
    requires d != [] && d[|d| - 1] != Sep && name != [] && name[0] != Sep
    ensures InDir(Join(d, name), d)
  {
    assert Join(d, name) == d + [Sep] + name;
    assert (d + [Sep] + name)[..|d|] == d;
  }

  /** Two directories that differ at some position k hold no common entry. */
  lemma DisjointDirs(p: Path, q: Path, d: Path, e: Path, k: nat)
    requires InDir(p, d) && InDir(q, e)
    requires k < |d| && k < |e| && d[k] != e[k]
    ensures p != q
  {
    assert p[k] == p[..|d|][k] == d[k];
    assert q[k] == q[..|e|][k] == e[k];
  }

  /** A name joined to a folder that differs from directory d at position k
      is not inside d. */
  lemma JoinOutside(folder: Path, name: Path, d: Path, k: nat)
    requires k < |folder| && k < |d| && folder[k] != d[k]
    requires name != [] && name[0] != Sep
    ensures !InDir(Join(folder, name), d)
  {
    var pre := if folder[|folder| - 1] == Sep then folder else folder + [Sep];
    assert Join(folder, name) == pre + name;
    assert Join(folder, name)[k] == pre[k] == folder[k];
  }

  /** Appending to a joined relative name is joining the longer name. */
  lemma JoinThenAppend(a: Path, b: Path, c: string)
    requires b != [] && b[0] != Sep
    ensures Join(a, b) + c == Join(a, b + c)
  {
    var pre := if a == [] || a[|a| - 1] == Sep then a else a + [Sep];
    assert Join(a, b) == pre + b;
    assert Join(a, b + c) == pre + (b + c);
  }
}
