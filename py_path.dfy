/**
 * The part of Python's `pathlib.PurePosixPath` the core uses to name an
 * output file: a path's final component (`.name`), split at its last dot
 * into `.stem` and `.suffix`.
 */
module PyPath {

  import opened PyStr

  /**
   * The final component of a path: the path is cut at every "/", empty
   * components (from repeated, leading or trailing slashes) and "."
   * components are dropped, and the last one left is the name. A path
   * with none left ("", ".", "/") has the empty name.
   */
  function Name(p: String): (r: String)
    ensures '/' !in r && r != "."
    ensures r == [] ==> ImproperAfter(Split(p, '/'), -1)
    ensures r != [] ==> exists k :: 0 <= k < |Split(p, '/')| && Split(p, '/')[k] == r && ImproperAfter(Split(p, '/'), k)
  {
    LastProperComponent(Split(p, '/'))
  }

  /** A component that names nothing: empty (from doubled or end slashes) or ".". */
  predicate Improper(c: String)
  {
    c == [] || c == "."
  }

  /** Every component after index `k` is improper. */
  predicate ImproperAfter(parts: seq<String>, k: int)
  {
    forall m :: 0 <= m < |parts| && k < m ==> Improper(parts[m])
  }

  /**
   * The last component of `parts` that is neither empty nor ".", or the
   * empty string when every component is empty or ".".
   */
  function LastProperComponent(parts: seq<String>): (r: String)
    requires forall k :: 0 <= k < |parts| ==> '/' !in parts[k]
    ensures '/' !in r && r != "."
    ensures r == [] ==> ImproperAfter(parts, -1)
    ensures r != [] ==> exists k :: 0 <= k < |parts| && parts[k] == r && ImproperAfter(parts, k)
  {
    if parts == [] then []
    else
      var n := |parts| - 1;
      var last := parts[n];
      if Improper(last) then
        var r := LastProperComponent(parts[..n]);
        assert forall m :: 0 <= m < n ==> parts[..n][m] == parts[m];
        r
      else
        assert parts[n] == last && ImproperAfter(parts, n);
        last
  }

  /** The name of `dir/base` is `base` when `base` is a proper component. */
  lemma NameOfChild(dir: String, base: String)
    requires '/' !in base && !Improper(base)
    ensures Name(dir + "/" + base) == base
  {
    var p := dir + "/" + base;
    assert p[|dir|] == '/' && p[|dir| + 1..] == base;
    SplitLast(p, '/', |dir|);
  }

  /** The last piece of a split is what follows the last separator. */
  lemma {:induction false} SplitLast(s: String, d: char, j: nat)
    requires j < |s| && s[j] == d && d !in s[j + 1..]
    ensures Split(s, d)[|Split(s, d)| - 1] == s[j + 1..]
    decreases |s|
  {
    var i := IndexOf(s, d);
    var rest := s[i + 1..];
    SplitLastOfRest(s, d, i, rest);
    if i == j {
      assert Split(rest, d) == [rest];
    } else {
      var k := j - (i + 1);
      DropDrop(s, i + 1, k);
      SplitLast(rest, d, k);
      assert i + 1 + k + 1 == j + 1;
    }
    assert Split(rest, d)[|Split(rest, d)| - 1] == s[j + 1..];
  }

  /** A split ends with the same piece as the split of what follows the first separator. */
  lemma SplitLastOfRest(s: String, d: char, i: nat, rest: String)
    requires d in s && i == IndexOf(s, d) && rest == s[i + 1..]
    ensures Split(s, d)[|Split(s, d)| - 1] == Split(rest, d)[|Split(rest, d)| - 1]
  {
    LastOfCons(Split(s, d), s[..i], Split(rest, d));
  }

  /** Dropping `a` elements, then `k` or `k + 1` more, is dropping `a + k` or `a + k + 1`. */
  lemma DropDrop<T>(s: seq<T>, a: nat, k: nat)
    requires a + k < |s|
    ensures s[a..][k] == s[a + k] && s[a..][k + 1..] == s[a + k + 1..]
  {
  }

  /** A sequence made of an element followed by a non-empty sequence ends as that sequence does. */
  lemma LastOfCons(parts: seq<String>, x: String, rest: seq<String>)
    requires rest != [] && parts == [x] + rest
    ensures parts[|parts| - 1] == rest[|rest| - 1]
  {
  }

  /** A name `stem.ext` whose extension holds no dot has stem `stem`. */
  lemma StemBeforeLastDot(stem: String, ext: String)
    requires stem != [] && ext != [] && '.' !in ext
    ensures Stem(stem + "." + ext) == stem
  {
    var name := stem + "." + ext;
    var i := |stem|;
    assert name[i] == '.' && name[i + 1..] == ext;
    var r := Suffix(name);
    assert r == name[i..];
  }

  /** `s.rfind(c)`: the index of the last occurrence of `c` in `s`, or -1. */
  function RFind(s: String, c: char): (i: int)
    ensures -1 <= i < |s|
    ensures i >= 0 ==> s[i] == c
    ensures forall k :: i < k < |s| ==> s[k] != c
  {
    if s == [] then -1
    else if s[|s| - 1] == c then |s| - 1
    else RFind(s[..|s| - 1], c)
  }

  /** Whether `name` has a suffix: its last dot is neither its first nor its last code point. */
  predicate HasSuffix(name: String)
  {
    var i := RFind(name, '.');
    0 < i < |name| - 1
  }

  /**
   * `.suffix`: from the last dot on, when that dot starts a suffix; otherwise
   * empty. There is a suffix exactly when some dot, with no dot after it,
   * is neither the name's first nor its last code point; the suffix is
   * then the end of the name from that dot on.
   */
  function Suffix(name: String): (r: String)
    ensures r != [] <==> exists i :: 0 < i < |name| - 1 && name[i] == '.' && '.' !in name[i + 1..]
    ensures r != [] ==> 2 <= |r| < |name| && r == name[|name| - |r|..] && r[0] == '.' && '.' !in r[1..]
  {
    if HasSuffix(name) then name[RFind(name, '.')..] else []
  }

  /**
   * `.stem`: the name without its suffix. Stem and suffix put together give
   * the name back; a non-empty suffix is a dot followed by at least one code
   * point and no further dot, and the stem before it is not empty.
   */
  function Stem(name: String): (r: String)
    ensures r + Suffix(name) == name
    ensures Suffix(name) == [] || (
      && |Suffix(name)| >= 2 && Suffix(name)[0] == '.' && '.' !in Suffix(name)[1..]
      && r != [])
  {
    if HasSuffix(name) then name[..RFind(name, '.')] else name
  }
}
