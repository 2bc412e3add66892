/** File-system paths as Rust's `std::path::Path` treats them on a Unix host. */
module Paths {
  import opened Wrappers

  /** A path is rooted or not, followed by its normal components: `/proj/src` is
      `Path(true, ["proj", "src"])`, `guide/intro.md` is `Path(false, ["guide", "intro.md"])`
      and the empty path `""` is `Path(false, [])`. */
  datatype Path = Path(absolute: bool, comps: seq<string>)

  function Relative(comps: seq<string>): Path {
    Path(false, comps)
  }

  function LastComp(p: Path): string
    requires p.comps != []
  {
    p.comps[|p.comps| - 1]
  }

  /** `PathBuf::join`: an absolute argument replaces the base, a relative one is appended to it. */
  function Join(base: Path, p: Path): (r: Path)
    ensures r.absolute == (base.absolute || p.absolute)
    ensures p.absolute ==> r == p
    ensures !p.absolute ==> r.comps == base.comps + p.comps
  {
    if p.absolute then p else Path(base.absolute, base.comps + p.comps)
  }

  /** `Path::parent`: `None` for the root and for the empty path, otherwise the path without its
      last component (so the parent of `intro.md` is the empty path). The parent is the path that
      gives back `p` when the last component is joined to it again. */
  function Parent(p: Path): (r: Option<Path>)
    ensures r.None? <==> p.comps == []
    ensures r.Some? ==> r.value.absolute == p.absolute && |r.value.comps| == |p.comps| - 1
    ensures r.Some? ==> Join(r.value, Relative([LastComp(p)])) == p
  {
    if p.comps == [] then None else Some(Path(p.absolute, p.comps[..|p.comps| - 1]))
  }

  /** Components as `Path::components` yields them: non-empty and free of separators. */
  predicate NormalComps(comps: seq<string>) {
    forall i :: 0 <= i < |comps| ==> comps[i] != "" && '/' !in comps[i]
  }

  /** The text of a path, as `to_str` returns it: a rooted path, and only a rooted one, starts
      with a separator, and the text of a relative path is empty only for the empty path. */
  function PathString(p: Path): (r: string)
    ensures NormalComps(p.comps) ==> (p.absolute <==> |r| > 0 && r[0] == '/')
    ensures NormalComps(p.comps) && !p.absolute ==> (r == "" <==> p.comps == [])
  {
    (if p.absolute then "/" else "") + JoinComps(p.comps)
  }

  /** The components separated by `/`; the text starts with the first component. */
  function JoinComps(comps: seq<string>): (r: string)
    ensures comps != [] ==> |r| >= |comps[0]| && r[..|comps[0]|] == comps[0]
    ensures comps == [] ==> r == ""
  {
    if comps == [] then ""
    else if |comps| == 1 then comps[0]
    else comps[0] + "/" + JoinComps(comps[1..])
  }

  /** The text before the first separator: a component followed by `/` and more text splits
      back into that component and that text. */
  /** A shorter component puts its separator where the longer one still has a character. */
  lemma SeparatorPosition(x: string, y: string, u: string, v: string)
    ensures '/' !in y && |x| < |y| ==> x + "/" + u != y + "/" + v
  {
    if '/' !in y && |x| < |y| {
      assert (x + "/" + u)[|x|] == '/';
      assert (y + "/" + v)[|x|] == y[|x|];
    }
  }

  lemma SplitAtSeparator(x: string, y: string, u: string, v: string)
    requires '/' !in x && '/' !in y
    requires x + "/" + u == y + "/" + v
    ensures x == y && u == v
  {
    var s := x + "/" + u;
    SeparatorPosition(x, y, u, v);
    SeparatorPosition(y, x, v, u);
    assert x == s[..|x|] && y == s[..|y|];
    assert u == s[|x| + 1..] && v == s[|y| + 1..];
  }

  /** Normal components are recovered from their text. */
  lemma {:induction false} JoinCompsInjective(a: seq<string>, b: seq<string>)
    requires NormalComps(a) && NormalComps(b) && JoinComps(a) == JoinComps(b)
    ensures a == b
    decreases |a|
  {
    if |a| > 1 && |b| > 1 {
      SplitAtSeparator(a[0], b[0], JoinComps(a[1..]), JoinComps(b[1..]));
      assert NormalComps(a[1..]) by {
        forall i | 0 <= i < |a[1..]| ensures a[1..][i] != "" && '/' !in a[1..][i] { assert a[1..][i] == a[i + 1]; }
      }
      assert NormalComps(b[1..]) by {
        forall i | 0 <= i < |b[1..]| ensures b[1..][i] != "" && '/' !in b[1..][i] { assert b[1..][i] == b[i + 1]; }
      }
      JoinCompsInjective(a[1..], b[1..]);
      assert a == [a[0]] + a[1..] && b == [b[0]] + b[1..];
    }
  }

  /** A path with normal components is determined by its text, so keeping the path where the
      program keeps the text loses nothing. */
  lemma PathStringInjective(p: Path, q: Path)
    requires NormalComps(p.comps) && NormalComps(q.comps) && PathString(p) == PathString(q)
    ensures p == q
  {
    assert p.absolute == q.absolute;
    if p.absolute {
      assert JoinComps(p.comps) == PathString(p)[1..];
      assert JoinComps(q.comps) == PathString(q)[1..];
    } else {
      assert JoinComps(p.comps) == PathString(p);
    }
    JoinCompsInjective(p.comps, q.comps);
  }

  /** Joining is associative, whichever of the three paths are absolute. */
  lemma JoinAssociative(a: Path, b: Path, c: Path)
    ensures Join(Join(a, b), c) == Join(a, Join(b, c))
  {
  }

  /** Joining the empty relative path changes nothing. */
  lemma JoinEmpty(a: Path)
    ensures Join(a, Relative([])) == a
  {
  }

  /** Joining one component and taking the parent gives back the base. */
  lemma ParentOfJoin(a: Path, name: string)
    ensures Parent(Join(a, Relative([name]))) == Some(a)
  {
  }

  /** A relative path joined to a base lies under that base: the base's components come first. */
  lemma JoinRelativeUnder(base: Path, p: Path)
    requires !p.absolute
    ensures Join(base, p).absolute == base.absolute
    ensures Join(base, p).comps[..|base.comps|] == base.comps
  {
  }
}
