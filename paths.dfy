/**
 * Paths as sequences of their components, the way `Path::components` sees them.
 * A path is rendered to text by joining its components with the platform's
 * separator; an absolute path carries its root as its first component (the empty
 * component, so that joining `["", "book", "src"]` with '/' gives "/book/src").
 */
module Paths {
  import opened Strings

  type Path = seq<string>

  /** `path.parent().unwrap_or(Path::new(""))`: everything but the last component. */
  function Parent(p: Path): (r: Path)
    ensures |r| == if |p| == 0 then 0 else |p| - 1
    ensures r == p[..|r|]
  {
    if |p| == 0 then [] else p[..|p| - 1]
  }

  /** A path of `n` parent-directory components. */
  function Ups(n: nat): (r: Path)
    ensures |r| == n
    ensures forall i :: 0 <= i < n ==> r[i] == ".."
  {
    seq(n, _ => "..")
  }

  /** A component that names an entry: neither the current nor the parent directory. */
  predicate IsNormal(component: string) {
    component != "." && component != ".."
  }

  /**
   * Lexical resolution of `rel` against the directory `base`, as a browser resolves
   * a relative URL: ".." drops the last component (staying at the top when there is
   * none), "." is skipped, anything else is appended.
   */
  function Resolve(base: Path, rel: Path): Path
    decreases |rel|
  {
    if |rel| == 0 then base
    else if rel[0] == ".." then Resolve(Parent(base), rel[1..])
    else if rel[0] == "." then Resolve(base, rel[1..])
    else Resolve(base + [rel[0]], rel[1..])
  }

  /** Resolving normal components only appends them. */
  lemma {:induction false} ResolveNormal(base: Path, rel: Path)
    requires forall i :: 0 <= i < |rel| ==> IsNormal(rel[i])
    ensures Resolve(base, rel) == base + rel
    decreases |rel|
  {
    if |rel| > 0 {
      ResolveNormal(base + [rel[0]], rel[1..]);
      assert base + [rel[0]] + rel[1..] == base + rel;
    } else {
      assert base + rel == base;
    }
  }

  /** `n` leading ".." components climb exactly out of `n` trailing directories. */
  lemma {:induction false} ResolveUps(base: Path, dir: Path, rel: Path)
    ensures Resolve(base + dir, Ups(|dir|) + rel) == Resolve(base, rel)
    decreases |dir|
  {
    if |dir| == 0 {
      assert base + dir == base;
      assert Ups(0) + rel == rel;
    } else {
      var up := Ups(|dir|) + rel;
      var shorter := dir[..|dir| - 1];
      assert up[0] == "..";
      assert up[1..] == Ups(|shorter|) + rel;
      assert Parent(base + dir) == base + shorter;
      ResolveUps(base, shorter, rel);
    }
  }

  /** The text of a path with the given separator between components. */
  function Display(p: Path, separator: char): string {
    Join(p, separator)
  }

  /**
   * `display.replace('\\', "/")` on a rendered path: whichever separator the platform
   * uses, a path whose components hold no backslash comes out with '/' separators.
   */
  lemma {:induction false} DisplayNormalised(p: Path, separator: char)
    requires separator == '/' || separator == '\\'
    requires forall i :: 0 <= i < |p| ==> '\\' !in p[i]
    ensures Replace(Display(p, separator), '\\', "/") == Display(p, '/')
    decreases |p|
  {
    if |p| == 1 {
      assert Display(p, separator) == p[0];
    } else if |p| > 1 {
      var tail := Join(p[1..], separator);
      assert Display(p, separator) == p[0] + ([separator] + tail);
      assert Replace([separator] + tail, '\\', "/") == "/" + Join(p[1..], '/') by {
        ReplaceAppend([separator], tail, '\\', "/");
        SeparatorNormalised(separator);
        DisplayNormalised(p[1..], separator);
      }
      assert Replace(p[0] + ([separator] + tail), '\\', "/") == p[0] + ("/" + Join(p[1..], '/')) by {
        ReplaceAppend(p[0], [separator] + tail, '\\', "/");
        assert '\\' !in p[0];
      }
      assert Display(p, '/') == p[0] + ("/" + Join(p[1..], '/'));
    }
  }

  /** Either separator, replaced, becomes '/'. */
  lemma SeparatorNormalised(separator: char)
    requires separator == '/' || separator == '\\'
    ensures Replace([separator], '\\', "/") == "/"
  {
    assert [separator][1..] == [];
  }
}
