/**
 * Paths as sequences of components, standing in for `pathlib.Path`.
 * The empty sequence is the filesystem root.
 */
module Paths {

  type Path = seq<string>

  function Parent(p: Path): Path
    requires |p| > 0
  {
    p[..|p| - 1]
  }

  function Name(p: Path): string
    requires |p| > 0
  {
    p[|p| - 1]
  }

  /**
   * `p.joinpath(name)` for a name that holds no separator: an empty name
   * leaves the path as it is, any other name becomes a new last component.
   * A name of "." becomes a component as well, where pathlib would leave
   * the path as it is.
   */
  function Join(p: Path, name: string): (r: Path)
    ensures name == "" ==> r == p
    ensures name != "" ==> |r| == |p| + 1 && Parent(r) == p && Name(r) == name
  {
    if name == "" then p else p + [name]
  }

  /** `q` lies in the tree rooted at `p`, `p` itself included. */
  predicate Within(q: Path, p: Path) {
    p <= q
  }

  /** A path lies in every tree its parent lies in. */
  lemma WithinParent(q: Path, p: Path)
    requires |q| > 0 && Within(Parent(q), p)
    ensures Within(q, p)
  {
    assert q[..|p|] == Parent(q)[..|p|];
  }

  /** A path is determined by its parent and its last component. */
  lemma ParentAndName(p: Path, q: Path)
    requires |p| > 0 && |q| > 0 && Parent(p) == Parent(q) && Name(p) == Name(q)
    ensures p == q
  {
    assert p == Parent(p) + [Name(p)];
    assert q == Parent(q) + [Name(q)];
  }
}
