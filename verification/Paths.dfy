/** Paths as sequences of components, `encode_path` of src/utils.rs and `rebuild_path` of src/hookfs/mod.rs. */
module Paths {
  import opened Wrappers

  /** One component; a name that is not UTF-8 is kept apart because no string can be made of it. */
  datatype Comp = Normal(name: string) | Raw(bytes: seq<int>) | ParentDir

  type Path = seq<Comp>

  /** `starts_with`, component by component. */
  predicate Under(p: Path, dir: Path) {
    dir <= p
  }

  function StripPrefix(p: Path, dir: Path): Result<Path> {
    if Under(p, dir) then Ok(p[|dir|..]) else Err
  }

  // ----- rebuild_path -----

  /** The path of a backend object, moved from `original` to `mount`. */
  function RebuildPath(mount: Path, original: Path, p: Path): Result<Path> {
    match StripPrefix(p, original)
    case Ok(tail) => Ok(mount + tail)
    case Err => Err
  }

  /** It fails exactly outside the original directory, keeps the tail, and undoes itself. */
  lemma RebuildKeepsTail(mount: Path, original: Path, p: Path)
    ensures RebuildPath(mount, original, p).Ok? <==> Under(p, original)
    ensures Under(p, original) ==>
      var r := RebuildPath(mount, original, p).value;
      Under(r, mount) && r[|mount|..] == p[|original|..] && RebuildPath(original, mount, r) == Ok(p)
  {
    if Under(p, original) {
      assert original + p[|original|..] == p;
      assert (mount + p[|original|..])[|mount|..] == p[|original|..];
    }
  }

  lemma RebuildIsInjective(mount: Path, original: Path, p: Path, q: Path)
    requires Under(p, original) && Under(q, original)
    requires RebuildPath(mount, original, p) == RebuildPath(mount, original, q)
    ensures p == q
  {
    RebuildKeepsTail(mount, original, p);
    RebuildKeepsTail(mount, original, q);
  }

  // ----- encode_path -----

  const PREFIX := "__chaosfs__"
  const SUFFIX := "__"

  function EncodedName(name: string): string {
    PREFIX + name + SUFFIX
  }

  function Encoded(p: Path): Result<Path> {
    if p == [] || !p[|p| - 1].Normal? then Err
    else Ok(p[..|p| - 1] + [Normal(EncodedName(p[|p| - 1].name))])
  }

  /** The root has no parent to pop to; a path that ends in `..` or in a name that is not UTF-8 is refused. */
  method EncodePath(original: Path) returns (r: Result<(Path, Path)>)
    ensures r == match Encoded(original) case Ok(encoded) => Ok((original, encoded)) case Err => Err
    ensures r.Ok? <==> original != [] && original[|original| - 1].Normal?
    ensures r.Ok? ==>
      && r.value.0 == original && |r.value.1| == |original|
      && r.value.1[..|original| - 1] == original[..|original| - 1]
      && r.value.1[|original| - 1] == Normal("__chaosfs__" + original[|original| - 1].name + "__")
  {
    var base := original;
    if base == [] {
      return Err;
    }
    base := base[..|base| - 1];
    var last := original[|original| - 1];
    if !last.Normal? {
      return Err;
    }
    var encoded := base;
    encoded := encoded + [Normal(EncodedName(last.name))];
    return Ok((original, encoded));
  }

  lemma EncodedNameIsInjective(a: string, b: string)
    requires EncodedName(a) == EncodedName(b)
    ensures a == b
  {
    var x, y := EncodedName(a), EncodedName(b);
    assert a == x[|PREFIX|..|x| - |SUFFIX|];
    assert b == y[|PREFIX|..|y| - |SUFFIX|];
  }

  lemma EncodeIsInjective(p: Path, q: Path)
    requires Encoded(p).Ok? && Encoded(p) == Encoded(q)
    ensures p == q
  {
    var e := Encoded(p).value;
    assert e[..|e| - 1] == p[..|p| - 1] == q[..|q| - 1];
    EncodedNameIsInjective(p[|p| - 1].name, q[|q| - 1].name);
    assert p == p[..|p| - 1] + [p[|p| - 1]];
    assert q == q[..|q| - 1] + [q[|q| - 1]];
  }

  /** The encoded path is another child of the same directory: neither lies under the other. */
  lemma EncodeGivesSibling(p: Path)
    requires Encoded(p).Ok?
    ensures var e := Encoded(p).value;
      |e| == |p| && e[..|e| - 1] == p[..|p| - 1] && e != p && !Under(e, p) && !Under(p, e)
  {
    var e := Encoded(p).value;
    assert |e[|e| - 1].name| == |p[|p| - 1].name| + |PREFIX| + |SUFFIX|;
    assert e[|e| - 1] != p[|p| - 1];
  }
}
