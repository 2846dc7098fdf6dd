/**
 * The generated project directory as the post-generation hook sees it: a
 * map from relative paths (sequences of path components) to entries. A
 * file carries its text and whether it can be read and decoded as UTF-8;
 * a directory carries nothing. The hook's working directory is the
 * project root, which is not itself an entry.
 */
module FileTree {

  type Path = seq<string>

  datatype Node = File(content: string, decodable: bool) | Dir

  type Tree = map<Path, Node>

  /** Every entry has a non-empty path and every proper ancestor of it is a directory of the tree. */
  ghost predicate Wf(t: Tree)
  {
    forall q | q in t :: q != [] && forall k | 0 < k < |q| :: q[..k] in t && t[q[..k]].Dir?
  }

  /** `q` is `p` itself or lies below it. */
  predicate Below(q: Path, p: Path)
  {
    |p| <= |q| && forall j | 0 <= j < |p| :: q[j] == p[j]
  }

  lemma BelowIsPrefix(q: Path, p: Path)
    ensures Below(q, p) <==> |p| <= |q| && q[..|p|] == p
  {
    if Below(q, p) {
      assert q[..|p|] == p;
    }
  }

  /** `remove_file_or_dir`: a file is deleted alone, a directory with everything below it (`shutil.rmtree`), an absent path is left alone. */
  function Remove(t: Tree, p: Path): Tree
  {
    if p in t && t[p].File? then t - {p}
    else if p in t then map q | q in t && !Below(q, p) :: t[q]
    else t
  }

  /** In a well-formed tree a file has nothing below it. */
  lemma FileIsLeaf(t: Tree, p: Path)
    requires Wf(t) && p in t && t[p].File?
    ensures forall q | q in t && Below(q, p) :: q == p
  {
    forall q | q in t && q != p ensures !Below(q, p) {
      BelowIsPrefix(q, p);
      assert |p| < |q| ==> t[q[..|p|]].Dir?;
      assert |p| == |q| ==> q[..|p|] == q;
    }
  }

  /** In a well-formed tree an absent (non-empty) path has nothing below it. */
  lemma AbsentIsEmpty(t: Tree, p: Path)
    requires Wf(t) && p != [] && p !in t
    ensures forall q | q in t :: !Below(q, p)
  {
    forall q | q in t ensures !Below(q, p) {
      BelowIsPrefix(q, p);
      assert |p| < |q| ==> q[..|p|] in t;
      assert |p| == |q| ==> q[..|p|] == q;
    }
  }

  /**
   * In a well-formed tree, removing `p` takes away exactly the entries at
   * or below `p`, in all three cases (file, directory, absent): a file has
   * nothing below it and an absent path has nothing below it either.
   * Every other entry is left as it was, and the tree stays well-formed.
   */
  lemma RemoveSubtree(t: Tree, p: Path)
    requires Wf(t) && p != []
    ensures forall q :: q in Remove(t, p) <==> q in t && !Below(q, p)
    ensures forall q | q in Remove(t, p) :: Remove(t, p)[q] == t[q]
    ensures Wf(Remove(t, p))
  {
    if p in t && t[p].File? {
      FileIsLeaf(t, p);
    } else if p !in t {
      AbsentIsEmpty(t, p);
    }
    var r := Remove(t, p);
    forall q, k | q in r && 0 < k < |q| ensures q[..k] in r {
      assert q[..k] in t;
      assert Below(q[..k], p) ==> Below(q, p);
    }
  }

  /** Removing a path that is not in the tree changes nothing. */
  lemma RemoveAbsent(t: Tree, p: Path)
    requires p !in t
    ensures Remove(t, p) == t
  {
  }
}
