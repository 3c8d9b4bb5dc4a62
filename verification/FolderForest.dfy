/**
 The folder table as a forest, and its encoding in path strings.

 Every row stores its parent, its name, its full path and its depth redundantly.  `Forest` says
 when the four agree; the lemmas here say what a path tells about the parent chain.
 */
module FolderForest {
  import opened Wrappers

  type FolderId = nat
  type OwnerId = nat

  datatype Folder = Folder(owner: OwnerId, parent: Option<FolderId>, name: string, path: string, depth: int)

  type Table = map<FolderId, Folder>

  /** A name inside a path: the separator is replaced, so a path component never contains it. */
  function Sanitize(name: string): (s: string)
    ensures |s| == |name| && '/' !in s
    ensures forall i | 0 <= i < |s| :: if name[i] == '/' then s[i] == '_' else s[i] == name[i]
  {
    seq(|name|, i requires 0 <= i < |name| => if name[i] == '/' then '_' else name[i])
  }

  function ComputeChildPath(parentPath: Option<string>, name: string): string {
    match parentPath
    case None => "/" + Sanitize(name) + "/"
    case Some(p) => p + Sanitize(name) + "/"
  }

  function ParentPath(fs: Table, parent: Option<FolderId>): (p: string)
    requires parent.Some? ==> parent.value in fs
  {
    match parent case None => "/" case Some(p) => fs[p].path
  }

  function ParentDepth(fs: Table, parent: Option<FolderId>): int
    requires parent.Some? ==> parent.value in fs
  {
    match parent case None => -1 case Some(p) => fs[p].depth
  }

  /** One row agrees with its parent row. */
  ghost predicate RowOk(fs: Table, id: FolderId)
    requires id in fs
  {
    var f := fs[id];
    && f.name != ""
    && f.depth >= 0
    && (f.parent.Some? ==> f.parent.value in fs && fs[f.parent.value].owner == f.owner)
    && f.path == ParentPath(fs, f.parent) + Sanitize(f.name) + "/"
    && f.depth == ParentDepth(fs, f.parent) + 1
  }

  predicate UniquePaths(fs: Table) {
    forall a, b | a in fs && b in fs && a != b && fs[a].owner == fs[b].owner :: fs[a].path != fs[b].path
  }

  ghost predicate Forest(fs: Table) {
    (forall id {:trigger RowOk(fs, id)} | id in fs :: RowOk(fs, id)) && UniquePaths(fs)
  }

  /** a is d or lies on d's parent chain. */
  ghost predicate OnChain(fs: Table, a: FolderId, d: FolderId)
    requires Forest(fs) && d in fs
    decreases fs[d].depth
  {
    assert RowOk(fs, d);
    a == d || (fs[d].parent.Some? && OnChain(fs, a, fs[d].parent.value))
  }

  /** The k-th ancestor, if the chain is that long. */
  ghost function Up(fs: Table, id: FolderId, k: nat): Option<FolderId>
    decreases k
  {
    if k == 0 then Some(id)
    else if id in fs && fs[id].parent.Some? then Up(fs, fs[id].parent.value, k - 1)
    else None
  }

  /** Parent pointers are acyclic, and every chain ends at a root after `depth` steps. */
  lemma {:induction false} ChainsEnd(fs: Table, id: FolderId, k: nat)
    requires Forest(fs) && id in fs
    ensures Up(fs, id, k).Some? <==> k <= fs[id].depth
    ensures k > 0 ==> Up(fs, id, k) != Some(id)
    ensures Up(fs, id, k).Some? ==> Up(fs, id, k).value in fs && fs[Up(fs, id, k).value].depth == fs[id].depth - k
    decreases k
  {
    assert RowOk(fs, id);
    if k > 0 && fs[id].parent.Some? {
      ChainsEnd(fs, fs[id].parent.value, k - 1);
    }
  }

  // ---------------------------------------------------------------------------------------------
  // Paths and parent chains
  // ---------------------------------------------------------------------------------------------

  lemma {:induction false} PathShape(fs: Table, id: FolderId)
    requires Forest(fs) && id in fs
    ensures |fs[id].path| >= 3 && fs[id].path[0] == '/' && fs[id].path[|fs[id].path| - 1] == '/'
    decreases fs[id].depth
  {
    assert RowOk(fs, id);
    if fs[id].parent.Some? { PathShape(fs, fs[id].parent.value); }
  }

  lemma {:induction false} ChainPrefix(fs: Table, a: FolderId, d: FolderId)
    requires Forest(fs) && d in fs && OnChain(fs, a, d)
    ensures a in fs && fs[a].owner == fs[d].owner && fs[a].path <= fs[d].path && fs[a].depth <= fs[d].depth
    decreases fs[d].depth
  {
    assert RowOk(fs, d);
    if a != d { ChainPrefix(fs, a, fs[d].parent.value); }
  }

  /** A prefix of a path that ends in the separator is the path of an ancestor. */
  lemma {:induction false} PrefixIsAncestor(fs: Table, q: string, d: FolderId) returns (a: FolderId)
    requires Forest(fs) && d in fs
    requires |q| >= 2 && q[|q| - 1] == '/' && q <= fs[d].path
    ensures a in fs && OnChain(fs, a, d) && fs[a].path == q && fs[a].owner == fs[d].owner
    decreases fs[d].depth
  {
    assert RowOk(fs, d);
    var f := fs[d];
    var base := ParentPath(fs, f.parent);
    if |q| == |f.path| {
      a := d;
    } else {
      forall i | |base| <= i < |f.path| - 1 ensures f.path[i] != '/' {
        assert f.path[i] == Sanitize(f.name)[i - |base|];
      }
      assert q[|q| - 1] == f.path[|q| - 1];
      assert base == f.path[..|base|];
      a := PrefixIsAncestor(fs, q, f.parent.value);
    }
  }

  /** What `is_descendant` computes from two rows. */
  predicate IsDescendant(fs: Table, ancestor: FolderId, target: FolderId) {
    && ancestor in fs && target in fs
    && fs[ancestor].owner == fs[target].owner
    && (fs[target].path == fs[ancestor].path || fs[ancestor].path <= fs[target].path)
  }

  /** The path test is exactly the walk up the parent chain. */
  lemma IsDescendantIsOnChain(fs: Table, a: FolderId, d: FolderId)
    requires Forest(fs)
    ensures IsDescendant(fs, a, d) <==> d in fs && OnChain(fs, a, d)
  {
    if IsDescendant(fs, a, d) {
      PathShape(fs, a);
      var b := PrefixIsAncestor(fs, fs[a].path, d);
      assert a == b;
    } else if d in fs && OnChain(fs, a, d) {
      ChainPrefix(fs, a, d);
    }
  }
}
