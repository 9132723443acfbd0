/** The directory a snapshot is materialized into: creating folders component by
    component, clearing a path, and what both do to everything else. src/paths.rs and
    src/tree.rs. */
module Destinations {
  import opened Basics
  import opened Snapshots

  datatype Node = Folder | Regular(data: Bytes) | Link(target: Target)

  /** What is in the directory, by path from its root; the root itself is not listed. */
  type Tree = map<Path, Node>

  /** Whether an entry may replace a folder, and everything in it. */
  datatype Policy = Policy(replaceDirectories: bool)

  datatype MaterializeError =
    | NotFound(hash: Hash)
    | ChunkLengthMismatch(expected: u32, actual: u32)
    | CorruptStore(hash: Hash)
    | WrongSize
    | UnsafePath
    | Io

  function ParentOf(p: Path): Path
    requires p != []
  {
    p[..|p| - 1]
  }

  /** Everything is inside folders that are there. */
  ghost predicate Closed(t: Tree) {
    forall p :: p in t ==> p != [] && FolderAt(t, ParentOf(p))
  }

  /** `q` is `p` or on the way to it. */
  predicate OnWay(q: Path, p: Path) {
    |q| <= |p| && p[..|q|] == q
  }

  ghost predicate FolderAt(t: Tree, p: Path) {
    p == [] || (p in t && t[p].Folder?)
  }

  /** Something that is not a folder is at `p` or on the way to it. */
  ghost predicate Blocked(t: Tree, p: Path) {
    exists q :: q in t && OnWay(q, p) && !t[q].Folder?
  }

  lemma PrefixStep(q: Path, p: Path)
    requires p != []
    ensures OnWay(q, p) <==> q == p || OnWay(q, ParentOf(p))
  {
    if |q| < |p| {
      assert p[..|q|] == ParentOf(p)[..|q|];
    }
    assert p[..|p|] == p;
  }

  lemma PrefixTrans(p: Path, q: Path, r: Path)
    requires OnWay(p, q) && OnWay(q, r)
    ensures OnWay(p, r)
  {
    assert r[..|q|][..|p|] == r[..|p|];
  }


  lemma OnWayShorter(q: Path, p: Path)
    requires OnWay(q, p) && q != p
    ensures |q| < |p| && !OnWay(p, q)
  {
    assert p[..|p|] == p;
  }

  /** What leads to something present is a folder. */
  lemma AncestorsAreFolders(t: Tree, p: Path, q: Path)
    requires Closed(t) && FolderAt(t, p) && OnWay(q, p)
    ensures FolderAt(t, q)
    decreases |p|
  {
    if q != p {
      PrefixStep(q, p);
      AncestorsAreFolders(t, ParentOf(p), q);
    }
  }

  lemma AboveIsFolder(t: Tree, p: Path, q: Path)
    requires Closed(t) && p in t && OnWay(q, p) && q != p
    ensures FolderAt(t, q)
  {
    PrefixStep(q, p);
    AncestorsAreFolders(t, ParentOf(p), q);
  }

  // ----- creating folders -----

  /** Create `p` and its ancestors, refusing to pass anything that is not a folder. */
  function MadeDir(t: Tree, p: Path): Result<Tree, MaterializeError>
    decreases |p|
  {
    if p == [] then Ok(t)
    else
      var above := MadeDir(t, ParentOf(p));
      if above.Err? then above
      else if p !in above.value then Ok(above.value[p := Folder])
      else if above.value[p].Folder? then above
      else Err(UnsafePath)
  }

  /** It succeeds exactly when nothing is in the way, and adds folders only. */
  lemma {:induction false} MadeDirExactly(t: Tree, p: Path)
    requires Closed(t)
    ensures MadeDir(t, p).Ok? <==> !Blocked(t, p)
    ensures MadeDir(t, p).Ok? ==> Deepened(t, p, MadeDir(t, p).value)
    decreases |p|
  {
    if p == [] {
      assert forall q :: q in t && OnWay(q, p) ==> q == [];
    } else {
      MadeDirExactly(t, ParentOf(p));
      forall q
        ensures OnWay(q, p) <==> q == p || OnWay(q, ParentOf(p))
      {
        PrefixStep(q, p);
      }
      if MadeDir(t, ParentOf(p)).Ok? {
        OneDeeper(t, p, MadeDir(t, ParentOf(p)).value);
      }
    }
  }

  /** `after` is `t` with `p` and its ancestors as folders. */
  ghost predicate Deepened(t: Tree, p: Path, after: Tree) {
    && Closed(after)
    && (forall q :: q in after <==> q in t || (q != [] && OnWay(q, p)))
    && (forall q :: q in t ==> q in after && after[q] == t[q])
    && (forall q :: q in after && q !in t ==> after[q].Folder?)
    && FolderAt(after, p)
  }

  lemma OneDeeper(t: Tree, p: Path, above: Tree)
    requires Closed(t) && p != [] && Deepened(t, ParentOf(p), above)
    ensures p in above <==> p in t
    ensures p !in above ==> Deepened(t, p, above[p := Folder])
    ensures p in above && above[p].Folder? ==> Deepened(t, p, above)
  {
    forall q
      ensures OnWay(q, p) <==> q == p || OnWay(q, ParentOf(p))
    {
      PrefixStep(q, p);
    }
    assert !(OnWay(p, ParentOf(p)));
  }

  // ----- clearing a path -----

  /** Everything but what is at or below `p`. */
  function Without(t: Tree, p: Path): Tree {
    map q | q in t && !(OnWay(p, q)) :: t[q]
  }

  /** Remove what is at `p`; a folder, with all of it, only if the policy allows. */
  function Cleared(t: Tree, p: Path, policy: Policy): Result<Tree, MaterializeError> {
    if p !in t then Ok(t)
    else if !t[p].Folder? then Ok(t - {p})
    else if policy.replaceDirectories then Ok(Without(t, p))
    else Err(UnsafePath)
  }

  /** Make room for an entry at `p`. */
  function Spot(t: Tree, p: Path, policy: Policy): Result<Tree, MaterializeError> {
    if p == [] then Err(UnsafePath)
    else
      var made := MadeDir(t, ParentOf(p));
      if made.Err? then made else Cleared(made.value, p, policy)
  }

  /** `room` is `t` with folders down to `p` and nothing at or below it. */
  ghost predicate Room(t: Tree, p: Path, room: Tree)
    requires p != []
  {
    && Closed(room)
    && (forall q :: q in room <==> (q in t && !(OnWay(p, q))) || (q != [] && OnWay(q, ParentOf(p))))
    && (forall q :: q in room && q in t ==> room[q] == t[q])
    && (forall q :: q in room && q !in t ==> room[q].Folder?)
    && FolderAt(room, ParentOf(p))
  }

  /** There is room exactly when nothing is in the way and no folder is to be spared. */
  lemma SpotExactly(t: Tree, p: Path, policy: Policy)
    requires Closed(t) && p != []
    ensures Spot(t, p, policy).Ok? <==>
            !Blocked(t, ParentOf(p)) && (policy.replaceDirectories || !(p in t && t[p].Folder?))
    ensures Spot(t, p, policy).Ok? ==> Room(t, p, Spot(t, p, policy).value)
  {
    MadeDirExactly(t, ParentOf(p));
    if MadeDir(t, ParentOf(p)).Ok? {
      var made := MadeDir(t, ParentOf(p)).value;
      assert !(OnWay(p, ParentOf(p)));
      ClearedExactly(made, p, policy);
      if Cleared(made, p, policy).Ok? {
        RoomAfter(t, p, made, Cleared(made, p, policy).value);
      }
    }
  }

  lemma ClearedExactly(t: Tree, p: Path, policy: Policy)
    requires Closed(t) && p != []
    ensures Cleared(t, p, policy).Ok? <==> policy.replaceDirectories || !(p in t && t[p].Folder?)
    ensures Cleared(t, p, policy).Ok? ==> Cleared(t, p, policy).value == Without(t, p)
  {
    if p !in t || !t[p].Folder? {
      forall q | q in t && OnWay(p, q)
        ensures q == p
      {
        if q != p {
          AboveIsFolder(t, q, p);
        }
      }
    }
  }

  lemma RoomAfter(t: Tree, p: Path, made: Tree, room: Tree)
    requires Closed(t) && p != [] && Deepened(t, ParentOf(p), made) && room == Without(made, p)
    ensures Room(t, p, room)
  {
    forall q | q in room
      ensures FolderAt(room, ParentOf(q))
    {
      if OnWay(p, ParentOf(q)) {
        PrefixStep(p, q);
      }
    }
    forall q | OnWay(q, ParentOf(p))
      ensures !(OnWay(p, q))
    {
    }
  }
}
