/** Materializing a snapshot: folders, then files and hard links, then symbolic links,
    into a directory that may already hold anything. src/tree.rs. */
module Materialized {
  import opened Basics
  import opened Bits
  import opened Contents
  import opened Snapshots
  import opened Destinations
  import Symlinks

  // ----- one file -----

  /** One chunk out of the store, checked on the way: the length as the program's
      cast sees it, then the content against the address. */
  function Checked(c: ChunkRef, chunks: Chunks): Result<Bytes, MaterializeError> {
    if c.hash !in chunks then Err(NotFound(c.hash))
    else
      var bytes := chunks[c.hash];
      if |bytes| % U32_SPAN != c.len then Err(ChunkLengthMismatch(c.len, |bytes| % U32_SPAN))
      else if Hash(bytes) != c.hash then Err(CorruptStore(c.hash))
      else Ok(bytes)
  }

  /** The chunks in order, up to the first that fails. */
  function Assembled(refs: seq<ChunkRef>, chunks: Chunks): Result<Bytes, MaterializeError> {
    if refs == [] then Ok([])
    else
      var front := Assembled(refs[..|refs| - 1], chunks);
      if front.Err? then front
      else
        var last := Checked(refs[|refs| - 1], chunks);
        if last.Err? then last else Ok(front.value + last.value)
  }

  function FileContent(size: u64, refs: seq<ChunkRef>, chunks: Chunks): Result<Bytes, MaterializeError> {
    var content := Assembled(refs, chunks);
    if content.Ok? && |content.value| != size then Err(WrongSize) else content
  }

  /** The store serves these references: each chunk is there, genuine, and as long
      as declared. */
  ghost predicate Servable(refs: seq<ChunkRef>, chunks: Chunks) {
    forall c :: c in refs ==> c.hash in chunks && Hash(chunks[c.hash]) == c.hash && |c.hash.preimage| % U32_SPAN == c.len
  }

  /** Assembly succeeds exactly when every chunk is served, and then yields what the
      addresses name, whatever else the store holds. */
  lemma {:induction false} AssembledExactly(refs: seq<ChunkRef>, chunks: Chunks)
    ensures Assembled(refs, chunks).Ok? <==> Servable(refs, chunks)
    ensures Assembled(refs, chunks).Ok? ==> Assembled(refs, chunks).value == Preimages(refs)
  {
    if refs != [] {
      var front, last := refs[..|refs| - 1], refs[|refs| - 1];
      AssembledExactly(front, chunks);
      forall c
        ensures c in refs <==> c in front || c == last
      {
        assert refs == front + [last];
      }
    }
  }

  lemma {:induction false} AssembledStops(refs: seq<ChunkRef>, n: nat, chunks: Chunks)
    requires n <= |refs| && Assembled(refs[..n], chunks).Err?
    ensures Assembled(refs, chunks) == Assembled(refs[..n], chunks)
  {
    if n == |refs| {
      assert refs[..n] == refs;
    } else {
      var front := refs[..|refs| - 1];
      assert front[..n] == refs[..n];
      AssembledStops(front, n, chunks);
    }
  }

  // ----- one entry -----

  /** How the system resolves a path of the directory to the one it names in the end;
      nothing if it names nothing inside. */
  type Resolver = (Tree, Path) -> Option<Path>

  ghost predicate NoLinkOn(t: Tree, p: Path) {
    forall q :: q in t && OnWay(q, p) ==> !t[q].Link?
  }

  /** Where no link is on the way, a path names itself if it is there. */
  ghost predicate Resolves(canon: Resolver) {
    forall t, p :: Closed(t) && p != [] && NoLinkOn(t, p) ==> canon(t, p) == if p in t then Some(p) else None
  }

  /** The lexical check of a link's target. */
  function StaysInside(link: Path, target: Target): bool
    requires link != []
  {
    Symlinks.Resolved(ParentOf(link), target, map[], Symlinks.MAX_SYMLINK_HOPS).0.Ok?
  }

  function PlacedFile(path: Path, size: u64, refs: seq<ChunkRef>, chunks: Chunks, t: Tree,
                      policy: Policy): Result<Tree, MaterializeError> {
    var room := Spot(t, path, policy);
    if room.Err? then room
    else
      var content := FileContent(size, refs, chunks);
      if content.Err? then Err(content.error) else Ok(room.value[path := Regular(content.value)])
  }

  /** A hard link's source must resolve to a file before the path is cleared, and still
      be there after. */
  function PlacedHardlink(path: Path, source: Path, t: Tree, policy: Policy, canon: Resolver): Result<Tree, MaterializeError> {
    if path == [] || source == [] then Err(UnsafePath)
    else
      var made := MadeDir(t, ParentOf(path));
      if made.Err? then made
      else
        var found := canon(made.value, source);
        if found.None? || found.value !in made.value || !made.value[found.value].Regular? then Err(UnsafePath)
        else
          var room := Cleared(made.value, path, policy);
          if room.Err? then room
          else if found.value !in room.value then Err(MaterializeError.Io)
          else Ok(room.value[path := room.value[found.value]])
  }

  function PlacedSymlink(path: Path, target: Target, t: Tree, policy: Policy): Result<Tree, MaterializeError> {
    if path == [] || !StaysInside(path, target) then Err(UnsafePath)
    else
      var room := Spot(t, path, policy);
      if room.Err? then room else Ok(room.value[path := Link(target)])
  }

  function PlacedOne(e: Entry, chunks: Chunks, t: Tree, policy: Policy, canon: Resolver): Result<Tree, MaterializeError> {
    match e
    case Dir(path) => if path == [] then Err(UnsafePath) else MadeDir(t, path)
    case File(path, size, refs) => PlacedFile(path, size, refs, chunks, t, policy)
    case Hardlink(path, source) => PlacedHardlink(path, source, t, policy, canon)
    case Symlink(path, target) => PlacedSymlink(path, target, t, policy)
  }

  /** The entries in order, up to the first that fails. */
  function Placed(entries: seq<Entry>, chunks: Chunks, t: Tree, policy: Policy, canon: Resolver): Result<Tree, MaterializeError> {
    if entries == [] then Ok(t)
    else
      var front := Placed(entries[..|entries| - 1], chunks, t, policy, canon);
      if front.Err? then front else PlacedOne(entries[|entries| - 1], chunks, front.value, policy, canon)
  }

  // ----- the passes -----

  /** Folders go first, files and hard links second, symbolic links last. */
  function PassOf(e: Entry): nat {
    match e
    case Dir(_) => 1
    case File(_, _, _) => 2
    case Hardlink(_, _) => 2
    case Symlink(_, _) => 3
  }

  function Picked(entries: seq<Entry>, pass: nat): seq<Entry> {
    if entries == [] then []
    else
      var last := entries[|entries| - 1];
      Picked(entries[..|entries| - 1], pass) + if PassOf(last) == pass then [last] else []
  }

  function InPasses(entries: seq<Entry>): seq<Entry> {
    Picked(entries, 1) + Picked(entries, 2) + Picked(entries, 3)
  }

  /** What materializing an index makes of the directory. */
  function Reconstructed(entries: seq<Entry>, chunks: Chunks, t: Tree, policy: Policy, canon: Resolver):
      Result<Tree, MaterializeError> {
    Placed(InPasses(entries), chunks, t, policy, canon)
  }

  lemma {:induction false} PlacedAppend(a: seq<Entry>, b: seq<Entry>, chunks: Chunks, t: Tree, policy: Policy, canon: Resolver)
    ensures var first := Placed(a, chunks, t, policy, canon);
            Placed(a + b, chunks, t, policy, canon) ==
            if first.Err? then first else Placed(b, chunks, first.value, policy, canon)
  {
    if b == [] {
      assert a + b == a;
    } else {
      var front := b[..|b| - 1];
      PlacedAppend(a, front, chunks, t, policy, canon);
      assert (a + b)[..|a + b| - 1] == a + front;
    }
  }

  // ----- what placing touches, finished or not -----

  /** Entries other than folders end a path: nothing can be below them. */
  predicate Leaf(e: Entry) {
    !e.Dir?
  }

  /** Some entry takes the place of whatever is at or below a path that leads to `p`. */
  ghost predicate Taken(entries: seq<Entry>, p: Path) {
    exists e :: e in entries && Leaf(e) && OnWay(e.path, p)
  }

  /** `p` is an entry's path, or leads to one. */
  ghost predicate Needed(entries: seq<Entry>, p: Path) {
    exists e :: e in entries && OnWay(p, e.path)
  }

  /** Work on the path `p` changed nothing but what is at or below it, and that only if
      it takes the place, and added nothing but what leads to it. */
  ghost predicate Spares(p: Path, takes: bool, t: Tree, after: Tree) {
    && (forall q :: q in t && !(takes && OnWay(p, q)) ==> q in after && after[q] == t[q])
    && (forall q :: q in after && q !in t ==> OnWay(q, p))
  }

  ghost predicate SparesAll(entries: seq<Entry>, t: Tree, after: Tree) {
    && (forall q :: q in t && !Taken(entries, q) ==> q in after && after[q] == t[q])
    && (forall q :: q in after && q !in t ==> Needed(entries, q))
  }

  lemma SparesDeeper(p: Path, t: Tree, mid: Tree, after: Tree)
    requires p != [] && Spares(ParentOf(p), false, t, mid) && Spares(p, true, mid, after)
    ensures Spares(p, true, t, after)
  {
    forall q | q in after && q !in t
      ensures OnWay(q, p)
    {
      PrefixStep(q, p);
    }
  }

  lemma SparesOne(entries: seq<Entry>, e: Entry, t: Tree, mid: Tree, after: Tree)
    requires e in entries && SparesAll(entries, t, mid) && Spares(e.path, Leaf(e), mid, after)
    ensures SparesAll(entries, t, after)
  {
  }

  lemma SparesTwice(entries: seq<Entry>, t: Tree, mid: Tree, after: Tree)
    requires SparesAll(entries, t, mid) && SparesAll(entries, mid, after)
    ensures SparesAll(entries, t, after)
  {
  }

  // ----- the same, in place -----

  class Destination {
    var tree: Tree

    constructor (tree: Tree)
      ensures this.tree == tree
    {
      this.tree := tree;
    }

    /** Create a folder and its ancestors one component at a time. */
    method CreateDirConfined(rel: Path) returns (failed: Option<MaterializeError>)
      modifies this
      ensures failed.None? ==> MadeDir(old(tree), rel) == Ok(tree)
      ensures failed.Some? ==> MadeDir(old(tree), rel) == Err(failed.value)
      ensures Spares(rel, false, old(tree), tree)
    {
      for n := 0 to |rel|
        invariant MadeDir(old(tree), rel[..n]) == Ok(tree)
        invariant Spares(rel, false, old(tree), tree)
      {
        assert rel[..n + 1][..n] == rel[..n];
        var at := rel[..n + 1];
        if at !in tree {
          tree := tree[at := Folder];
        } else if !tree[at].Folder? {
          StopsAt(old(tree), rel, n + 1);
          return Some(UnsafePath);
        }
      }
      assert rel[..|rel|] == rel;
      failed := None;
    }

    method RemoveExisting(p: Path, policy: Policy) returns (failed: Option<MaterializeError>)
      modifies this
      ensures failed.None? ==> Cleared(old(tree), p, policy) == Ok(tree)
      ensures failed.Some? ==> Cleared(old(tree), p, policy) == Err(failed.value)
      ensures Spares(p, failed.None?, old(tree), tree)
    {
      failed := None;
      assert OnWay(p, p);
      if p in tree {
        if tree[p].Folder? {
          if !policy.replaceDirectories {
            return Some(UnsafePath);
          }
          tree := Without(tree, p);
        } else {
          tree := tree - {p};
        }
      }
    }

    /** Folders down to the path, then nothing at it. No link was passed on the way, so
        the parent lies inside the directory. */
    method MakeRoom(p: Path, policy: Policy) returns (failed: Option<MaterializeError>)
      modifies this
      ensures failed.None? ==> Spot(old(tree), p, policy) == Ok(tree)
      ensures failed.Some? ==> Spot(old(tree), p, policy) == Err(failed.value)
      ensures Spares(p, true, old(tree), tree)
    {
      if p == [] {
        return Some(UnsafePath);
      }
      failed := CreateDirConfined(ParentOf(p));
      ghost var made := tree;
      if failed.None? {
        failed := RemoveExisting(p, policy);
      }
      SparesDeeper(p, old(tree), made, tree);
    }

    /** Write one file, chunk by chunk, after making room for it. */
    method WriteFile(path: Path, size: u64, refs: seq<ChunkRef>, store: ContentStore, policy: Policy)
      returns (failed: Option<MaterializeError>)
      modifies this
      ensures failed.None? ==> PlacedFile(path, size, refs, store.chunks, old(tree), policy) == Ok(tree)
      ensures failed.Some? ==> PlacedFile(path, size, refs, store.chunks, old(tree), policy) == Err(failed.value)
      ensures Spares(path, true, old(tree), tree)
    {
      failed := MakeRoom(path, policy);
      if failed.Some? {
        return;
      }
      ghost var room := tree;
      assert OnWay(path, path);
      tree := tree[path := Regular([])];
      var written: nat := 0;
      for k := 0 to |refs|
        invariant path in tree && tree[path].Regular? && tree == room[path := tree[path]]
        invariant Assembled(refs[..k], store.chunks) == Ok(tree[path].data) && written == |tree[path].data|
      {
        assert refs[..k + 1][..k] == refs[..k];
        var c := refs[k];
        var got := store.Get(c.hash);
        if got.None? {
          AssembledStops(refs, k + 1, store.chunks);
          return Some(NotFound(c.hash));
        }
        var bytes := got.value;
        if |bytes| % U32_SPAN != c.len {
          AssembledStops(refs, k + 1, store.chunks);
          return Some(ChunkLengthMismatch(c.len, |bytes| % U32_SPAN));
        }
        if Hash(bytes) != c.hash {
          AssembledStops(refs, k + 1, store.chunks);
          return Some(CorruptStore(c.hash));
        }
        tree := tree[path := Regular(tree[path].data + bytes)];
        written := written + |bytes|;
      }
      assert refs[..|refs|] == refs;
      failed := if written != size then Some(WrongSize) else None;
    }

    method LinkFile(path: Path, source: Path, policy: Policy, canon: Resolver) returns (failed: Option<MaterializeError>)
      modifies this
      ensures failed.None? ==> PlacedHardlink(path, source, old(tree), policy, canon) == Ok(tree)
      ensures failed.Some? ==> PlacedHardlink(path, source, old(tree), policy, canon) == Err(failed.value)
      ensures Spares(path, true, old(tree), tree)
    {
      if path == [] || source == [] {
        return Some(UnsafePath);
      }
      failed := CreateDirConfined(ParentOf(path));
      ghost var made := tree;
      SparesDeeper(path, old(tree), made, made);
      if failed.Some? {
        return;
      }
      var found := canon(tree, source);
      if found.None? || found.value !in tree || !tree[found.value].Regular? {
        return Some(UnsafePath);
      }
      failed := RemoveExisting(path, policy);
      SparesDeeper(path, old(tree), made, tree);
      if failed.Some? {
        return;
      }
      if found.value !in tree {
        return Some(MaterializeError.Io);
      }
      tree := tree[path := tree[found.value]];
      assert OnWay(path, path);
    }

    method LinkTo(path: Path, target: Target, policy: Policy) returns (failed: Option<MaterializeError>)
      modifies this
      ensures failed.None? ==> PlacedSymlink(path, target, old(tree), policy) == Ok(tree)
      ensures failed.Some? ==> PlacedSymlink(path, target, old(tree), policy) == Err(failed.value)
      ensures Spares(path, true, old(tree), tree)
    {
      if path == [] {
        return Some(UnsafePath);
      }
      var ok := Symlinks.SanitizeSymlinkTarget(path, target);
      if !ok {
        return Some(UnsafePath);
      }
      failed := MakeRoom(path, policy);
      if failed.None? {
        tree := tree[path := Link(target)];
        assert OnWay(path, path);
      }
    }

    method Place(e: Entry, store: ContentStore, policy: Policy, canon: Resolver) returns (failed: Option<MaterializeError>)
      modifies this
      ensures failed.None? ==> PlacedOne(e, store.chunks, old(tree), policy, canon) == Ok(tree)
      ensures failed.Some? ==> PlacedOne(e, store.chunks, old(tree), policy, canon) == Err(failed.value)
      ensures Spares(e.path, Leaf(e), old(tree), tree)
    {
      match e {
        case Dir(path) =>
          if path == [] {
            return Some(UnsafePath);
          }
          failed := CreateDirConfined(path);
        case File(path, size, refs) => failed := WriteFile(path, size, refs, store, policy);
        case Hardlink(path, source) => failed := LinkFile(path, source, policy, canon);
        case Symlink(path, target) => failed := LinkTo(path, target, policy);
      }
    }

    /** One pass over the index, for the entries whose turn it is. */
    method RunPass(entries: seq<Entry>, pass: nat, store: ContentStore, policy: Policy, canon: Resolver)
      returns (failed: Option<MaterializeError>)
      modifies this
      ensures failed.None? ==> Placed(Picked(entries, pass), store.chunks, old(tree), policy, canon) == Ok(tree)
      ensures failed.Some? ==> Placed(Picked(entries, pass), store.chunks, old(tree), policy, canon) == Err(failed.value)
      ensures SparesAll(entries, old(tree), tree)
    {
      for k := 0 to |entries|
        invariant Placed(Picked(entries[..k], pass), store.chunks, old(tree), policy, canon) == Ok(tree)
        invariant SparesAll(entries, old(tree), tree)
      {
        PickedNext(entries, k, pass);
        assert Picked(entries[..k], pass) + [] == Picked(entries[..k], pass);
        if PassOf(entries[k]) == pass {
          PlacedAppend(Picked(entries[..k], pass), [entries[k]], store.chunks, old(tree), policy, canon);
          PlacedAlone(entries[k], store.chunks, tree, policy, canon);
          ghost var before := tree;
          failed := Place(entries[k], store, policy, canon);
          SparesOne(entries, entries[k], old(tree), before, tree);
          if failed.Some? {
            PassStops(entries, k + 1, pass, store.chunks, old(tree), policy, canon);
            return;
          }
        }
      }
      assert entries[..|entries|] == entries;
      failed := None;
    }

    /** The whole index, pass by pass. Whether it ends well or not, what no entry takes the
        place of is untouched, and nothing is added that no entry needs. */
    method Reconstruct(entries: seq<Entry>, store: ContentStore, policy: Policy, canon: Resolver)
      returns (failed: Option<MaterializeError>)
      modifies this
      ensures failed.None? ==> Reconstructed(entries, store.chunks, old(tree), policy, canon) == Ok(tree)
      ensures failed.Some? ==> Reconstructed(entries, store.chunks, old(tree), policy, canon) == Err(failed.value)
      ensures SparesAll(entries, old(tree), tree)
    {
      hide Placed, Picked, SparesAll;
      var one, two, three := Picked(entries, 1), Picked(entries, 2), Picked(entries, 3);
      PlacedAppend(one + two, three, store.chunks, tree, policy, canon);
      PlacedAppend(one, two, store.chunks, tree, policy, canon);
      failed := RunPass(entries, 1, store, policy, canon);
      if failed.Some? {
        return;
      }
      ghost var folders := tree;
      failed := RunPass(entries, 2, store, policy, canon);
      SparesTwice(entries, old(tree), folders, tree);
      if failed.Some? {
        return;
      }
      ghost var files := tree;
      failed := RunPass(entries, 3, store, policy, canon);
      SparesTwice(entries, old(tree), files, tree);
    }
  }

  lemma {:induction false} StopsAt(t: Tree, rel: Path, n: nat)
    requires n <= |rel| && MadeDir(t, rel[..n]).Err?
    ensures MadeDir(t, rel) == MadeDir(t, rel[..n])
  {
    if n == |rel| {
      assert rel[..n] == rel;
    } else {
      assert rel[..|rel| - 1][..n] == rel[..n];
      StopsAt(t, rel[..|rel| - 1], n);
    }
  }

  lemma {:induction false} PickedNext(entries: seq<Entry>, k: nat, pass: nat)
    requires k < |entries|
    ensures Picked(entries[..k + 1], pass) ==
            Picked(entries[..k], pass) + if PassOf(entries[k]) == pass then [entries[k]] else []
  {
    assert entries[..k + 1][..k] == entries[..k];
  }

  lemma {:induction false} PlacedAlone(e: Entry, chunks: Chunks, t: Tree, policy: Policy, canon: Resolver)
    ensures Placed([e], chunks, t, policy, canon) == PlacedOne(e, chunks, t, policy, canon)
  {
    assert [e][..0] == [];
  }

  lemma {:induction false} PassStops(entries: seq<Entry>, n: nat, pass: nat, chunks: Chunks, t: Tree, policy: Policy,
                                     canon: Resolver)
    requires n <= |entries| && Placed(Picked(entries[..n], pass), chunks, t, policy, canon).Err?
    ensures Placed(Picked(entries, pass), chunks, t, policy, canon) ==
            Placed(Picked(entries[..n], pass), chunks, t, policy, canon)
    decreases |entries| - n
  {
    if n == |entries| {
      assert entries[..n] == entries;
    } else {
      PickedNext(entries, n, pass);
      PlacedAppend(Picked(entries[..n], pass), [entries[n]], chunks, t, policy, canon);
      assert Picked(entries[..n], pass) + [] == Picked(entries[..n], pass);
      PassStops(entries, n + 1, pass, chunks, t, policy, canon);
    }
  }

}
