/** What a materialized index holds, what it spares, and when a tree comes back. */
module Restored {
  import opened Basics
  import opened Bits
  import opened Contents
  import opened Snapshots
  import opened Builds
  import opened Destinations
  import opened Materialized

  // ----- one entry placed -----

  /** How far an entry needs folders. */
  function BaseOf(e: Entry): Path
    requires e.path != []
  {
    if Leaf(e) then ParentOf(e.path) else e.path
  }

  /** The node at the entry's path is what the entry names. */
  ghost predicate IsNode(e: Entry, n: Node) {
    match e
    case Dir(_) => n.Folder?
    case File(_, size, refs) => n == Regular(Preimages(refs)) && |n.data| == size
    case Hardlink(_, _) => n.Regular?
    case Symlink(_, target) => n == Link(target)
  }

  /** `after` is `t` with the entry's node at its path and folders down to it; a leaf
      takes the place of whatever was at or below its path. */
  ghost predicate Changed(e: Entry, t: Tree, after: Tree) {
    && e.path != []
    && Closed(after)
    && e.path in after && IsNode(e, after[e.path])
    && (forall q :: q in after <==> (q in t && !(Leaf(e) && OnWay(e.path, q))) || (q != [] && OnWay(q, e.path)))
    && (forall q :: q in after && q in t && (q != e.path || !Leaf(e)) ==> after[q] == t[q])
    && (forall q :: q in after && q !in t && q != e.path ==> after[q].Folder?)
  }

  /** There is room for the entry: nothing in the way, and no folder in its place that
      the policy spares. */
  ghost predicate Welcome(e: Entry, t: Tree, policy: Policy) {
    && e.path != []
    && !Blocked(t, BaseOf(e))
    && (Leaf(e) && !policy.replaceDirectories ==> !(e.path in t && t[e.path].Folder?))
  }

  /** The entry itself is in order: its content is there, its target stays inside. */
  ghost predicate InOrder(e: Entry, chunks: Chunks) {
    match e
    case File(_, size, refs) => FileContent(size, refs, chunks).Ok?
    case Symlink(path, target) => path != [] && StaysInside(path, target)
    case _ => true
  }

  /** A hard link's source is a regular file that clearing the link's path spares. */
  ghost predicate SourceIn(e: Entry, t: Tree)
    requires e.Hardlink?
  {
    e.source != [] && e.source in t && t[e.source].Regular? && !OnWay(e.path, e.source)
  }

  lemma RoomTaken(e: Entry, t: Tree, room: Tree, n: Node)
    requires Closed(t) && e.path != [] && Leaf(e) && Room(t, e.path, room) && IsNode(e, n)
    ensures Changed(e, t, room[e.path := n])
  {
    hide Closed, OnWay, FolderAt;
    forall q
      ensures OnWay(q, e.path) <==> q == e.path || OnWay(q, ParentOf(e.path))
    {
      PrefixStep(q, e.path);
    }
    forall q | q in room
      ensures !OnWay(e.path, q)
    {
      NotBelow(q, e.path);
    }
    StillClosed(room, e.path, n);
  }

  lemma NotBelow(q: Path, p: Path)
    requires p != []
    ensures OnWay(q, ParentOf(p)) ==> !OnWay(p, q)
  {
  }

  lemma StillClosed(room: Tree, p: Path, n: Node)
    requires Closed(room) && p != [] && FolderAt(room, ParentOf(p)) && forall q :: q in room ==> !OnWay(p, q)
    ensures Closed(room[p := n])
  {
    PrefixStep(p, p);
    forall q | q in room
      ensures ParentOf(q) != p
    {
      PrefixStep(p, q);
    }
  }

  /** What placing one entry does, and what it takes. */
  lemma PlacedOneExactly(e: Entry, chunks: Chunks, t: Tree, policy: Policy, canon: Resolver)
    requires Closed(t)
    ensures PlacedOne(e, chunks, t, policy, canon).Ok? ==>
              && Welcome(e, t, policy) && InOrder(e, chunks)
              && Changed(e, t, PlacedOne(e, chunks, t, policy, canon).value)
    ensures !e.Hardlink? && Welcome(e, t, policy) && InOrder(e, chunks) ==> PlacedOne(e, chunks, t, policy, canon).Ok?
  {
    hide Spot, Cleared, MadeDir, Closed, Changed, Room, Deepened, Blocked, StaysInside;
    if e.path != [] {
      match e
      case Dir(path) =>
        MadeDirExactly(t, path);
        if MadeDir(t, path).Ok? {
          FolderMade(e, t, MadeDir(t, path).value);
        }
      case File(path, size, refs) =>
        SpotExactly(t, path, policy);
        AssembledExactly(refs, chunks);
        if PlacedOne(e, chunks, t, policy, canon).Ok? {
          RoomTaken(e, t, Spot(t, path, policy).value, Regular(FileContent(size, refs, chunks).value));
        }
      case Hardlink(path, source) =>
        HardlinkPlaced(e, t, policy, canon);
      case Symlink(path, target) =>
        SpotExactly(t, path, policy);
        if PlacedOne(e, chunks, t, policy, canon).Ok? {
          RoomTaken(e, t, Spot(t, path, policy).value, Link(target));
        }
    } else {
      assert PlacedOne(e, chunks, t, policy, canon).Err? by {
        NoPath(e, chunks, t, policy, canon);
      }
    }
  }

  lemma NoPath(e: Entry, chunks: Chunks, t: Tree, policy: Policy, canon: Resolver)
    requires e.path == []
    ensures PlacedOne(e, chunks, t, policy, canon).Err?
  {
  }

  lemma FolderMade(e: Entry, t: Tree, after: Tree)
    requires e.Dir? && e.path != [] && Deepened(t, e.path, after)
    ensures Changed(e, t, after)
  {
    PrefixStep(e.path, e.path);
  }

  lemma HardlinkPlaced(e: Entry, t: Tree, policy: Policy, canon: Resolver)
    requires Closed(t) && e.Hardlink? && e.path != []
    ensures PlacedHardlink(e.path, e.source, t, policy, canon).Ok? ==>
              && Welcome(e, t, policy)
              && Changed(e, t, PlacedHardlink(e.path, e.source, t, policy, canon).value)
  {
    SpotExactly(t, e.path, policy);
    if PlacedHardlink(e.path, e.source, t, policy, canon).Ok? {
      var made := MadeDir(t, ParentOf(e.path)).value;
      var found := canon(made, e.source).value;
      ClearedKeeps(made, e.path, policy, found);
      RoomTaken(e, t, Spot(t, e.path, policy).value, made[found]);
    }
  }

  lemma ClearedKeeps(t: Tree, p: Path, policy: Policy, q: Path)
    requires Cleared(t, p, policy).Ok? && q in Cleared(t, p, policy).value
    ensures q in t && Cleared(t, p, policy).value[q] == t[q]
  {
  }

  /** A hard link to a file that is there succeeds and has its content. */
  lemma HardlinkSucceeds(e: Entry, t: Tree, policy: Policy, canon: Resolver)
    requires Closed(t) && e.Hardlink? && Welcome(e, t, policy) && SourceIn(e, t) && Resolves(canon)
    ensures var r := PlacedHardlink(e.path, e.source, t, policy, canon);
            r.Ok? && e.path in r.value && r.value[e.path] == t[e.source]
  {
    var base := ParentOf(e.path);
    MadeDirExactly(t, base);
    SpotExactly(t, e.path, policy);
    var made := MadeDir(t, base).value;
    forall q | q in made && OnWay(q, e.source)
      ensures !made[q].Link?
    {
      if q != e.source {
        AboveIsFolder(made, e.source, q);
      }
    }
    assert canon(made, e.source) == Some(e.source);
    ClearedExactly(made, e.path, policy);
  }

  // ----- a list of entries placed -----

  ghost predicate OneEach(entries: seq<Entry>) {
    forall j, k :: 0 <= j < k < |entries| ==> entries[j].path != entries[k].path
  }

  /** Neither entry needs a folder where the other puts something else. */
  predicate Apart(e: Entry, f: Entry) {
    && (Leaf(e) ==> !OnWay(e.path, f.path))
    && (Leaf(f) ==> !OnWay(f.path, e.path))
  }

  ghost predicate AllApart(entries: seq<Entry>) {
    forall j, k :: 0 <= j < k < |entries| ==> Apart(entries[j], entries[k])
  }

  ghost predicate AllWelcome(entries: seq<Entry>, t: Tree, policy: Policy) {
    forall e :: e in entries ==> Welcome(e, t, policy)
  }

  ghost predicate Stands(e: Entry, t: Tree) {
    e.path in t && IsNode(e, t[e.path])
  }

  /** After placing: every entry stands; what no entry took the place of is as it was;
      and anything else is an entry or a folder on the way to one. */
  ghost predicate Holding(entries: seq<Entry>, t0: Tree, t: Tree) {
    && Closed(t)
    && (forall e :: e in entries ==> Stands(e, t))
    && (forall p :: p in t0 && !Taken(entries, p) ==> p in t && t[p] == t0[p])
    && (forall p :: p in t && (p !in t0 || Taken(entries, p)) ==> Arrived(entries, t, p))
  }

  ghost predicate Arrived(entries: seq<Entry>, t: Tree, p: Path)
    requires p in t
  {
    Needed(entries, p) && (t[p].Folder? || exists e :: e in entries && e.path == p)
  }

  lemma HoldingNothing(t: Tree)
    requires Closed(t)
    ensures Holding([], t, t)
  {
    assert forall p :: !Taken([], p);
  }

  lemma HoldingMore(front: seq<Entry>, last: Entry, t0: Tree, t: Tree, after: Tree)
    requires Holding(front, t0, t) && Changed(last, t, after)
    requires forall f :: f in front ==> f.path != last.path && Apart(f, last)
    ensures Holding(front + [last], t0, after)
  {
    var all := front + [last];
    forall f | f in all
      ensures Stands(f, after)
    {
      if f in front {
        assert Stands(f, t) && f.path != last.path && Apart(f, last);
      }
    }
    forall p
      ensures Taken(all, p) <==> Taken(front, p) || (Leaf(last) && OnWay(last.path, p))
    {
      TakenSnoc(front, last, p);
    }
    forall p | p in after && (p !in t0 || Taken(all, p))
      ensures Arrived(all, after, p)
    {
      ArrivedMore(front, last, t0, t, after, p);
    }
  }

  lemma TakenSnoc(front: seq<Entry>, last: Entry, p: Path)
    ensures Taken(front + [last], p) <==> Taken(front, p) || (Leaf(last) && OnWay(last.path, p))
  {
    assert last in front + [last];
    forall e | e in front
      ensures e in front + [last]
    {
    }
  }

  lemma ArrivedMore(front: seq<Entry>, last: Entry, t0: Tree, t: Tree, after: Tree, p: Path)
    requires Holding(front, t0, t) && Changed(last, t, after)
    requires p in after && (p !in t0 || Taken(front + [last], p))
    ensures Arrived(front + [last], after, p)
  {
    hide OnWay, IsNode, Stands, Leaf;
    var all := front + [last];
    assert last in all;
    TakenSnoc(front, last, p);
    PrefixStep(last.path, last.path);
    if OnWay(p, last.path) {
      if p != last.path {
        AboveIsFolder(after, last.path, p);
      }
    } else {
      ArrivedStays(front, last, t, after, p);
    }
  }

  lemma ArrivedStays(front: seq<Entry>, last: Entry, t: Tree, after: Tree, p: Path)
    requires p in t && p in after && after[p] == t[p] && Arrived(front, t, p)
    ensures Arrived(front + [last], after, p)
  {
    var e :| e in front && OnWay(p, e.path);
    assert e in front + [last];
    if f :| f in front && f.path == p {
      assert f in front + [last];
    }
  }

  /** Something that is not a folder stays in the way, whatever is placed. */
  lemma StillBlocked(front: seq<Entry>, t0: Tree, t: Tree, p: Path)
    requires Holding(front, t0, t) && Blocked(t0, p)
    ensures Blocked(t, p)
  {
    var q :| q in t0 && OnWay(q, p) && !t0[q].Folder?;
    if Taken(front, q) {
      var e :| e in front && Leaf(e) && OnWay(e.path, q);
      PrefixTrans(e.path, q, p);
      assert Stands(e, t);
    }
  }

  lemma LeafBlocks(e: Entry, t: Tree, f: Entry)
    requires Stands(e, t) && Leaf(e) && OnWay(e.path, f.path) && e.path != f.path
    ensures f.path != [] && Blocked(t, BaseOf(f))
  {
    PrefixStep(e.path, f.path);
  }

  /** What is in the way after placing was there before or is an entry. */
  lemma BlockedComesFrom(front: seq<Entry>, t0: Tree, t: Tree, p: Path)
    requires Holding(front, t0, t) && Blocked(t, p)
    ensures Blocked(t0, p) || exists e :: e in front && Leaf(e) && OnWay(e.path, p)
  {
    var q :| q in t && OnWay(q, p) && !t[q].Folder?;
    if q !in t0 || Taken(front, q) {
      assert Arrived(front, t, q);
      var e :| e in front && e.path == q;
      assert Stands(e, t);
    }
  }

  lemma FolderComesFrom(front: seq<Entry>, t0: Tree, t: Tree, p: Path)
    requires Holding(front, t0, t) && p in t && t[p].Folder?
    ensures (p in t0 && t0[p].Folder?) || Needed(front, p)
  {
    if p !in t0 || Taken(front, p) {
      assert Arrived(front, t, p);
    }
  }

  lemma BaseOnWay(e: Entry, q: Path)
    requires e.path != [] && OnWay(q, BaseOf(e))
    ensures OnWay(q, e.path)
  {
    PrefixStep(q, e.path);
  }

  /** What is welcome after the entries before it was welcome before, and is apart from
      them. */
  lemma WelcomeEarlier(front: seq<Entry>, last: Entry, t0: Tree, t: Tree, policy: Policy)
    requires !policy.replaceDirectories && Holding(front, t0, t) && Welcome(last, t, policy)
    requires forall f :: f in front ==> f.path != last.path
    ensures Welcome(last, t0, policy) && forall f :: f in front ==> Apart(f, last)
  {
    forall f | f in front
      ensures Apart(f, last)
    {
      if Leaf(f) && OnWay(f.path, last.path) {
        LeafBlocks(f, t, last);
      }
      if Leaf(last) && OnWay(last.path, f.path) {
        AboveIsFolder(t, f.path, last.path);
      }
    }
    if Blocked(t0, BaseOf(last)) {
      StillBlocked(front, t0, t, BaseOf(last));
    }
  }

  /** And the other way round. */
  lemma WelcomeLater(front: seq<Entry>, last: Entry, t0: Tree, t: Tree, policy: Policy)
    requires Holding(front, t0, t) && Welcome(last, t0, policy)
    requires forall f :: f in front ==> f.path != last.path && Apart(f, last)
    ensures Welcome(last, t, policy)
  {
    forall f | f in front && Leaf(f)
      ensures !OnWay(f.path, BaseOf(last))
    {
      if OnWay(f.path, BaseOf(last)) {
        BaseOnWay(last, f.path);
      }
    }
    if Blocked(t, BaseOf(last)) {
      BlockedComesFrom(front, t0, t, BaseOf(last));
    }
    if Leaf(last) && last.path in t && t[last.path].Folder? {
      FolderComesFrom(front, t0, t, last.path);
    }
  }

  // ----- all of them -----

  /** Each hard link's source is a file that comes before it. */
  ghost predicate SourcesFirst(entries: seq<Entry>) {
    entries == [] ||
    (var front, last := entries[..|entries| - 1], entries[|entries| - 1];
     && SourcesFirst(front)
     && (last.Hardlink? ==> exists e :: e in front && e.File? && e.path == last.source))
  }

  /** A hard link holds what its source holds. */
  ghost predicate Twins(entries: seq<Entry>, t: Tree) {
    forall e, f :: e in entries && f in entries && e.File? && f.Hardlink? && f.source == e.path ==>
      e.path in t && f.path in t && t[f.path] == t[e.path]
  }

  ghost predicate AllInOrder(entries: seq<Entry>, chunks: Chunks) {
    forall e :: e in entries ==> InOrder(e, chunks)
  }

  lemma Unsnoc(entries: seq<Entry>, front: seq<Entry>, last: Entry)
    requires entries != [] && front == entries[..|entries| - 1] && last == entries[|entries| - 1]
    ensures entries == front + [last]
    ensures OneEach(entries) ==> OneEach(front) && forall f :: f in front ==> f.path != last.path
    ensures AllApart(entries) ==> AllApart(front) && forall f :: f in front ==> Apart(f, last)
  {
  }

  lemma ApartSnoc(front: seq<Entry>, last: Entry)
    requires AllApart(front) && forall f :: f in front ==> Apart(f, last)
    ensures AllApart(front + [last])
  {
  }

  /** Whatever the store and whoever made the list: under the sparing policy, success
      means that there was room for every entry and they do not get into each other's
      way; every file then has the size declared and the content its references name,
      and nothing else has changed. */
  lemma {:induction false} PlacedHolds(entries: seq<Entry>, chunks: Chunks, t: Tree, policy: Policy, canon: Resolver)
    requires Closed(t) && OneEach(entries) && !policy.replaceDirectories
    requires Placed(entries, chunks, t, policy, canon).Ok?
    ensures AllApart(entries) && AllWelcome(entries, t, policy) && AllInOrder(entries, chunks)
    ensures Holding(entries, t, Placed(entries, chunks, t, policy, canon).value)
  {
    hide Holding, Welcome, Apart, InOrder, PlacedOne, Changed, AllApart, OneEach, Closed;
    if entries == [] {
      HoldingNothing(t);
      NoneApart();
    } else {
      var front, last := entries[..|entries| - 1], entries[|entries| - 1];
      Unsnoc(entries, front, last);
      PlacedHolds(front, chunks, t, policy, canon);
      var mid := Placed(front, chunks, t, policy, canon).value;
      HoldingIsClosed(front, t, mid);
      PlacedOneExactly(last, chunks, mid, policy, canon);
      WelcomeEarlier(front, last, t, mid, policy);
      ApartSnoc(front, last);
      HoldingMore(front, last, t, mid, PlacedOne(last, chunks, mid, policy, canon).value);
    }
  }

  lemma NoneApart()
    ensures AllApart([])
  {
  }

  lemma HoldingIsClosed(entries: seq<Entry>, t0: Tree, t: Tree)
    requires Holding(entries, t0, t)
    ensures Closed(t)
  {
  }

  /** And such a list does succeed, under either policy. */
  lemma {:induction false} PlacedSucceeds(entries: seq<Entry>, chunks: Chunks, t: Tree, policy: Policy, canon: Resolver)
    requires Closed(t) && OneEach(entries) && Resolves(canon)
    requires AllApart(entries) && AllWelcome(entries, t, policy) && AllInOrder(entries, chunks) && SourcesFirst(entries)
    ensures Placed(entries, chunks, t, policy, canon).Ok?
    ensures Holding(entries, t, Placed(entries, chunks, t, policy, canon).value)
    ensures Twins(entries, Placed(entries, chunks, t, policy, canon).value)
  {
    hide Holding, Welcome, Apart, InOrder, PlacedOne, Changed, AllApart, OneEach, Closed, Twins;
    if entries == [] {
      HoldingNothing(t);
      NoTwins(t);
    } else {
      var front, last := entries[..|entries| - 1], entries[|entries| - 1];
      Unsnoc(entries, front, last);
      PlacedSucceeds(front, chunks, t, policy, canon);
      var mid := Placed(front, chunks, t, policy, canon).value;
      HoldingIsClosed(front, t, mid);
      WelcomeLater(front, last, t, mid, policy);
      PlacedOneExactly(last, chunks, mid, policy, canon);
      if last.Hardlink? {
        SourceStands(front, last, t, mid);
        HardlinkSucceeds(last, mid, policy, canon);
        HardlinkIsPlaced(last, chunks, mid, policy, canon);
      }
      var after := PlacedOne(last, chunks, mid, policy, canon).value;
      HoldingMore(front, last, t, mid, after);
      TwinsMore(front, last, t, mid, after);
    }
  }

  lemma NoTwins(t: Tree)
    ensures Twins([], t)
  {
  }

  lemma HardlinkIsPlaced(e: Entry, chunks: Chunks, t: Tree, policy: Policy, canon: Resolver)
    requires e.Hardlink?
    ensures PlacedOne(e, chunks, t, policy, canon) == PlacedHardlink(e.path, e.source, t, policy, canon)
  {
  }

  lemma SourceStands(front: seq<Entry>, last: Entry, t0: Tree, t: Tree)
    requires Holding(front, t0, t) && last.Hardlink?
    requires exists e :: e in front && e.File? && e.path == last.source
    requires forall f :: f in front ==> Apart(f, last)
    ensures SourceIn(last, t)
  {
    var e :| e in front && e.File? && e.path == last.source;
    assert Stands(e, t);
  }

  lemma {:induction false} TwinsMore(front: seq<Entry>, last: Entry, t0: Tree, t: Tree, after: Tree)
    requires Holding(front, t0, t) && Twins(front, t) && Changed(last, t, after) && SourcesFirst(front)
    requires forall f :: f in front ==> f.path != last.path && Apart(f, last)
    requires last.Hardlink? ==> last.path in after && last.source in t && after[last.path] == t[last.source]
    ensures Twins(front + [last], after)
  {
    var all := front + [last];
    forall e | e in front
      ensures e.path in t && e.path in after && after[e.path] == t[e.path]
    {
      assert Stands(e, t);
    }
    forall e, f | e in all && f in all && e.File? && f.Hardlink? && f.source == e.path
      ensures e.path in after && f.path in after && after[f.path] == after[e.path]
    {
      if f in front {
        SourceBefore(front, f);
      }
    }
  }

  lemma {:induction false} SourceBefore(entries: seq<Entry>, f: Entry)
    requires SourcesFirst(entries) && f in entries && f.Hardlink?
    ensures exists e :: e in entries && e.File? && e.path == f.source
  {
    var front, last := entries[..|entries| - 1], entries[|entries| - 1];
    if f in front {
      SourceBefore(front, f);
      var e :| e in front && e.File? && e.path == f.source;
      assert e in entries;
    } else {
      assert f == last;
      var e :| e in front && e.File? && e.path == f.source;
      assert e in entries;
    }
  }

  /** Under either policy, whatever succeeds leaves alone everything that no entry takes
      the place of. */
  lemma {:induction false} OthersSpared(entries: seq<Entry>, chunks: Chunks, t: Tree, policy: Policy, canon: Resolver, p: Path)
    requires Closed(t) && Placed(entries, chunks, t, policy, canon).Ok?
    requires p in t && !Taken(entries, p)
    ensures Closed(Placed(entries, chunks, t, policy, canon).value)
    ensures p in Placed(entries, chunks, t, policy, canon).value &&
            Placed(entries, chunks, t, policy, canon).value[p] == t[p]
  {
    hide Closed, PlacedOne;
    if entries != [] {
      var front, last := entries[..|entries| - 1], entries[|entries| - 1];
      Unsnoc(entries, front, last);
      TakenSnoc(front, last, p);
      OthersSpared(front, chunks, t, policy, canon, p);
      PlacedOneExactly(last, chunks, Placed(front, chunks, t, policy, canon).value, policy, canon);
      PrefixStep(last.path, last.path);
    }
  }

  /** Where folders may be replaced, the entry that takes one's place takes all of it. */
  lemma FolderGoesWhole(e: Entry, chunks: Chunks, t: Tree, policy: Policy, canon: Resolver, p: Path)
    requires Closed(t) && Leaf(e) && PlacedOne(e, chunks, t, policy, canon).Ok?
    requires p in t && OnWay(e.path, p) && p != e.path
    ensures policy.replaceDirectories && p !in PlacedOne(e, chunks, t, policy, canon).value
  {
    PlacedOneExactly(e, chunks, t, policy, canon);
    AboveIsFolder(t, p, e.path);
    OnWayShorter(e.path, p);
  }

  // ----- a whole index -----

  lemma {:induction false} PickedHas(entries: seq<Entry>, pass: nat, e: Entry)
    ensures e in Picked(entries, pass) <==> e in entries && PassOf(e) == pass
  {
    if entries != [] {
      var front, last := entries[..|entries| - 1], entries[|entries| - 1];
      Unsnoc(entries, front, last);
      PickedHas(front, pass, e);
    }
  }

  lemma InPassesHas(entries: seq<Entry>)
    ensures forall e :: e in InPasses(entries) <==> e in entries
  {
    forall e
      ensures e in InPasses(entries) <==> e in entries
    {
      PickedHas(entries, 1, e);
      PickedHas(entries, 2, e);
      PickedHas(entries, 3, e);
    }
  }

  lemma {:induction false} PickedOneEach(entries: seq<Entry>, pass: nat)
    requires OneEach(entries)
    ensures OneEach(Picked(entries, pass))
  {
    if entries != [] {
      var front, last := entries[..|entries| - 1], entries[|entries| - 1];
      Unsnoc(entries, front, last);
      PickedOneEach(front, pass);
      forall e | e in Picked(front, pass)
        ensures e.path != last.path
      {
        PickedHas(front, pass, e);
      }
    }
  }

  lemma SameEntry(entries: seq<Entry>, e: Entry, f: Entry)
    requires OneEach(entries) && e in entries && f in entries && e.path == f.path
    ensures e == f
  {
  }

  lemma OneEachAppend(a: seq<Entry>, b: seq<Entry>)
    requires OneEach(a) && OneEach(b) && forall e, f :: e in a && f in b ==> e.path != f.path
    ensures OneEach(a + b)
  {
  }

  lemma InPassesOneEach(entries: seq<Entry>)
    requires OneEach(entries)
    ensures OneEach(InPasses(entries))
  {
    hide OneEach, Picked;
    var one, two, three := Picked(entries, 1), Picked(entries, 2), Picked(entries, 3);
    PickedOneEach(entries, 1);
    PickedOneEach(entries, 2);
    PickedOneEach(entries, 3);
    PassesDiffer(entries, 1, 2);
    OneEachAppend(one, two);
    PassesDiffer(entries, 1, 3);
    PassesDiffer(entries, 2, 3);
    OneEachAppend(one + two, three);
  }

  lemma {:induction false} PassesDiffer(entries: seq<Entry>, m: nat, n: nat)
    requires OneEach(entries) && m != n
    ensures forall e, f :: e in Picked(entries, m) && f in Picked(entries, n) ==> e.path != f.path
  {
    forall e, f | e in Picked(entries, m) && f in Picked(entries, n)
      ensures e.path != f.path
    {
      PickedHas(entries, m, e);
      PickedHas(entries, n, f);
      if e.path == f.path {
        SameEntry(entries, e, f);
      }
    }
  }

  /** Pairwise, whatever the order. */
  ghost predicate ApartByPath(entries: seq<Entry>) {
    forall e, f :: e in entries && f in entries && e.path != f.path ==> Apart(e, f)
  }

  lemma ApartInAnyOrder(entries: seq<Entry>)
    requires OneEach(entries)
    ensures AllApart(entries) <==> ApartByPath(entries)
  {
    if AllApart(entries) {
      forall e, f | e in entries && f in entries && e.path != f.path
        ensures Apart(e, f)
      {
        var j :| 0 <= j < |entries| && entries[j] == e;
        var k :| 0 <= k < |entries| && entries[k] == f;
        assert j < k || k < j;
        assert Apart(e, f) <==> Apart(f, e);
      }
    }
    if ApartByPath(entries) {
      forall j, k | 0 <= j < k < |entries|
        ensures Apart(entries[j], entries[k])
      {
        assert entries[j].path != entries[k].path;
      }
    }
  }

  lemma {:induction false} SourcesPicked(entries: seq<Entry>, pass: nat)
    requires SourcesFirst(entries)
    ensures SourcesFirst(Picked(entries, pass))
  {
    if entries != [] {
      var front, last := entries[..|entries| - 1], entries[|entries| - 1];
      SourcesPicked(front, pass);
      if PassOf(last) == pass {
        var picked := Picked(front, pass);
        assert (picked + [last])[..|picked|] == picked;
        if last.Hardlink? {
          var e :| e in front && e.File? && e.path == last.source;
          PickedHas(front, pass, e);
        }
      } else {
        assert Picked(entries, pass) == Picked(front, pass);
      }
    }
  }

  lemma {:induction false} SourcesAppend(a: seq<Entry>, b: seq<Entry>)
    requires SourcesFirst(a) && SourcesFirst(b)
    ensures SourcesFirst(a + b)
  {
    if b == [] {
      assert a + b == a;
    } else {
      var front, last := b[..|b| - 1], b[|b| - 1];
      SourcesAppend(a, front);
      assert (a + b)[..|a + b| - 1] == a + front && (a + b)[|a + b| - 1] == last;
      if last.Hardlink? {
        var e :| e in front && e.File? && e.path == last.source;
        assert e in a + front;
      }
    }
  }

  lemma {:induction false} InPassesSources(entries: seq<Entry>)
    requires SourcesFirst(entries)
    ensures SourcesFirst(InPasses(entries))
  {
    hide SourcesFirst, Picked;
    SourcesPicked(entries, 1);
    SourcesPicked(entries, 2);
    SourcesPicked(entries, 3);
    SourcesAppend(Picked(entries, 1), Picked(entries, 2));
    SourcesAppend(Picked(entries, 1) + Picked(entries, 2), Picked(entries, 3));
  }

  lemma SameHolding(a: seq<Entry>, b: seq<Entry>, t0: Tree, t: Tree)
    requires (forall e :: e in a <==> e in b) && Holding(a, t0, t)
    ensures Holding(b, t0, t)
  {
    forall p
      ensures Taken(a, p) <==> Taken(b, p)
    {
    }
    forall p | p in t && (p !in t0 || Taken(b, p))
      ensures Arrived(b, t, p)
    {
      assert Arrived(a, t, p);
      var e :| e in a && OnWay(p, e.path);
      assert e in b;
    }
  }

  /** Room for a whole index: every path is free or to be taken, none gets into another's
      way, and every link's target stays inside. */
  ghost predicate RoomFor(entries: seq<Entry>, t: Tree, policy: Policy) {
    && ApartByPath(entries)
    && AllWelcome(entries, t, policy)
    && LinksInside(entries)
  }

  ghost predicate LinksInside(entries: seq<Entry>) {
    forall e :: e in entries && e.Symlink? ==> e.path != [] && StaysInside(e.path, e.target)
  }

  /** Whatever the store and whoever made the index: under the sparing policy, if
      materializing succeeds there was room for it, every file has the size declared
      and the content its references name, folders and links are there, and nothing
      else in the directory has changed. */
  lemma PlacedIsNamed(entries: seq<Entry>, chunks: Chunks, t: Tree, policy: Policy, canon: Resolver)
    requires Closed(t) && OneEach(entries) && !policy.replaceDirectories
    requires Reconstructed(entries, chunks, t, policy, canon).Ok?
    ensures RoomFor(entries, t, policy) && AllInOrder(entries, chunks)
    ensures Holding(entries, t, Reconstructed(entries, chunks, t, policy, canon).value)
  {
    hide Holding, Welcome, Apart, Closed, Placed, InPasses, OneEach, AllApart;
    var all := InPasses(entries);
    InPassesHas(entries);
    InPassesOneEach(entries);
    PlacedHolds(all, chunks, t, policy, canon);
    ApartInAnyOrder(all);
    SameHolding(all, entries, t, Reconstructed(entries, chunks, t, policy, canon).value);
    forall e | e in entries && e.Symlink?
      ensures e.path != [] && StaysInside(e.path, e.target)
    {
      assert InOrder(e, chunks);
    }
  }

  // ----- the round trip -----

  ghost predicate DistinctItems(items: seq<Source>) {
    forall j, k :: 0 <= j < k < |items| ==> items[j].path != items[k].path
  }

  /** Names of one inode are one file. */
  ghost predicate OneFilePerInode(items: seq<Source>) {
    forall j, k :: 0 <= j < k < |items| && Linked(items, j, k) ==> items[j].data == items[k].data
  }

  /** The item is in the directory as it was in the tree. */
  ghost predicate ComesBack(item: Source, t: Tree) {
    item.path in t &&
    match item
    case SrcDir(_) => t[item.path].Folder?
    case SrcLink(_, target) => t[item.path] == Link(target)
    case SrcFile(_, data, _, _) => t[item.path] == Regular(data)
    case SrcSpecial(_) => true
  }

  ghost predicate AllComeBack(items: seq<Source>, t: Tree) {
    forall k :: 0 <= k < |items| ==> ComesBack(items[k], t)
  }

  /** An index that describes a tree, over any store that holds its chunks. Under either
      policy it materializes with the whole tree back, hard links included, if and only
      if the directory has room for it; and then everything else in the directory is as
      it was. Under the sparing policy it does not even succeed otherwise. */
  lemma {:induction false} TreeComesBack(entries: seq<Entry>, items: seq<Source>, chunks: Chunks, t: Tree, policy: Policy,
                                         canon: Resolver)
    requires Describes(entries, items) && DistinctItems(items) && OneFilePerInode(items)
    requires Genuine(chunks) && AllStored(Refs(entries), chunks)
    requires Closed(t) && Resolves(canon)
    ensures var r := Reconstructed(entries, chunks, t, policy, canon);
            && (r.Ok? && AllComeBack(items, r.value) <==> RoomFor(entries, t, policy))
            && (RoomFor(entries, t, policy) ==> Holding(entries, t, r.value))
            && (!policy.replaceDirectories ==> (r.Ok? <==> RoomFor(entries, t, policy)))
  {
    hide Holding, Closed, Placed, InPasses, DescribesAt, Resolves, RoomFor, AllComeBack;
    DescribedPaths(entries, items);
    if RoomFor(entries, t, policy) {
      RoomIsEnough(entries, items, chunks, t, policy, canon);
    }
    var r := Reconstructed(entries, chunks, t, policy, canon);
    if !policy.replaceDirectories && r.Ok? {
      PlacedIsNamed(entries, chunks, t, policy, canon);
    }
    if r.Ok? && AllComeBack(items, r.value) {
      RoomIsNeeded(entries, items, chunks, t, policy, canon);
    }
  }

  lemma {:induction false} RoomIsEnough(entries: seq<Entry>, items: seq<Source>, chunks: Chunks, t: Tree, policy: Policy,
                                        canon: Resolver)
    requires Describes(entries, items) && OneEach(entries) && OneFilePerInode(items)
    requires Genuine(chunks) && AllStored(Refs(entries), chunks)
    requires Closed(t) && Resolves(canon) && RoomFor(entries, t, policy)
    ensures var r := Reconstructed(entries, chunks, t, policy, canon);
            r.Ok? && AllComeBack(items, r.value) && Holding(entries, t, r.value)
  {
    hide Holding, Welcome, Apart, Closed, Placed, InPasses, AllApart, DescribesAt, Resolves, SourcesFirst, Twins;
    var all := InPasses(entries);
    InPassesHas(entries);
    InPassesOneEach(entries);
    ApartInAnyOrder(all);
    DescribedSources(entries, items, |entries|);
    assert entries[..|entries|] == entries;
    InPassesSources(entries);
    DescribedInOrder(entries, items, chunks);
    PlacedSucceeds(all, chunks, t, policy, canon);
    var after := Reconstructed(entries, chunks, t, policy, canon).value;
    SameHolding(all, entries, t, after);
    forall k | 0 <= k < |items|
      ensures ComesBack(items[k], after)
    {
      ItemComesBack(entries, items, k, all, t, after);
    }
  }

  /** The other half: with everything back, nothing was in the way, whatever was allowed
      to be replaced. */
  lemma RoomIsNeeded(entries: seq<Entry>, items: seq<Source>, chunks: Chunks, t: Tree, policy: Policy,
                     canon: Resolver)
    requires Describes(entries, items) && OneEach(entries) && Closed(t)
    requires var r := Reconstructed(entries, chunks, t, policy, canon); r.Ok? && AllComeBack(items, r.value)
    ensures RoomFor(entries, t, policy)
  {
    hide Closed, Placed, InPasses, DescribesAt, OneEach, Welcome, Apart;
    var all, after := InPasses(entries), Reconstructed(entries, chunks, t, policy, canon).value;
    InPassesHas(entries);
    InPassesOneEach(entries);
    forall e | e in all
      ensures EndsPath(e, after)
    {
      var k :| 0 <= k < |entries| && entries[k] == e;
      BackEndsPath(entries, items, k, after);
    }
    StandingApart(all, chunks, t, policy, canon);
    StandingWelcome(all, chunks, t, policy, canon);
    forall e | e in entries && e.Symlink?
      ensures e.path != [] && StaysInside(e.path, e.target)
    {
      assert InOrder(e, chunks);
    }
  }

  /** A folder entry's path holds a folder, any other's something else. */
  ghost predicate EndsPath(e: Entry, t: Tree) {
    e.path in t && (Leaf(e) <==> !t[e.path].Folder?)
  }

  lemma BackEndsPath(entries: seq<Entry>, items: seq<Source>, k: nat, t: Tree)
    requires Describes(entries, items) && k < |items| && AllComeBack(items, t)
    ensures EndsPath(entries[k], t)
  {
    assert DescribesAt(entries, items, k) && ComesBack(items[k], t);
  }

  lemma {:induction false} StandingApart(entries: seq<Entry>, chunks: Chunks, t: Tree, policy: Policy, canon: Resolver)
    requires Closed(t) && Placed(entries, chunks, t, policy, canon).Ok?
    requires forall e :: e in entries ==> EndsPath(e, Placed(entries, chunks, t, policy, canon).value)
    ensures ApartByPath(entries)
  {
    hide Closed, Placed;
    PlacedKeeps(entries, chunks, t, policy, canon);
    var after := Placed(entries, chunks, t, policy, canon).value;
    forall e, f | e in entries && f in entries && e.path != f.path
      ensures Apart(e, f)
    {
      NothingBelow(e, f.path, after);
      NothingBelow(f, e.path, after);
    }
  }

  lemma NothingBelow(e: Entry, p: Path, t: Tree)
    requires Closed(t) && EndsPath(e, t) && p in t && p != e.path
    ensures Leaf(e) ==> !OnWay(e.path, p)
  {
    if OnWay(e.path, p) {
      AboveIsFolder(t, p, e.path);
    }
  }

  /** What every successful run keeps and needs: the directory stays a tree, every entry
      was in order, and what was in the way of a path still is. */
  lemma {:induction false} PlacedKeeps(entries: seq<Entry>, chunks: Chunks, t: Tree, policy: Policy, canon: Resolver)
    requires Closed(t) && Placed(entries, chunks, t, policy, canon).Ok?
    ensures Closed(Placed(entries, chunks, t, policy, canon).value)
    ensures AllInOrder(entries, chunks) && forall e :: e in entries ==> e.path != []
    ensures forall p :: Blocked(t, p) ==> Blocked(Placed(entries, chunks, t, policy, canon).value, p)
  {
    hide Closed, PlacedOne, InOrder, Blocked, Welcome, Changed;
    if entries != [] {
      var front, last := entries[..|entries| - 1], entries[|entries| - 1];
      Unsnoc(entries, front, last);
      PlacedKeeps(front, chunks, t, policy, canon);
      var mid := Placed(front, chunks, t, policy, canon).value;
      PlacedOneExactly(last, chunks, mid, policy, canon);
      forall p | Blocked(mid, p)
        ensures Blocked(PlacedOne(last, chunks, mid, policy, canon).value, p)
      {
        BlockedStays(last, mid, PlacedOne(last, chunks, mid, policy, canon).value, p);
      }
      ChangedIsTree(last, mid, PlacedOne(last, chunks, mid, policy, canon).value);
    }
  }

  lemma ChangedIsTree(e: Entry, t: Tree, after: Tree)
    requires Changed(e, t, after)
    ensures Closed(after) && e.path != []
  {
  }

  lemma BlockedStays(e: Entry, t: Tree, after: Tree, p: Path)
    requires Changed(e, t, after) && Blocked(t, p)
    ensures Blocked(after, p)
  {
    var q :| q in t && OnWay(q, p) && !t[q].Folder?;
    if Leaf(e) && OnWay(e.path, q) {
      PrefixTrans(e.path, q, p);
      assert !after[e.path].Folder?;
    }
  }

  lemma {:induction false} StandingWelcome(entries: seq<Entry>, chunks: Chunks, t: Tree, policy: Policy, canon: Resolver)
    requires Closed(t) && OneEach(entries) && Placed(entries, chunks, t, policy, canon).Ok?
    requires forall e :: e in entries ==> EndsPath(e, Placed(entries, chunks, t, policy, canon).value)
    ensures AllWelcome(entries, t, policy) && AllInOrder(entries, chunks)
  {
    hide Closed, Placed, OneEach, InOrder, Blocked;
    PlacedKeeps(entries, chunks, t, policy, canon);
    var after := Placed(entries, chunks, t, policy, canon).value;
    if !policy.replaceDirectories {
      PlacedHolds(entries, chunks, t, policy, canon);
    } else {
      forall e | e in entries
        ensures Welcome(e, t, policy)
      {
        StandingUnblocked(e, after);
      }
    }
  }

  lemma StandingUnblocked(e: Entry, t: Tree)
    requires Closed(t) && EndsPath(e, t) && e.path != []
    ensures !Blocked(t, BaseOf(e))
  {
    forall q | q in t && OnWay(q, BaseOf(e))
      ensures t[q].Folder?
    {
      PrefixStep(q, e.path);
      if q != e.path {
        AboveIsFolder(t, e.path, q);
      }
    }
  }

  lemma DescribedPaths(entries: seq<Entry>, items: seq<Source>)
    requires Describes(entries, items) && DistinctItems(items)
    ensures OneEach(entries)
  {
    forall j, k | 0 <= j < k < |entries|
      ensures entries[j].path != entries[k].path
    {
      assert DescribesAt(entries, items, j) && DescribesAt(entries, items, k);
    }
  }

  lemma DescribedSources(entries: seq<Entry>, items: seq<Source>, n: nat)
    requires Describes(entries, items) && n <= |entries|
    ensures SourcesFirst(entries[..n])
  {
    if n > 0 {
      DescribedSources(entries, items, n - 1);
      assert entries[..n][..n - 1] == entries[..n - 1];
      assert DescribesAt(entries, items, n - 1);
      if entries[n - 1].Hardlink? {
        var j :| 0 <= j < n - 1 && Linked(items, j, n - 1) && entries[j].File? && entries[j].path == entries[n - 1].source;
        assert entries[j] in entries[..n - 1];
      }
    }
  }

  lemma {:induction false} DescribedInOrder(entries: seq<Entry>, items: seq<Source>, chunks: Chunks)
    requires Describes(entries, items) && Genuine(chunks) && AllStored(Refs(entries), chunks) && LinksInside(entries)
    ensures AllInOrder(entries, chunks)
  {
    forall e | e in entries
      ensures InOrder(e, chunks)
    {
      var k :| 0 <= k < |entries| && entries[k] == e;
      assert DescribesAt(entries, items, k);
      if e.File? {
        StoredIsServable(entries, k, chunks);
        AssembledExactly(e.chunks, chunks);
      }
    }
  }

  lemma {:induction false} StoredIsServable(entries: seq<Entry>, k: nat, chunks: Chunks)
    requires Genuine(chunks) && AllStored(Refs(entries), chunks)
    requires k < |entries| && entries[k].File? && TrueLens(entries[k].chunks)
    ensures Servable(entries[k].chunks, chunks)
  {
    forall c | c in entries[k].chunks
      ensures c.hash in chunks && Hash(chunks[c.hash]) == c.hash && |c.hash.preimage| % U32_SPAN == c.len
    {
      RefsOf(entries, k, c);
      FitsU32(|c.hash.preimage|);
    }
  }

  lemma ItemComesBack(entries: seq<Entry>, items: seq<Source>, k: nat, all: seq<Entry>, t0: Tree, t: Tree)
    requires Describes(entries, items) && OneFilePerInode(items) && k < |items|
    requires (forall e :: e in all <==> e in entries) && Holding(all, t0, t) && Twins(all, t)
    ensures ComesBack(items[k], t)
  {
    hide Holding, Closed, IsNode, SeenBefore, FileOf, Twins;
    assert DescribesAt(entries, items, k) && entries[k] in all;
    EntryStands(all, t0, t, entries[k]);
    if entries[k].Hardlink? {
      LinkComesBack(entries, items, k, all, t0, t);
    } else {
      PlainComesBack(entries, items, k, t);
    }
  }

  lemma EntryStands(entries: seq<Entry>, t0: Tree, t: Tree, e: Entry)
    requires Holding(entries, t0, t) && e in entries
    ensures Stands(e, t)
  {
  }

  lemma PlainComesBack(entries: seq<Entry>, items: seq<Source>, k: nat, t: Tree)
    requires k < |entries| && k < |items| && DescribesAt(entries, items, k)
    requires Stands(entries[k], t) && !entries[k].Hardlink?
    ensures ComesBack(items[k], t)
  {
  }

  lemma LinkComesBack(entries: seq<Entry>, items: seq<Source>, k: nat, all: seq<Entry>, t0: Tree, t: Tree)
    requires Describes(entries, items) && OneFilePerInode(items) && k < |items| && entries[k].Hardlink?
    requires (forall e :: e in all <==> e in entries) && Holding(all, t0, t) && Twins(all, t)
    ensures ComesBack(items[k], t)
  {
    hide Holding, Closed, IsNode, Preimages, TrueLens;
    assert DescribesAt(entries, items, k) && entries[k] in all;
    var j :| 0 <= j < k && Linked(items, j, k) && entries[j].File? && entries[j].path == entries[k].source;
    assert DescribesAt(entries, items, j) && entries[j] in all;
    EntryStands(all, t0, t, entries[j]);
    PlainComesBack(entries, items, j, t);
  }
}
