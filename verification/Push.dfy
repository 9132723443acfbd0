/** The push protocol's shared state and its lock-held sections: src/server.rs. Each
    function here is one critical section; what happens between them is not atomic. */
module PushSections {
  import opened Basics
  import opened Geometry
  import opened Bits
  import opened Resume

  /** What hashing a whole file yields: its root and its length. */
  datatype Outboard = Outboard(root: Hash, len: nat) {
    static function Of(content: Bytes): Outboard {
      Outboard(Hash(content), |content|)
    }
  }

  /** A blob being served. The backing file is not part of it. */
  datatype Registered = Registered(manifest: Manifest, chunks: TransferChunks, outboard: Outboard)

  /** A push in progress. */
  datatype PushEntry = PushEntry(
    manifest: Manifest,
    chunks: TransferChunks,
    state: Sidecar,
    lastActivity: nat,
    dirtyMarks: nat)

  datatype PushConfig = PushConfig(maxConcurrent: nat, idleTimeout: nat)

  /** The two maps, each behind its own lock. */
  datatype Maps = Maps(registry: map<string, Registered>, pushes: map<string, PushEntry>)

  const SAVE_EVERY: nat := 16

  // ----- sections on the registry -----

  datatype RegisterReply = Inserted | AlreadySame | AlreadyDifferent

  /** Insert unless the id is taken; identical content is a no-op. Both the direct
      registration and the end of a push go through this. */
  function Register(s: Maps, m: Manifest, chunks: TransferChunks, outboard: Outboard): (Maps, RegisterReply) {
    if m.id in s.registry then
      (s, if s.registry[m.id].manifest.root == m.root then AlreadySame else AlreadyDifferent)
    else
      (s.(registry := s.registry[m.id := Registered(m, chunks, outboard)]), Inserted)
  }

  function Unregister(s: Maps, id: string): Maps {
    s.(registry := s.registry - {id})
  }

  // ----- sections on the pushes -----

  predicate Idle(e: PushEntry, cfg: PushConfig, now: nat) {
    now > e.lastActivity + cfg.idleTimeout
  }

  function Kept(pushes: map<string, PushEntry>, cfg: PushConfig, now: nat): map<string, PushEntry> {
    map id | id in pushes && !Idle(pushes[id], cfg, now) :: pushes[id]
  }

  predicate SamePush(e: PushEntry, m: Manifest) {
    && e.manifest.root == m.root
    && e.manifest.totalLen == m.totalLen
    && e.manifest.chunkSize == m.chunkSize
  }

  datatype OfferReply = Conflicting | Busy | Known(entry: PushEntry) | New

  /** First section of an offer: evict, then resume, refuse or admit. */
  function OfferFirst(s: Maps, cfg: PushConfig, m: Manifest, now: nat): (Maps, OfferReply) {
    var kept := Kept(s.pushes, cfg, now);
    if m.id in kept then
      if !SamePush(kept[m.id], m) then (s.(pushes := kept), Conflicting)
      else
        var e := kept[m.id].(lastActivity := now);
        (s.(pushes := kept[m.id := e]), Known(e))
    else (s.(pushes := kept), if |kept| >= cfg.maxConcurrent then Busy else New)
  }

  /** Second section, after the spool is set up without the lock: the cap again,
      and a racing offer's entry wins. */
  function OfferInsert(s: Maps, cfg: PushConfig, m: Manifest, chunks: TransferChunks, state: Sidecar,
                    now: nat): (Maps, OfferReply) {
    if |s.pushes| >= cfg.maxConcurrent && m.id !in s.pushes then (s, Busy)
    else if m.id in s.pushes then (s, Known(s.pushes[m.id]))
    else
      var e := PushEntry(m, chunks, state, now, 0);
      (s.(pushes := s.pushes[m.id := e]), Known(e))
  }

  /** What a slice needs to know, read under the lock. */
  function SliceTouch(s: Maps, id: string, now: nat): Maps {
    if id !in s.pushes then s
    else s.(pushes := s.pushes[id := s.pushes[id].(lastActivity := now)])
  }

  datatype MarkReply = Gone | Marked(remaining: u32, save: Option<Sidecar>)

  /** What is still missing once `index` is marked. The subtraction is the u32 one:
      `count` was read earlier, possibly from another entry. */
  function LeftAfter(e: PushEntry, index: u32, count: u32): u32 {
    (count - e.state.Marked(index).Received()) % U32_SPAN
  }

  /** Mark a stored slice in whatever entry the id has now. */
  function SliceMark(s: Maps, id: string, index: u32, count: u32): (Maps, MarkReply) {
    if id !in s.pushes then (s, Gone)
    else
      var e := s.pushes[id];
      var marked := e.state.Marked(index);
      var dirty := e.dirtyMarks + if marked != e.state then 1 else 0;
      var remaining := LeftAfter(e, index, count);
      var save := remaining == 0 || dirty >= SAVE_EVERY;
      (s.(pushes := s.pushes[id := e.(state := marked, dirtyMarks := if save then 0 else dirty)]),
       Marked(remaining, if save then Some(marked) else None))
  }

  /** Finalizing starts by taking the entry out; a second finalizer finds none. */
  function FinalizeTake(s: Maps, id: string): (Maps, Option<PushEntry>) {
    if id in s.pushes then (s.(pushes := s.pushes - {id}), Some(s.pushes[id])) else (s, None)
  }

  // ----- what the maps promise -----

  ghost predicate GoodRegistered(id: string, r: Registered) {
    && r.manifest.id == id
    && r.manifest.Chunks() == Ok(r.chunks)
    && r.outboard.root == r.manifest.root
    && r.outboard.len == r.manifest.totalLen
    && r.outboard == Outboard.Of(r.outboard.root.preimage)
  }

  ghost predicate GoodEntry(id: string, e: PushEntry) {
    && e.manifest.id == id
    && e.manifest.Chunks() == Ok(e.chunks)
    && Fits(e.state, e.manifest)
    && e.dirtyMarks < SAVE_EVERY
  }

  ghost predicate GoodMaps(s: Maps, cfg: PushConfig) {
    && (forall id :: id in s.registry ==> GoodRegistered(id, s.registry[id]))
    && (forall id :: id in s.pushes ==> GoodEntry(id, s.pushes[id]))
    && |s.pushes| <= cfg.maxConcurrent
  }

  // ----- what each section keeps -----

  lemma RegisterKeeps(s: Maps, cfg: PushConfig, m: Manifest, chunks: TransferChunks, outboard: Outboard)
    requires GoodMaps(s, cfg) && GoodRegistered(m.id, Registered(m, chunks, outboard))
    ensures GoodMaps(Register(s, m, chunks, outboard).0, cfg)
  {
  }

  lemma KeptIsSmaller(pushes: map<string, PushEntry>, cfg: PushConfig, now: nat)
    ensures |Kept(pushes, cfg, now)| <= |pushes|
  {
    SubsetCard(Kept(pushes, cfg, now).Keys, pushes.Keys);
  }

  lemma OfferFirstKeeps(s: Maps, cfg: PushConfig, m: Manifest, now: nat)
    requires GoodMaps(s, cfg)
    ensures GoodMaps(OfferFirst(s, cfg, m, now).0, cfg)
    ensures OfferFirst(s, cfg, m, now).1.Known? ==>
              GoodEntry(m.id, OfferFirst(s, cfg, m, now).1.entry) && SamePush(OfferFirst(s, cfg, m, now).1.entry, m)
  {
    KeptIsSmaller(s.pushes, cfg, now);
    var kept := Kept(s.pushes, cfg, now);
    if m.id in kept {
      TouchKeepsSize(kept, m.id, kept[m.id].(lastActivity := now));
    }
  }

  lemma TouchKeepsSize(pushes: map<string, PushEntry>, id: string, e: PushEntry)
    requires id in pushes
    ensures |pushes[id := e]| == |pushes|
  {
    assert pushes[id := e].Keys == pushes.Keys;
  }

  lemma OfferInsertKeeps(s: Maps, cfg: PushConfig, m: Manifest, chunks: TransferChunks, state: Sidecar, now: nat)
    requires GoodMaps(s, cfg) && GoodEntry(m.id, PushEntry(m, chunks, state, now, 0))
    ensures GoodMaps(OfferInsert(s, cfg, m, chunks, state, now).0, cfg)
    ensures forall id :: id in s.pushes ==>
              && id in OfferInsert(s, cfg, m, chunks, state, now).0.pushes
              && OfferInsert(s, cfg, m, chunks, state, now).0.pushes[id] == s.pushes[id]
    ensures m.id in s.pushes ==> OfferInsert(s, cfg, m, chunks, state, now).1 == Known(s.pushes[m.id])
  {
    if m.id !in s.pushes {
      var e := PushEntry(m, chunks, state, now, 0);
      assert s.pushes[m.id := e].Keys == s.pushes.Keys + {m.id};
    }
  }

  lemma SliceTouchKeeps(s: Maps, cfg: PushConfig, id: string, now: nat)
    requires GoodMaps(s, cfg)
    ensures GoodMaps(SliceTouch(s, id, now), cfg)
  {
    if id in s.pushes {
      TouchKeepsSize(s.pushes, id, s.pushes[id].(lastActivity := now));
    }
  }

  lemma SliceMarkKeeps(s: Maps, cfg: PushConfig, id: string, index: u32, count: u32)
    requires GoodMaps(s, cfg)
    ensures GoodMaps(SliceMark(s, id, index, count).0, cfg)
  {
    if id in s.pushes {
      MarkedHeld(s.pushes[id].state, s.pushes[id].manifest, index);
      TouchKeepsSize(s.pushes, id, SliceMark(s, id, index, count).0.pushes[id]);
    }
  }

  lemma FinalizeTakeKeeps(s: Maps, cfg: PushConfig, id: string)
    requires GoodMaps(s, cfg)
    ensures GoodMaps(FinalizeTake(s, id).0, cfg)
    ensures FinalizeTake(s, id).1.Some? ==> GoodEntry(id, FinalizeTake(s, id).1.value)
  {
    SubsetCard(s.pushes.Keys - {id}, s.pushes.Keys);
    assert (s.pushes - {id}).Keys == s.pushes.Keys - {id};
  }
}

/** Every interleaving of the server's tasks: one step is one section, one piece of
    unlocked I/O, or the arrival of a request. */
module PushRuns {
  import opened Basics
  import opened Geometry
  import opened Bits
  import opened Resume
  import opened PushSections

  /** Where a running request is, with the values it carries between sections. */
  datatype Task =
    | Registering(manifest: Manifest, chunks: TransferChunks, outboard: Outboard)
    | Offered(manifest: Manifest)
    | Admitted(manifest: Manifest)
    | Spooled(manifest: Manifest, state: Sidecar)
    | Storing(id: string, index: u32, count: u32)
    | Stored(id: string, index: u32, count: u32)
    | Finalizing(id: string)
    | Taken(entry: PushEntry)
    | Hashed(entry: PushEntry, outboard: Outboard)

  /** A step. What the environment decides is in the step: the clock, the content
      found on disk, what the spool held, whether a payload decoded. */
  datatype Action =
    | StartRegister(t: nat, manifest: Manifest, content: Bytes)
    | StartOffer(t: nat, manifest: Manifest)
    | FirstSection(t: nat, now: nat)
    | SpoolReady(t: nat, found: Option<Sidecar>)
    | InsertSection(t: nat, now: nat)
    | StartSlice(t: nat, id: string, index: u32, now: nat)
    | StoreSlice(t: nat, decoded: bool)
    | MarkSection(t: nat)
    | TakeSection(t: nat)
    | HashFile(t: nat, content: Bytes)
    | RegisterSection(t: nat)
    | Abort(t: nat)
    | UnregisterSection(id: string)

  datatype World = World(maps: Maps, tasks: map<nat, Task>)

  function Drop(w: World, t: nat): World {
    w.(tasks := w.tasks - {t})
  }

  function Goto(w: World, t: nat, task: Task): World {
    w.(tasks := w.tasks[t := task])
  }

  /** A finished offer ends, unless nothing is missing any more: then it finalizes.
      Emptiness is judged with the offer's own count. */
  ghost function AfterOffer(w: World, t: nat, m: Manifest, entry: PushEntry): World {
    if m.Chunks().Ok? && Missing(entry.state.Held(), m.Count()) == {}
    then Goto(w, t, Finalizing(m.id)) else Drop(w, t)
  }

  ghost function First(w: World, cfg: PushConfig, t: nat, m: Manifest, now: nat): World {
    var (maps, reply) := OfferFirst(w.maps, cfg, m, now);
    var next := w.(maps := maps);
    match reply
    case Known(entry) => AfterOffer(next, t, m, entry)
    case New => Goto(next, t, Admitted(m))
    case _ => Drop(next, t)
  }

  /** A spooled sidecar is reused if it matches, else a fresh one is made. */
  function Spool(w: World, t: nat, m: Manifest, found: Option<Sidecar>): World
    requires m.Chunks().Ok?
  {
    var state := if found.Some? && found.value.Matches(m, m.Count()) then found.value
                 else Sidecar.Fresh(m, m.Count());
    Goto(w, t, Spooled(m, state))
  }

  ghost function Insert(w: World, cfg: PushConfig, t: nat, m: Manifest, state: Sidecar, now: nat): World
    requires m.Chunks().Ok?
  {
    var (maps, reply) := OfferInsert(w.maps, cfg, m, m.Geometry(), state, now);
    var next := w.(maps := maps);
    if reply.Known? then AfterOffer(next, t, m, reply.entry) else Drop(next, t)
  }

  /** Snapshot what a slice needs; an index past the count ends it, a chunk that is
      already set skips the store. */
  function Touch(w: World, t: nat, id: string, index: u32, now: nat): World
    requires id in w.maps.pushes && w.maps.pushes[id].manifest.Chunks().Ok?
  {
    var next, e := w.(maps := SliceTouch(w.maps, id, now)), w.maps.pushes[id];
    var count := e.manifest.Count();
    if index >= count then next
    else Goto(next, t, if e.state.IsSet(index) then Stored(id, index, count) else Storing(id, index, count))
  }

  function Mark(w: World, t: nat, id: string, index: u32, count: u32): World {
    var (maps, reply) := SliceMark(w.maps, id, index, count);
    var next := w.(maps := maps);
    if reply.Marked? && reply.remaining == 0 then Goto(next, t, Finalizing(id)) else Drop(next, t)
  }

  function Take(w: World, t: nat, id: string): World {
    var (maps, entry) := FinalizeTake(w.maps, id);
    var next := w.(maps := maps);
    if entry.Some? then Goto(next, t, Taken(entry.value)) else Drop(next, t)
  }

  /** The renamed file may hold anything by now; what counts is its hash. */
  function Rehash(w: World, t: nat, entry: PushEntry, outboard: Outboard): World {
    if outboard.root != entry.manifest.root || outboard.len != entry.manifest.totalLen then Drop(w, t)
    else Goto(w, t, Hashed(entry, outboard))
  }

  function Enter(w: World, t: nat, m: Manifest, chunks: TransferChunks, outboard: Outboard): World {
    Drop(w.(maps := Register(w.maps, m, chunks, outboard).0), t)
  }

  /** The effect of a step; a step that is not enabled changes nothing. */
  ghost function Apply(w: World, cfg: PushConfig, a: Action): World {
    match a
    case StartRegister(t, m, content) =>
      if t in w.tasks || m.Chunks().Err? || m.root != Hash(content) || m.totalLen != |content| then w
      else Goto(w, t, Registering(m, m.Geometry(), Outboard.Of(content)))
    case StartOffer(t, m) =>
      if t in w.tasks || m.Chunks().Err? || m.id in w.maps.registry then w else Goto(w, t, Offered(m))
    case StartSlice(t, id, index, now) =>
      if t in w.tasks || id !in w.maps.pushes || w.maps.pushes[id].manifest.Chunks().Err? then w
      else Touch(w, t, id, index, now)
    case UnregisterSection(id) => w.(maps := Unregister(w.maps, id))
    case _ => if a.t in w.tasks then Advance(w, cfg, a, w.tasks[a.t]) else w
  }

  /** A running task moves on. */
  ghost function Advance(w: World, cfg: PushConfig, a: Action, task: Task): World
    requires !a.UnregisterSection?
  {
    match (a, task)
    case (FirstSection(t, now), Offered(m)) => First(w, cfg, t, m, now)
    case (SpoolReady(t, found), Admitted(m)) => if m.Chunks().Ok? then Spool(w, t, m, found) else w
    case (InsertSection(t, now), Spooled(m, state)) => if m.Chunks().Ok? then Insert(w, cfg, t, m, state, now) else w
    case (StoreSlice(t, decoded), Storing(id, index, count)) =>
      if decoded then Goto(w, t, Stored(id, index, count)) else Drop(w, t)
    case (MarkSection(t), Stored(id, index, count)) => Mark(w, t, id, index, count)
    case (TakeSection(t), Finalizing(id)) => Take(w, t, id)
    case (HashFile(t, content), Taken(entry)) => Rehash(w, t, entry, Outboard.Of(content))
    case (RegisterSection(t), Registering(m, chunks, outboard)) => Enter(w, t, m, chunks, outboard)
    case (RegisterSection(t), Hashed(entry, outboard)) => Enter(w, t, entry.manifest, entry.chunks, outboard)
    case (Abort(t), _) => Drop(w, t)
    case _ => w
  }

  ghost function Run(w: World, cfg: PushConfig, actions: seq<Action>): World
    decreases |actions|
  {
    if actions == [] then w else Run(Apply(w, cfg, actions[0]), cfg, actions[1..])
  }

  // ----- the invariant -----

  ghost predicate GoodTask(task: Task) {
    match task
    case Registering(m, chunks, outboard) => GoodRegistered(m.id, Registered(m, chunks, outboard))
    case Offered(m) => m.Chunks().Ok?
    case Admitted(m) => m.Chunks().Ok?
    case Spooled(m, state) => Fits(state, m)
    case Taken(entry) => GoodEntry(entry.manifest.id, entry)
    case Hashed(entry, outboard) =>
      && GoodEntry(entry.manifest.id, entry)
      && GoodRegistered(entry.manifest.id, Registered(entry.manifest, entry.chunks, outboard))
    case _ => true
  }

  ghost predicate Inv(w: World, cfg: PushConfig) {
    && GoodMaps(w.maps, cfg)
    && forall t :: t in w.tasks ==> GoodTask(w.tasks[t])
  }

  lemma GotoKeeps(w: World, cfg: PushConfig, t: nat, task: Task)
    requires Inv(w, cfg) && GoodTask(task)
    ensures Inv(Goto(w, t, task), cfg)
  {
  }

  lemma DropKeeps(w: World, cfg: PushConfig, t: nat)
    requires Inv(w, cfg)
    ensures Inv(Drop(w, t), cfg)
  {
  }

  lemma AfterOfferKeeps(w: World, cfg: PushConfig, t: nat, m: Manifest, entry: PushEntry)
    requires Inv(w, cfg)
    ensures Inv(AfterOffer(w, t, m, entry), cfg)
  {
    GotoKeeps(w, cfg, t, Finalizing(m.id));
    DropKeeps(w, cfg, t);
  }

  /** A running task's step keeps every promise. */
  lemma AdvanceKeepsInv(w: World, cfg: PushConfig, a: Action, task: Task)
    requires Inv(w, cfg) && GoodTask(task) && !a.UnregisterSection?
    ensures Inv(Advance(w, cfg, a, task), cfg)
  {
    hide First, Insert, Mark, Take, Rehash, Enter, GoodMaps;
    match (a, task)
    case (FirstSection(t, now), Offered(m)) => FirstKeeps(w, cfg, t, m, now);
    case (SpoolReady(t, found), Admitted(m)) => SpoolKeeps(w, cfg, t, m, found);
    case (InsertSection(t, now), Spooled(m, state)) => InsertKeeps(w, cfg, t, m, state, now);
    case (MarkSection(t), Stored(id, index, count)) => MarkKeeps(w, cfg, t, id, index, count);
    case (TakeSection(t), Finalizing(id)) => TakeKeeps(w, cfg, t, id);
    case (RegisterSection(t), Registering(m, chunks, outboard)) => EnterKeeps(w, cfg, t, m, chunks, outboard);
    case (RegisterSection(t), Hashed(entry, outboard)) => EnterKeeps(w, cfg, t, entry.manifest, entry.chunks, outboard);
    case (StoreSlice(t, decoded), Storing(id, index, count)) =>
      GotoKeeps(w, cfg, t, Stored(id, index, count));
      DropKeeps(w, cfg, t);
    case (HashFile(t, content), Taken(entry)) => RehashKeeps(w, cfg, t, entry, Outboard.Of(content));
    case (Abort(t), _) => DropKeeps(w, cfg, t);
    case _ =>
  }

  lemma SpoolKeeps(w: World, cfg: PushConfig, t: nat, m: Manifest, found: Option<Sidecar>)
    requires Inv(w, cfg) && m.Chunks().Ok?
    ensures Inv(Spool(w, t, m, found), cfg)
  {
    FreshHoldsNothing(m);
    var state := if found.Some? && found.value.Matches(m, m.Count()) then found.value
                 else Sidecar.Fresh(m, m.Count());
    GotoKeeps(w, cfg, t, Spooled(m, state));
  }

  lemma RehashKeeps(w: World, cfg: PushConfig, t: nat, entry: PushEntry, outboard: Outboard)
    requires Inv(w, cfg) && GoodEntry(entry.manifest.id, entry)
    requires outboard == Outboard.Of(outboard.root.preimage)
    ensures Inv(Rehash(w, t, entry, outboard), cfg)
  {
    DropKeeps(w, cfg, t);
    if outboard.root == entry.manifest.root && outboard.len == entry.manifest.totalLen {
      GotoKeeps(w, cfg, t, Hashed(entry, outboard));
    }
  }

  lemma TouchKeeps(w: World, cfg: PushConfig, t: nat, id: string, index: u32, now: nat)
    requires Inv(w, cfg) && id in w.maps.pushes && w.maps.pushes[id].manifest.Chunks().Ok?
    ensures Inv(Touch(w, t, id, index, now), cfg)
  {
    SliceTouchKeeps(w.maps, cfg, id, now);
    var next, count := w.(maps := SliceTouch(w.maps, id, now)), w.maps.pushes[id].manifest.Count();
    GotoKeeps(next, cfg, t, Stored(id, index, count));
    GotoKeeps(next, cfg, t, Storing(id, index, count));
  }

  lemma FirstKeeps(w: World, cfg: PushConfig, t: nat, m: Manifest, now: nat)
    requires Inv(w, cfg) && m.Chunks().Ok?
    ensures Inv(First(w, cfg, t, m, now), cfg)
  {
    OfferFirstKeeps(w.maps, cfg, m, now);
    var (maps, reply) := OfferFirst(w.maps, cfg, m, now);
    var next := w.(maps := maps);
    DropKeeps(next, cfg, t);
    GotoKeeps(next, cfg, t, Admitted(m));
    if reply.Known? {
      AfterOfferKeeps(next, cfg, t, m, reply.entry);
    }
  }

  lemma InsertKeeps(w: World, cfg: PushConfig, t: nat, m: Manifest, state: Sidecar, now: nat)
    requires Inv(w, cfg) && Fits(state, m)
    ensures Inv(Insert(w, cfg, t, m, state, now), cfg)
  {
    OfferInsertKeeps(w.maps, cfg, m, m.Geometry(), state, now);
    var (maps, reply) := OfferInsert(w.maps, cfg, m, m.Geometry(), state, now);
    var next := w.(maps := maps);
    DropKeeps(next, cfg, t);
    if reply.Known? {
      AfterOfferKeeps(next, cfg, t, m, reply.entry);
    }
  }

  lemma MarkKeeps(w: World, cfg: PushConfig, t: nat, id: string, index: u32, count: u32)
    requires Inv(w, cfg)
    ensures Inv(Mark(w, t, id, index, count), cfg)
  {
    SliceMarkKeeps(w.maps, cfg, id, index, count);
    var next := w.(maps := SliceMark(w.maps, id, index, count).0);
    DropKeeps(next, cfg, t);
    GotoKeeps(next, cfg, t, Finalizing(id));
  }

  lemma TakeKeeps(w: World, cfg: PushConfig, t: nat, id: string)
    requires Inv(w, cfg)
    ensures Inv(Take(w, t, id), cfg)
  {
    FinalizeTakeKeeps(w.maps, cfg, id);
    var (maps, entry) := FinalizeTake(w.maps, id);
    var next := w.(maps := maps);
    DropKeeps(next, cfg, t);
    if entry.Some? {
      GotoKeeps(next, cfg, t, Taken(entry.value));
    }
  }

  lemma EnterKeeps(w: World, cfg: PushConfig, t: nat, m: Manifest, chunks: TransferChunks, outboard: Outboard)
    requires Inv(w, cfg) && GoodRegistered(m.id, Registered(m, chunks, outboard))
    ensures Inv(Enter(w, t, m, chunks, outboard), cfg)
  {
    RegisterKeeps(w.maps, cfg, m, chunks, outboard);
    DropKeeps(w.(maps := Register(w.maps, m, chunks, outboard).0), cfg, t);
  }

  /** Every step of every task keeps every promise. */
  lemma StepKeepsInv(w: World, cfg: PushConfig, a: Action)
    requires Inv(w, cfg)
    ensures Inv(Apply(w, cfg, a), cfg)
  {
    match a
    case StartRegister(t, m, content) =>
      if m.Chunks().Ok? && m.root == Hash(content) && m.totalLen == |content| {
        GotoKeeps(w, cfg, t, Registering(m, m.Geometry(), Outboard.Of(content)));
      }
    case StartOffer(t, m) =>
      if m.Chunks().Ok? {
        GotoKeeps(w, cfg, t, Offered(m));
      }
    case StartSlice(t, id, index, now) =>
      if id in w.maps.pushes && w.maps.pushes[id].manifest.Chunks().Ok? {
        TouchKeeps(w, cfg, t, id, index, now);
      }
    case UnregisterSection(id) =>
    case _ =>
      if a.t in w.tasks {
        AdvanceKeepsInv(w, cfg, a, w.tasks[a.t]);
      }
  }

  /** Safety over every run: whatever the interleaving, each registered blob's
      outboard agrees with its manifest in root, length and geometry, each push
      in progress keeps a matching bitfield, and the cap is never exceeded. */
  lemma {:induction false} RunsKeepInv(w: World, cfg: PushConfig, actions: seq<Action>)
    requires Inv(w, cfg)
    ensures Inv(Run(w, cfg, actions), cfg)
    decreases |actions|
  {
    if actions != [] {
      StepKeepsInv(w, cfg, actions[0]);
      RunsKeepInv(Apply(w, cfg, actions[0]), cfg, actions[1..]);
    }
  }

  /** No step replaces a registered blob: an id that is registered before and
      after a step has the very same entry, and only its own removal ends it. */
  lemma StepKeepsRegistered(w: World, cfg: PushConfig, a: Action, id: string)
    requires id in w.maps.registry
    ensures a != UnregisterSection(id) ==>
              id in Apply(w, cfg, a).maps.registry &&
              Apply(w, cfg, a).maps.registry[id] == w.maps.registry[id]
    ensures a == UnregisterSection(id) ==> id !in Apply(w, cfg, a).maps.registry
  {
    match a
    case StartRegister(_, _, _) =>
    case StartOffer(_, _) =>
    case StartSlice(_, _, _, _) =>
    case UnregisterSection(_) =>
    case _ =>
      if a.t in w.tasks {
        AdvanceRegistry(w, cfg, a, w.tasks[a.t]);
      }
  }

  /** The registry changes only in the registration section, and there only by one
      new id: the task's own. */
  lemma AdvanceRegistry(w: World, cfg: PushConfig, a: Action, task: Task)
    requires !a.UnregisterSection?
    ensures var before, after := w.maps.registry, Advance(w, cfg, a, task).maps.registry;
            after == before ||
            (a.RegisterSection? && task.Registering? && task.manifest.id !in before &&
             after == before[task.manifest.id := Registered(task.manifest, task.chunks, task.outboard)]) ||
            (a.RegisterSection? && task.Hashed? && task.entry.manifest.id !in before &&
             after == before[task.entry.manifest.id := Registered(task.entry.manifest, task.entry.chunks, task.outboard)])
  {
    if !a.RegisterSection? {
      OthersKeepRegistry(w, cfg, a, task);
    }
  }

  lemma OthersKeepRegistry(w: World, cfg: PushConfig, a: Action, task: Task)
    requires !a.UnregisterSection? && !a.RegisterSection?
    ensures Advance(w, cfg, a, task).maps.registry == w.maps.registry
  {
    hide First, Insert, Mark, Take, Rehash, Enter;
    match (a, task)
    case (FirstSection(t, now), Offered(m)) => FirstRegistry(w, cfg, t, m, now);
    case (SpoolReady(t, found), Admitted(m)) =>
    case (InsertSection(t, now), Spooled(m, state)) => InsertRegistry(w, cfg, t, m, state, now);
    case (StoreSlice(t, decoded), Storing(id, index, count)) =>
    case (MarkSection(t), Stored(id, index, count)) => MarkRegistry(w, t, id, index, count);
    case (TakeSection(t), Finalizing(id)) => TakeRegistry(w, t, id);
    case (HashFile(t, content), Taken(entry)) => RehashRegistry(w, t, entry, Outboard.Of(content));
    case (Abort(t), _) =>
    case _ =>
  }

  lemma TakeRegistry(w: World, t: nat, id: string)
    ensures Take(w, t, id).maps.registry == w.maps.registry
  {
  }

  lemma RehashRegistry(w: World, t: nat, entry: PushEntry, outboard: Outboard)
    ensures Rehash(w, t, entry, outboard).maps.registry == w.maps.registry
  {
  }

  lemma FirstRegistry(w: World, cfg: PushConfig, t: nat, m: Manifest, now: nat)
    ensures First(w, cfg, t, m, now).maps.registry == w.maps.registry
  {
    hide AfterOffer, Kept;
    var (maps, reply) := OfferFirst(w.maps, cfg, m, now);
    if reply.Known? {
      AfterOfferMaps(w.(maps := maps), t, m, reply.entry);
    }
  }

  lemma InsertRegistry(w: World, cfg: PushConfig, t: nat, m: Manifest, state: Sidecar, now: nat)
    ensures m.Chunks().Ok? ==> Insert(w, cfg, t, m, state, now).maps.registry == w.maps.registry
  {
    hide AfterOffer;
    if m.Chunks().Ok? {
      var (maps, reply) := OfferInsert(w.maps, cfg, m, m.Geometry(), state, now);
      if reply.Known? {
        AfterOfferMaps(w.(maps := maps), t, m, reply.entry);
      }
    }
  }

  lemma AfterOfferMaps(w: World, t: nat, m: Manifest, entry: PushEntry)
    ensures AfterOffer(w, t, m, entry).maps == w.maps
  {
  }

  lemma MarkRegistry(w: World, t: nat, id: string, index: u32, count: u32)
    ensures Mark(w, t, id, index, count).maps.registry == w.maps.registry
  {
  }

  /** Over any run without its removal, an id keeps its root. */
  lemma {:induction false} RootNeverChanges(w: World, cfg: PushConfig, actions: seq<Action>, id: string)
    requires id in w.maps.registry && UnregisterSection(id) !in actions
    ensures id in Run(w, cfg, actions).maps.registry
    ensures Run(w, cfg, actions).maps.registry[id] == w.maps.registry[id]
    decreases |actions|
  {
    if actions != [] {
      StepKeepsRegistered(w, cfg, actions[0], id);
      RootNeverChanges(Apply(w, cfg, actions[0]), cfg, actions[1..], id);
    }
  }

  /** A blob enters the registry only in the registration section of a task that says it
      was hashed. */
  lemma OnlyHashedRegisters(w: World, cfg: PushConfig, a: Action, id: string)
    requires id !in w.maps.registry && id in Apply(w, cfg, a).maps.registry
    ensures a.RegisterSection? && a.t in w.tasks && (w.tasks[a.t].Registering? || w.tasks[a.t].Hashed?)
    ensures var r := Apply(w, cfg, a).maps.registry[id];
            match w.tasks[a.t]
            case Registering(m, chunks, outboard) => m.id == id && r == Registered(m, chunks, outboard)
            case Hashed(entry, outboard) => entry.manifest.id == id && r == Registered(entry.manifest, entry.chunks, outboard)
            case _ => false
  {
    OnlyRegistration(w, cfg, a, id);
    AdvanceRegistry(w, cfg, a, w.tasks[a.t]);
  }

  lemma OnlyRegistration(w: World, cfg: PushConfig, a: Action, id: string)
    requires id !in w.maps.registry && id in Apply(w, cfg, a).maps.registry
    ensures a.RegisterSection? && a.t in w.tasks
  {
    match a
    case StartRegister(_, _, _) =>
    case StartOffer(_, _) =>
    case StartSlice(_, _, _, _) =>
    case UnregisterSection(_) =>
    case _ =>
      if a.t in w.tasks {
        AdvanceRegistry(w, cfg, a, w.tasks[a.t]);
      }
  }

  // ----- the remaining count over interleavings -----

  /** The count a mark is answered with is the number still missing. */
  ghost predicate LeftExact(e: PushEntry, index: u32, count: u32) {
    e.manifest.Chunks().Ok? &&
    LeftAfter(e, index, count) == |Missing(e.state.Marked(index).Held(), e.manifest.Count())|
  }

  /** It is exactly when the entry marked has as many chunks as the slice was checked
      against. */
  lemma LeftExactly(id: string, e: PushEntry, index: u32, count: u32)
    requires GoodEntry(id, e)
    ensures LeftExact(e, index, count) <==> count == e.manifest.Count()
  {
    hide Sidecar.Held, Sidecar.Marked, Sidecar.Received, Fits, Missing;
    var m, marked := e.manifest, e.state.Marked(index);
    MarkedHeld(e.state, m, index);
    ReceivedOf(marked, m);
    Subtracts(count, marked.Received(), m.Count());
  }

  lemma ReceivedOf(s: Sidecar, m: Manifest)
    requires Fits(s, m)
    ensures m.Chunks().Ok? && s.Received() <= m.Count() && |Missing(s.Held(), m.Count())| == m.Count() - s.Received()
  {
    hide Sidecar.Held, Sidecar.Received;
    MatchingCountsExactly(s, m);
    HeldInRange(s);
    FitsCount(s, m);
    MissingCard(s.Held(), m.Count());
    SubsetCard(s.Held(), Below(m.Count()));
  }

  lemma Subtracts(count: u32, received: u32, total: u32)
    requires received <= total
    ensures (count - received) % U32_SPAN == total - received <==> count == total
  {
    if count >= received {
      FitsU32(count - received);
    } else {
      FitsU32(count - received + U32_SPAN);
    }
  }

  ghost predicate Counts(m: Manifest, n: u32) {
    m.Chunks().Ok? ==> m.Count() == n
  }

  /** Everything in sight of `id` has `n` chunks: its push, the offers under way and the
      slices being stored. */
  ghost predicate OneCount(w: World, id: string, n: u32) {
    && (id in w.maps.pushes ==> Counts(w.maps.pushes[id].manifest, n))
    && forall t :: t in w.tasks ==> TaskCount(w.tasks[t], id, n)
  }

  ghost predicate TaskCount(task: Task, id: string, n: u32) {
    match task
    case Offered(m) => m.id == id ==> Counts(m, n)
    case Admitted(m) => m.id == id ==> Counts(m, n)
    case Spooled(m, _) => m.id == id ==> Counts(m, n)
    case Storing(i, _, count) => i == id ==> count == n
    case Stored(i, _, count) => i == id ==> count == n
    case _ => true
  }

  /** Every offer of `id` along a run has `n` chunks. */
  ghost predicate OffersHave(actions: seq<Action>, id: string, n: u32) {
    forall k :: 0 <= k < |actions| ==> OfferHas(actions[k], id, n)
  }

  ghost predicate OfferHas(a: Action, id: string, n: u32) {
    a.StartOffer? && a.manifest.id == id ==> Counts(a.manifest, n)
  }

  lemma StepKeepsCount(w: World, cfg: PushConfig, a: Action, id: string, n: u32)
    requires OneCount(w, id, n) && OfferHas(a, id, n)
    ensures OneCount(Apply(w, cfg, a), id, n)
  {
    hide Advance, Touch;
    match a
    case StartRegister(_, _, _) =>
    case StartOffer(_, _) =>
    case StartSlice(t, i, index, now) =>
      if i in w.maps.pushes && w.maps.pushes[i].manifest.Chunks().Ok? {
        TouchCount(w, t, i, index, now, id, n);
      }
    case UnregisterSection(_) =>
    case _ =>
      if a.t in w.tasks {
        AdvanceKeepsCount(w, cfg, a, w.tasks[a.t], id, n);
      }
  }

  lemma AdvanceKeepsCount(w: World, cfg: PushConfig, a: Action, task: Task, id: string, n: u32)
    requires OneCount(w, id, n) && TaskCount(task, id, n) && !a.UnregisterSection?
    ensures OneCount(Advance(w, cfg, a, task), id, n)
  {
    hide First, Insert, Mark, Take, Rehash, Enter, Counts;
    match (a, task)
    case (FirstSection(t, now), Offered(m)) => FirstCount(w, cfg, t, m, now, id, n);
    case (InsertSection(t, now), Spooled(m, state)) =>
      if m.Chunks().Ok? {
        InsertCount(w, cfg, t, m, state, now, id, n);
      }
    case (MarkSection(t), Stored(i, index, count)) => MarkCount(w, t, i, index, count, id, n);
    case (TakeSection(t), Finalizing(i)) => TakeCount(w, t, i, id, n);
    case (SpoolReady(t, found), Admitted(m)) =>
    case (StoreSlice(t, decoded), Storing(i, index, count)) =>
    case (HashFile(t, content), Taken(entry)) => RehashCount(w, t, entry, Outboard.Of(content), id, n);
    case (RegisterSection(t), Registering(m, chunks, outboard)) => EnterCount(w, t, m, chunks, outboard, id, n);
    case (RegisterSection(t), Hashed(entry, outboard)) =>
      EnterCount(w, t, entry.manifest, entry.chunks, outboard, id, n);
    case (Abort(t), _) =>
    case _ =>
  }

  lemma TouchCount(w: World, t: nat, i: string, index: u32, now: nat, id: string, n: u32)
    requires OneCount(w, id, n) && i in w.maps.pushes && w.maps.pushes[i].manifest.Chunks().Ok?
    ensures OneCount(Touch(w, t, i, index, now), id, n)
  {
  }

  lemma AfterOfferCount(w: World, t: nat, m: Manifest, entry: PushEntry, id: string, n: u32)
    requires OneCount(w, id, n)
    ensures OneCount(AfterOffer(w, t, m, entry), id, n)
  {
    hide Counts;
  }

  lemma FirstCount(w: World, cfg: PushConfig, t: nat, m: Manifest, now: nat, id: string, n: u32)
    requires OneCount(w, id, n) && (m.id == id ==> Counts(m, n))
    ensures OneCount(First(w, cfg, t, m, now), id, n)
  {
    hide Counts, AfterOffer;
    var (maps, reply) := OfferFirst(w.maps, cfg, m, now);
    if reply.Known? {
      AfterOfferCount(w.(maps := maps), t, m, reply.entry, id, n);
    }
  }

  lemma InsertCount(w: World, cfg: PushConfig, t: nat, m: Manifest, state: Sidecar, now: nat, id: string, n: u32)
    requires OneCount(w, id, n) && m.Chunks().Ok? && (m.id == id ==> Counts(m, n))
    ensures OneCount(Insert(w, cfg, t, m, state, now), id, n)
  {
    hide Counts, AfterOffer;
    var (maps, reply) := OfferInsert(w.maps, cfg, m, m.Geometry(), state, now);
    if reply.Known? {
      AfterOfferCount(w.(maps := maps), t, m, reply.entry, id, n);
    }
  }

  lemma MarkCount(w: World, t: nat, i: string, index: u32, count: u32, id: string, n: u32)
    requires OneCount(w, id, n)
    ensures OneCount(Mark(w, t, i, index, count), id, n)
  {
    hide Counts;
  }

  lemma TakeCount(w: World, t: nat, i: string, id: string, n: u32)
    requires OneCount(w, id, n)
    ensures OneCount(Take(w, t, i), id, n)
  {
    hide Counts;
  }

  lemma RehashCount(w: World, t: nat, entry: PushEntry, outboard: Outboard, id: string, n: u32)
    requires OneCount(w, id, n)
    ensures OneCount(Rehash(w, t, entry, outboard), id, n)
  {
    hide Counts;
  }

  lemma EnterCount(w: World, t: nat, m: Manifest, chunks: TransferChunks, outboard: Outboard, id: string, n: u32)
    requires OneCount(w, id, n)
    ensures OneCount(Enter(w, t, m, chunks, outboard), id, n)
  {
    hide Counts;
  }

  /** Over every run from an empty server in which all offers of an id have the same
      number of chunks, whatever is evicted, restarted or raced, a slice that is ready
      to be marked is acknowledged with exactly the number still missing. */
  lemma {:induction false} SameCountIsExact(cfg: PushConfig, actions: seq<Action>, id: string, n: u32, t: nat)
    requires OffersHave(actions, id, n)
    requires var w := Run(EMPTY, cfg, actions);
             t in w.tasks && w.tasks[t].Stored? && w.tasks[t].id == id && id in w.maps.pushes
    ensures var w := Run(EMPTY, cfg, actions);
            LeftExact(w.maps.pushes[id], w.tasks[t].index, w.tasks[t].count)
  {
    hide Run, LeftExact;
    var w := Run(EMPTY, cfg, actions);
    RunKeepsCount(EMPTY, cfg, actions, id, n);
    RunsKeepInv(EMPTY, cfg, actions);
    assert TaskCount(w.tasks[t], id, n);
    LeftExactly(id, w.maps.pushes[id], w.tasks[t].index, w.tasks[t].count);
  }

  lemma {:induction false} RunKeepsCount(w: World, cfg: PushConfig, actions: seq<Action>, id: string, n: u32)
    requires OneCount(w, id, n) && OffersHave(actions, id, n)
    ensures OneCount(Run(w, cfg, actions), id, n)
    decreases |actions|
  {
    hide Apply, OneCount, OfferHas;
    if actions != [] {
      StepKeepsCount(w, cfg, actions[0], id, n);
      RunKeepsCount(Apply(w, cfg, actions[0]), cfg, actions[1..], id, n);
    }
  }

  const EMPTY := World(Maps(map[], map[]), map[])

  // ----- two counts under one id -----

  /** The server gets into state `w` on some run from the empty one. */
  ghost predicate Reachable(cfg: PushConfig, w: World) {
    exists actions :: Run(EMPTY, cfg, actions) == w
  }

  lemma Then(cfg: PushConfig, w: World, a: Action, next: World)
    requires Reachable(cfg, w) && Apply(w, cfg, a) == next
    ensures Reachable(cfg, next)
  {
    var actions :| Run(EMPTY, cfg, actions) == w;
    RunSnoc(EMPTY, cfg, actions, a);
  }

  lemma {:induction false} RunSnoc(w: World, cfg: PushConfig, actions: seq<Action>, a: Action)
    ensures Run(w, cfg, actions + [a]) == Apply(Run(w, cfg, actions), cfg, a)
    decreases |actions|
  {
    hide Apply;
    if actions == [] {
      assert Run(w, cfg, [a]) == Run(Apply(w, cfg, a), cfg, []);
    } else {
      assert (actions + [a])[1..] == actions[1..] + [a];
      RunSnoc(Apply(w, cfg, actions[0]), cfg, actions[1..], a);
    }
  }

  /** The server with these tasks and one push, of which nothing has come. */
  ghost function Offered1(m: Manifest, now: nat, tasks: map<nat, Task>): World
    requires m.Chunks().Ok?
  {
    World(Maps(map[], map[m.id := PushEntry(m, m.Geometry(), Sidecar.Fresh(m, m.Count()), now, 0)]), tasks)
  }

  /** An offer into a server whose pushes, if any, are idle. */
  lemma Offers(cfg: PushConfig, pushes: map<string, PushEntry>, m: Manifest, t: nat, now: nat,
               tasks: map<nat, Task>)
    requires Reachable(cfg, World(Maps(map[], pushes), tasks)) && t !in tasks
    requires cfg.maxConcurrent > 0 && m.Chunks().Ok? && m.Count() > 0
    requires forall id :: id in pushes ==> Idle(pushes[id], cfg, now)
    ensures Reachable(cfg, Offered1(m, now, tasks))
  {
    hide Reachable, Apply;
    var w, idle, blank := World(Maps(map[], pushes), tasks), World(Maps(map[], map[]), tasks), Sidecar.Fresh(m, m.Count());
    OfferStarts(w, cfg, m, t);
    Then(cfg, w, StartOffer(t, m), Goto(w, t, Offered(m)));
    OfferAdmitted(cfg, pushes, m, t, now, tasks);
    Then(cfg, Goto(w, t, Offered(m)), FirstSection(t, now), Goto(idle, t, Admitted(m)));
    OfferSpooled(idle, cfg, m, t);
    Then(cfg, Goto(idle, t, Admitted(m)), SpoolReady(t, None), Goto(idle, t, Spooled(m, blank)));
    OfferInserted(cfg, m, t, now, tasks);
    Then(cfg, Goto(idle, t, Spooled(m, blank)), InsertSection(t, now), Offered1(m, now, tasks));
  }

  lemma OfferStarts(w: World, cfg: PushConfig, m: Manifest, t: nat)
    requires t !in w.tasks && m.Chunks().Ok? && m.id !in w.maps.registry
    ensures Apply(w, cfg, StartOffer(t, m)) == Goto(w, t, Offered(m))
  {
  }

  lemma OfferAdmitted(cfg: PushConfig, pushes: map<string, PushEntry>, m: Manifest, t: nat, now: nat,
                      tasks: map<nat, Task>)
    requires cfg.maxConcurrent > 0 && forall id :: id in pushes ==> Idle(pushes[id], cfg, now)
    ensures var w, idle := World(Maps(map[], pushes), tasks), World(Maps(map[], map[]), tasks);
            Apply(Goto(w, t, Offered(m)), cfg, FirstSection(t, now)) == Goto(idle, t, Admitted(m))
  {
    assert Kept(pushes, cfg, now) == map[];
    assert tasks[t := Offered(m)][t := Admitted(m)] == tasks[t := Admitted(m)];
  }

  lemma OfferSpooled(w: World, cfg: PushConfig, m: Manifest, t: nat)
    requires m.Chunks().Ok?
    ensures Apply(Goto(w, t, Admitted(m)), cfg, SpoolReady(t, None)) ==
            Goto(w, t, Spooled(m, Sidecar.Fresh(m, m.Count())))
  {
    var blank := Sidecar.Fresh(m, m.Count());
    assert w.tasks[t := Admitted(m)][t := Spooled(m, blank)] == w.tasks[t := Spooled(m, blank)];
  }

  lemma OfferInserted(cfg: PushConfig, m: Manifest, t: nat, now: nat, tasks: map<nat, Task>)
    requires cfg.maxConcurrent > 0 && m.Chunks().Ok? && m.Count() > 0 && t !in tasks
    ensures var idle, blank := World(Maps(map[], map[]), tasks), Sidecar.Fresh(m, m.Count());
            Apply(Goto(idle, t, Spooled(m, blank)), cfg, InsertSection(t, now)) == Offered1(m, now, tasks)
  {
    var blank := Sidecar.Fresh(m, m.Count());
    FreshHoldsNothing(m);
    assert 0 in Missing(blank.Held(), m.Count());
    assert tasks[t := Spooled(m, blank)] - {t} == tasks;
  }

  /** A slice of that push is stored and waits to be marked. */
  lemma Stores(cfg: PushConfig, m: Manifest, t: nat, index: u32, now: nat, tasks: map<nat, Task>)
    requires m.Chunks().Ok? && index < m.Count() && t !in tasks && Reachable(cfg, Offered1(m, now, tasks))
    ensures Reachable(cfg, Offered1(m, now, tasks[t := Stored(m.id, index, m.Count())]))
  {
    hide Reachable, Apply;
    var w, storing := Offered1(m, now, tasks), Storing(m.id, index, m.Count());
    SliceStarts(cfg, m, t, index, now, tasks);
    Then(cfg, w, StartSlice(t, m.id, index, now), Goto(w, t, storing));
    SliceStored(w, cfg, t, m.id, index, m.Count());
    Then(cfg, Goto(w, t, storing), StoreSlice(t, true), Goto(w, t, Stored(m.id, index, m.Count())));
  }

  lemma SliceStarts(cfg: PushConfig, m: Manifest, t: nat, index: u32, now: nat, tasks: map<nat, Task>)
    requires m.Chunks().Ok? && index < m.Count() && t !in tasks
    ensures var w := Offered1(m, now, tasks);
            Apply(w, cfg, StartSlice(t, m.id, index, now)) == Goto(w, t, Storing(m.id, index, m.Count()))
  {
    var w, blank := Offered1(m, now, tasks), Sidecar.Fresh(m, m.Count());
    FreshHoldsNothing(m);
    FitsCount(blank, m);
    HeldMembership(blank, index);
    assert w.maps.pushes[m.id := w.maps.pushes[m.id].(lastActivity := now)] == w.maps.pushes;
  }

  lemma SliceStored(w: World, cfg: PushConfig, t: nat, id: string, index: u32, count: u32)
    ensures Apply(Goto(w, t, Storing(id, index, count)), cfg, StoreSlice(t, true)) == Goto(w, t, Stored(id, index, count))
  {
    assert w.tasks[t := Storing(id, index, count)][t := Stored(id, index, count)] == w.tasks[t := Stored(id, index, count)];
  }

  /** And it can be otherwise: a slice of a one-chunk push waits while the push goes
      idle and its id is offered again with two chunks. Once the second of those has
      arrived, the waiting slice is marked there, and the count it is answered with
      wraps. */
  lemma StaleCountWraps(m1: Manifest, m2: Manifest)
    requires m1.Chunks().Ok? && m2.Chunks().Ok? && m1.id == m2.id && m1.Count() == 1 && m2.Count() == 2
    ensures exists w :: Reachable(PushConfig(1, 0), w) && Wraps(w, m1.id)
  {
    hide Reachable, Apply;
    var cfg, stale, first := PushConfig(1, 0), map[1 := Stored(m1.id, 0, 1)], Offered1(m1, 0, map[1 := Stored(m1.id, 0, 1)]);
    FromEmpty(cfg);
    Offers(cfg, map[], m1, 0, 0, map[]);
    Stores(cfg, m1, 1, 0, 0, map[]);
    assert map[][1 := Stored(m1.id, 0, 1)] == stale;
    Offers(cfg, first.maps.pushes, m2, 2, 1, stale);
    Stores(cfg, m2, 3, 1, 1, stale);
    SecondMarked(cfg, m2, stale);
    Then(cfg, Offered1(m2, 1, stale[3 := Stored(m2.id, 1, 2)]), MarkSection(3), Marked1(m2, stale));
    TwoMarked(m2);
    assert Wraps(Marked1(m2, stale), m1.id);
  }

  lemma FromEmpty(cfg: PushConfig)
    ensures Reachable(cfg, World(Maps(map[], map[]), map[]))
  {
    assert Run(EMPTY, cfg, []) == EMPTY;
  }

  /** Task 1 has a slice to mark, and would be answered with 2^32 - 1. */
  ghost predicate Wraps(w: World, id: string) {
    && 1 in w.tasks && w.tasks[1] == Stored(id, 0, 1)
    && id in w.maps.pushes && LeftAfter(w.maps.pushes[id], 0, 1) == U32_MAX
  }

  ghost function Marked1(m: Manifest, tasks: map<nat, Task>): World
    requires m.Chunks().Ok?
  {
    World(Maps(map[], map[m.id := PushEntry(m, m.Geometry(), Sidecar.Fresh(m, m.Count()).Marked(1), 1, 1)]), tasks)
  }

  lemma SecondMarked(cfg: PushConfig, m: Manifest, tasks: map<nat, Task>)
    requires m.Chunks().Ok? && m.Count() == 2 && 3 !in tasks
    ensures Apply(Offered1(m, 1, tasks[3 := Stored(m.id, 1, 2)]), cfg, MarkSection(3)) == Marked1(m, tasks)
  {
    var blank := Sidecar.Fresh(m, 2);
    TwoMarked(m);
    assert tasks[3 := Stored(m.id, 1, 2)] - {3} == tasks;
    FitsU32(1);
  }

  lemma TwoMarked(m: Manifest)
    requires m.Chunks().Ok? && m.Count() == 2
    ensures Sidecar.Fresh(m, 2).Marked(1).Marked(0).Received() == 2
    ensures Sidecar.Fresh(m, 2).Marked(1).Received() == 1
    ensures Sidecar.Fresh(m, 2).Marked(1) != Sidecar.Fresh(m, 2)
  {
    hide Sidecar.Held, Sidecar.Marked, Sidecar.Received;
    var blank := Sidecar.Fresh(m, 2);
    FreshHoldsNothing(m);
    MarkedHeld(blank, m, 1);
    MarkedHeld(blank.Marked(1), m, 0);
    MatchingCountsExactly(blank.Marked(1), m);
    MatchingCountsExactly(blank.Marked(1).Marked(0), m);
    assert blank.Marked(1).Held() == {1};
    assert blank.Marked(1).Marked(0).Held() == {0, 1};
  }
}
