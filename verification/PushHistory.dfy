/** What lies behind a registered blob, and what becomes of a push, over every run of
    src/server.rs from the empty server. */
module PushHistory {
  import opened Basics
  import opened Geometry
  import opened Resume
  import opened PushSections
  import opened PushRuns

  // ----- a run and its states -----

  /** The state before step `n` of a run. */
  ghost function At(cfg: PushConfig, actions: seq<Action>, n: nat): World
    requires n <= |actions|
  {
    Run(EMPTY, cfg, actions[..n])
  }

  lemma AtNext(cfg: PushConfig, actions: seq<Action>, n: nat)
    requires n < |actions|
    ensures At(cfg, actions, n + 1) == Apply(At(cfg, actions, n), cfg, actions[n])
  {
    hide Apply, Run;
    assert actions[..n + 1] == actions[..n] + [actions[n]];
    RunSnoc(EMPTY, cfg, actions[..n], actions[n]);
  }

  /** Another step does not change the past. */
  lemma AtStays(cfg: PushConfig, actions: seq<Action>, a: Action, n: nat)
    requires n <= |actions|
    ensures At(cfg, actions + [a], n) == At(cfg, actions, n)
  {
    assert (actions + [a])[..n] == actions[..n];
  }

  lemma AtInv(cfg: PushConfig, actions: seq<Action>, n: nat)
    requires n <= |actions|
    ensures Inv(At(cfg, actions, n), cfg)
  {
    RunsKeepInv(EMPTY, cfg, actions[..n]);
  }

  /** From after step `from` until step `to`, task `t` is at `task`. */
  ghost predicate Stays(cfg: PushConfig, actions: seq<Action>, from: nat, to: nat, t: nat, task: Task)
    requires to <= |actions|
  {
    forall n :: from < n <= to ==> TaskAt(cfg, actions, n, t, task)
  }

  ghost predicate TaskAt(cfg: PushConfig, actions: seq<Action>, n: nat, t: nat, task: Task)
    requires n <= |actions|
  {
    t in At(cfg, actions, n).tasks && At(cfg, actions, n).tasks[t] == task
  }

  lemma StaysStill(cfg: PushConfig, actions: seq<Action>, a: Action, from: nat, to: nat, t: nat, task: Task)
    requires to <= |actions| && Stays(cfg, actions, from, to, t, task)
    ensures Stays(cfg, actions + [a], from, to, t, task)
    ensures to == |actions| && TaskAt(cfg, actions + [a], to + 1, t, task) ==> Stays(cfg, actions + [a], from, to + 1, t, task)
  {
    forall n | from < n <= to
      ensures TaskAt(cfg, actions + [a], n, t, task)
    {
      AtStays(cfg, actions, a, n);
      assert TaskAt(cfg, actions, n, t, task);
    }
  }

  // ----- what lies behind a task -----

  /** Step `k` of task `t` read all of `content`, and it is what the manifest promises. */
  ghost predicate ReadWhole(a: Action, t: nat, m: Manifest, outboard: Outboard) {
    && (a.HashFile? || a.StartRegister?) && a.t == t
    && Outboard.Of(a.content) == outboard
    && Hash(a.content) == m.root && |a.content| == m.totalLen
  }

  /** Step `k` started the registration task `t` with a whole file. */
  ghost predicate StartedAt(cfg: PushConfig, actions: seq<Action>, k: nat, to: nat, t: nat, m: Manifest,
                            chunks: TransferChunks, outboard: Outboard) {
    && k < to <= |actions|
    && actions[k].StartRegister? && actions[k].manifest == m && ReadWhole(actions[k], t, m, outboard)
    && Stays(cfg, actions, k, to, t, Registering(m, chunks, outboard))
  }

  /** In step `i` task `t` took the push `entry` out of the map. */
  ghost predicate TookAt(cfg: PushConfig, actions: seq<Action>, i: nat, to: nat, t: nat, entry: PushEntry) {
    && i < to <= |actions|
    && actions[i] == TakeSection(t)
    && entry.manifest.id in At(cfg, actions, i).maps.pushes
    && At(cfg, actions, i).maps.pushes[entry.manifest.id] == entry
    && Stays(cfg, actions, i, to, t, Taken(entry))
  }

  /** And in step `k` it hashed the whole file, which matched. */
  ghost predicate HashedAt(cfg: PushConfig, actions: seq<Action>, i: nat, k: nat, to: nat, t: nat, entry: PushEntry,
                           outboard: Outboard) {
    && k < to <= |actions|
    && TookAt(cfg, actions, i, k, t, entry)
    && actions[k].HashFile? && ReadWhole(actions[k], t, entry.manifest, outboard)
    && Stays(cfg, actions, k, to, t, Hashed(entry, outboard))
  }

  /** How a task got where it is. */
  ghost predicate Explained(cfg: PushConfig, actions: seq<Action>, to: nat, t: nat, task: Task) {
    match task
    case Registering(m, chunks, outboard) => exists k :: StartedAt(cfg, actions, k, to, t, m, chunks, outboard)
    case Taken(entry) => exists i :: TookAt(cfg, actions, i, to, t, entry)
    case Hashed(entry, outboard) => exists i, k :: HashedAt(cfg, actions, i, k, to, t, entry, outboard)
    case _ => true
  }

  /** A step that brings a task to a stage does what the stage says. */
  ghost predicate Brought(w: World, a: Action, t: nat, task: Task) {
    match task
    case Registering(m, chunks, outboard) => a.StartRegister? && a.manifest == m && ReadWhole(a, t, m, outboard)
    case Taken(entry) =>
      && a == TakeSection(t)
      && entry.manifest.id in w.maps.pushes && w.maps.pushes[entry.manifest.id] == entry
    case Hashed(entry, outboard) =>
      && a.HashFile? && ReadWhole(a, t, entry.manifest, outboard)
      && t in w.tasks && w.tasks[t] == Taken(entry)
    case _ => true
  }

  lemma StepBrings(w: World, cfg: PushConfig, a: Action, t: nat)
    requires Inv(w, cfg) && t in Apply(w, cfg, a).tasks
    ensures (t in w.tasks && w.tasks[t] == Apply(w, cfg, a).tasks[t]) || Brought(w, a, t, Apply(w, cfg, a).tasks[t])
  {
    hide Advance, GoodMaps, GoodTask;
    match a
    case StartRegister(_, _, _) =>
    case StartOffer(_, _) =>
    case StartSlice(_, _, _, _) =>
    case UnregisterSection(_) =>
    case _ =>
      if a.t in w.tasks {
        AdvanceBrings(w, cfg, a, w.tasks[a.t], t);
      }
  }

  lemma AdvanceBrings(w: World, cfg: PushConfig, a: Action, task: Task, t: nat)
    requires Inv(w, cfg) && !a.UnregisterSection? && a.t in w.tasks && task == w.tasks[a.t]
    requires t in Advance(w, cfg, a, task).tasks
    ensures (t in w.tasks && w.tasks[t] == Advance(w, cfg, a, task).tasks[t]) ||
            Brought(w, a, t, Advance(w, cfg, a, task).tasks[t])
  {
    hide First, Insert, Mark, Take, Rehash, Enter, GoodTask;
    match (a, task)
    case (FirstSection(u, now), Offered(m)) => FirstBrings(w, cfg, u, m, now, t);
    case (InsertSection(u, now), Spooled(m, state)) =>
      if m.Chunks().Ok? {
        InsertBrings(w, cfg, u, m, state, now, t);
      }
    case (MarkSection(u), Stored(i, index, count)) => MarkBrings(w, u, i, index, count, t);
    case (TakeSection(u), Finalizing(i)) => TakeBrings(w, cfg, u, i, t);
    case (SpoolReady(u, found), Admitted(m)) =>
    case (StoreSlice(u, decoded), Storing(i, index, count)) =>
    case (HashFile(u, content), Taken(entry)) => RehashBrings(w, u, entry, content, t);
    case (RegisterSection(u), Registering(m, chunks, outboard)) => EnterBrings(w, u, m, chunks, outboard, t);
    case (RegisterSection(u), Hashed(entry, outboard)) =>
      EnterBrings(w, u, entry.manifest, entry.chunks, outboard, t);
    case (Abort(u), _) =>
    case _ =>
  }

  /** A stage that says nothing about files. */
  predicate Plain(task: Task) {
    !task.Registering? && !task.Taken? && !task.Hashed?
  }

  lemma FirstBrings(w: World, cfg: PushConfig, u: nat, m: Manifest, now: nat, t: nat)
    requires t in First(w, cfg, u, m, now).tasks
    ensures (t in w.tasks && w.tasks[t] == First(w, cfg, u, m, now).tasks[t]) || Plain(First(w, cfg, u, m, now).tasks[t])
  {
  }

  lemma InsertBrings(w: World, cfg: PushConfig, u: nat, m: Manifest, state: Sidecar, now: nat, t: nat)
    requires m.Chunks().Ok? && t in Insert(w, cfg, u, m, state, now).tasks
    ensures (t in w.tasks && w.tasks[t] == Insert(w, cfg, u, m, state, now).tasks[t]) ||
            Plain(Insert(w, cfg, u, m, state, now).tasks[t])
  {
  }

  lemma MarkBrings(w: World, u: nat, id: string, index: u32, count: u32, t: nat)
    requires t in Mark(w, u, id, index, count).tasks
    ensures (t in w.tasks && w.tasks[t] == Mark(w, u, id, index, count).tasks[t]) ||
            Plain(Mark(w, u, id, index, count).tasks[t])
  {
  }

  lemma TakeBrings(w: World, cfg: PushConfig, u: nat, id: string, t: nat)
    requires Inv(w, cfg) && t in Take(w, u, id).tasks
    ensures (t in w.tasks && w.tasks[t] == Take(w, u, id).tasks[t]) || Brought(w, TakeSection(u), t, Take(w, u, id).tasks[t])
  {
  }

  lemma RehashBrings(w: World, u: nat, entry: PushEntry, content: Bytes, t: nat)
    requires u in w.tasks && w.tasks[u] == Taken(entry) && t in Rehash(w, u, entry, Outboard.Of(content)).tasks
    ensures var now := Rehash(w, u, entry, Outboard.Of(content)).tasks[t];
            (t in w.tasks && w.tasks[t] == now) || Brought(w, HashFile(u, content), t, now)
  {
  }

  lemma EnterBrings(w: World, u: nat, m: Manifest, chunks: TransferChunks, outboard: Outboard, t: nat)
    requires t in Enter(w, u, m, chunks, outboard).tasks
    ensures t in w.tasks && w.tasks[t] == Enter(w, u, m, chunks, outboard).tasks[t]
  {
  }

  /** A task that a step leaves alone is still explained. */
  lemma StillExplained(cfg: PushConfig, actions: seq<Action>, a: Action, t: nat, task: Task)
    requires Explained(cfg, actions, |actions|, t, task) && TaskAt(cfg, actions + [a], |actions| + 1, t, task)
    ensures Explained(cfg, actions + [a], |actions| + 1, t, task)
  {
    var n, all := |actions|, actions + [a];
    match task
    case Registering(m, chunks, outboard) =>
      var k :| StartedAt(cfg, actions, k, n, t, m, chunks, outboard);
      StaysStill(cfg, actions, a, k, n, t, task);
      assert StartedAt(cfg, all, k, n + 1, t, m, chunks, outboard);
    case Taken(entry) =>
      var i :| TookAt(cfg, actions, i, n, t, entry);
      StaysStill(cfg, actions, a, i, n, t, task);
      AtStays(cfg, actions, a, i);
      assert TookAt(cfg, all, i, n + 1, t, entry);
    case Hashed(entry, outboard) =>
      var i, k :| HashedAt(cfg, actions, i, k, n, t, entry, outboard);
      TookStill(cfg, actions, a, i, k, t, entry);
      StaysStill(cfg, actions, a, k, n, t, task);
      assert HashedAt(cfg, all, i, k, n + 1, t, entry, outboard);
    case _ =>
  }

  lemma TookStill(cfg: PushConfig, actions: seq<Action>, a: Action, i: nat, to: nat, t: nat, entry: PushEntry)
    requires TookAt(cfg, actions, i, to, t, entry)
    ensures TookAt(cfg, actions + [a], i, to, t, entry)
  {
    StaysStill(cfg, actions, a, i, to, t, Taken(entry));
    AtStays(cfg, actions, a, i);
  }

  /** A task that a step has just brought where it is. */
  lemma NewlyExplained(cfg: PushConfig, actions: seq<Action>, a: Action, t: nat, task: Task)
    requires var w := At(cfg, actions, |actions|);
             && Brought(w, a, t, task)
             && (t in w.tasks ==> Explained(cfg, actions, |actions|, t, w.tasks[t]))
    requires TaskAt(cfg, actions + [a], |actions| + 1, t, task)
    ensures Explained(cfg, actions + [a], |actions| + 1, t, task)
  {
    var n, all := |actions|, actions + [a];
    assert all[n] == a;
    AtStays(cfg, actions, a, n);
    assert Stays(cfg, all, n, n + 1, t, task);
    match task
    case Registering(m, chunks, outboard) =>
      assert StartedAt(cfg, all, n, n + 1, t, m, chunks, outboard);
    case Taken(entry) =>
      assert TookAt(cfg, all, n, n + 1, t, entry);
    case Hashed(entry, outboard) =>
      var i :| TookAt(cfg, actions, i, n, t, entry);
      TookStill(cfg, actions, a, i, n, t, entry);
      assert HashedAt(cfg, all, i, n, n + 1, t, entry, outboard);
    case _ =>
  }

  /** Every task of every run is explained by the steps before. */
  lemma TasksExplained(cfg: PushConfig, actions: seq<Action>, t: nat)
    requires t in At(cfg, actions, |actions|).tasks
    ensures Explained(cfg, actions, |actions|, t, At(cfg, actions, |actions|).tasks[t])
    decreases |actions|
  {
    hide Apply, Run, Explained, Brought, Inv;
    if actions == [] {
      NothingRun(cfg);
    } else {
      var n := |actions| - 1;
      var front, a := actions[..n], actions[n];
      assert front + [a] == actions;
      AtNext(cfg, actions, n);
      AtStays(cfg, front, a, n);
      AtInv(cfg, front, n);
      var w, task := At(cfg, front, n), At(cfg, actions, n + 1).tasks[t];
      StepBrings(w, cfg, a, t);
      if t in w.tasks {
        TasksExplained(cfg, front, t);
      }
      if t in w.tasks && w.tasks[t] == task {
        StillExplained(cfg, front, a, t, task);
      } else {
        NewlyExplained(cfg, front, a, t, task);
      }
    }
  }

  lemma NothingRun(cfg: PushConfig)
    ensures At(cfg, [], 0) == EMPTY
  {
  }

  // ----- what lies behind a registered blob -----

  /** In step `j` task `t` entered `r`, which it had read whole: at its start, or as the
      file of a push it had taken before. */
  ghost predicate EnteredBy(cfg: PushConfig, actions: seq<Action>, j: nat, t: nat, r: Registered) {
    && j < |actions| && actions[j] == RegisterSection(t)
    && (|| (exists k :: StartedAt(cfg, actions, k, j, t, r.manifest, r.chunks, r.outboard))
        || (exists i, k, entry :: HashedAt(cfg, actions, i, k, j, t, entry, r.outboard) &&
                                  r == Registered(entry.manifest, entry.chunks, r.outboard)))
  }

  /** Since step `j` the id has served exactly `r`, and not before. */
  ghost predicate ServedSince(cfg: PushConfig, actions: seq<Action>, j: nat, id: string, r: Registered)
    requires j <= |actions|
  {
    && id !in At(cfg, actions, j).maps.registry
    && forall n :: j < n <= |actions| ==> ServesAt(cfg, actions, n, id, r)
  }

  ghost predicate ServesAt(cfg: PushConfig, actions: seq<Action>, n: nat, id: string, r: Registered)
    requires n <= |actions|
  {
    id in At(cfg, actions, n).maps.registry && At(cfg, actions, n).maps.registry[id] == r
  }

  /** Over every run: behind whatever is registered there is a task that read a whole
      file with the registered root and length, at the start of a direct registration or
      after it took the push out of the map, stayed at that until its registration
      section, and nothing has replaced the entry since. */
  lemma OnlyVerifiedRegisters(cfg: PushConfig, actions: seq<Action>, id: string)
    requires id in At(cfg, actions, |actions|).maps.registry
    ensures var r := At(cfg, actions, |actions|).maps.registry[id];
            exists j, t :: EnteredBy(cfg, actions, j, t, r) && ServedSince(cfg, actions, j, id, r)
    decreases |actions|
  {
    hide Apply, Run, Explained, Inv, StartedAt, HashedAt;
    if actions == [] {
      NothingRun(cfg);
    } else {
      var n := |actions| - 1;
      var front, a := actions[..n], actions[n];
      assert front + [a] == actions;
      AtNext(cfg, actions, n);
      AtStays(cfg, front, a, n);
      var w, r := At(cfg, front, n), At(cfg, actions, n + 1).maps.registry[id];
      if id in w.maps.registry {
        StillThere(w, cfg, a, id);
        OnlyVerifiedRegisters(cfg, front, id);
        var j, t :| EnteredBy(cfg, front, j, t, r) && ServedSince(cfg, front, j, id, r);
        EnteredStill(cfg, front, a, j, t, id, r);
      } else {
        OnlyHashedRegisters(w, cfg, a, id);
        TasksExplained(cfg, front, a.t);
        JustEntered(cfg, front, a, id, r);
      }
    }
  }

  lemma StillThere(w: World, cfg: PushConfig, a: Action, id: string)
    requires id in w.maps.registry && id in Apply(w, cfg, a).maps.registry
    ensures Apply(w, cfg, a).maps.registry[id] == w.maps.registry[id]
  {
    StepKeepsRegistered(w, cfg, a, id);
  }

  lemma EnteredStill(cfg: PushConfig, actions: seq<Action>, a: Action, j: nat, t: nat, id: string, r: Registered)
    requires EnteredBy(cfg, actions, j, t, r) && ServedSince(cfg, actions, j, id, r)
    requires ServesAt(cfg, actions + [a], |actions| + 1, id, r)
    ensures EnteredBy(cfg, actions + [a], j, t, r) && ServedSince(cfg, actions + [a], j, id, r)
  {
    var all := actions + [a];
    AtStays(cfg, actions, a, j);
    forall n | j < n <= |actions|
      ensures ServesAt(cfg, all, n, id, r)
    {
      AtStays(cfg, actions, a, n);
      assert ServesAt(cfg, actions, n, id, r);
    }
    if k :| StartedAt(cfg, actions, k, j, t, r.manifest, r.chunks, r.outboard) {
      StaysStill(cfg, actions, a, k, j, t, Registering(r.manifest, r.chunks, r.outboard));
      assert StartedAt(cfg, all, k, j, t, r.manifest, r.chunks, r.outboard);
    } else {
      var i, k, entry :| HashedAt(cfg, actions, i, k, j, t, entry, r.outboard) &&
                         r == Registered(entry.manifest, entry.chunks, r.outboard);
      TookStill(cfg, actions, a, i, k, t, entry);
      StaysStill(cfg, actions, a, k, j, t, Hashed(entry, r.outboard));
      assert HashedAt(cfg, all, i, k, j, t, entry, r.outboard);
    }
  }

  lemma JustEntered(cfg: PushConfig, actions: seq<Action>, a: Action, id: string, r: Registered)
    requires var w := At(cfg, actions, |actions|);
             && a.RegisterSection? && a.t in w.tasks && id !in w.maps.registry
             && Explained(cfg, actions, |actions|, a.t, w.tasks[a.t])
             && (match w.tasks[a.t]
                 case Registering(m, chunks, outboard) => r == Registered(m, chunks, outboard)
                 case Hashed(entry, outboard) => r == Registered(entry.manifest, entry.chunks, outboard)
                 case _ => false)
    requires ServesAt(cfg, actions + [a], |actions| + 1, id, r)
    ensures EnteredBy(cfg, actions + [a], |actions|, a.t, r) && ServedSince(cfg, actions + [a], |actions|, id, r)
  {
    var n, all, t := |actions|, actions + [a], a.t;
    var task := At(cfg, actions, n).tasks[t];
    assert all[n] == a;
    AtStays(cfg, actions, a, n);
    match task
    case Registering(m, chunks, outboard) =>
      var k :| StartedAt(cfg, actions, k, n, t, m, chunks, outboard);
      StaysStill(cfg, actions, a, k, n, t, task);
      assert StartedAt(cfg, all, k, n, t, m, chunks, outboard);
    case Hashed(entry, outboard) =>
      var i, k :| HashedAt(cfg, actions, i, k, n, t, entry, outboard);
      TookStill(cfg, actions, a, i, k, t, entry);
      StaysStill(cfg, actions, a, k, n, t, task);
      assert HashedAt(cfg, all, i, k, n, t, entry, outboard);
  }

  // ----- what becomes of a push -----

  /** The push is the same and has lost nothing. */
  ghost predicate Grown(before: PushEntry, after: PushEntry) {
    && after.manifest == before.manifest && after.chunks == before.chunks
    && before.state.Held() <= after.state.Held()
  }

  /** A step keeps a push and everything it has received, unless it evicts it for being
      idle or takes it to be finalized: no racing offer replaces it. */
  lemma StepKeepsPush(w: World, cfg: PushConfig, a: Action, id: string)
    requires Inv(w, cfg) && id in w.maps.pushes
    ensures var before, after := w.maps.pushes[id], Apply(w, cfg, a).maps.pushes;
            || (id in after && Grown(before, after[id]))
            || (id !in after && a.FirstSection? && Idle(before, cfg, a.now))
            || (id !in after && a.TakeSection? && a.t in w.tasks && w.tasks[a.t] == Finalizing(id))
  {
    hide Advance, Touch, Grown, GoodTask, GoodMaps;
    GrownSame(w.maps.pushes[id]);
    match a
    case StartRegister(_, _, _) =>
    case StartOffer(_, _) =>
    case StartSlice(t, i, index, now) =>
      if i in w.maps.pushes && w.maps.pushes[i].manifest.Chunks().Ok? {
        TouchGrows(w, t, i, index, now, id);
      }
    case UnregisterSection(_) =>
    case _ =>
      if a.t in w.tasks {
        AdvanceKeepsPush(w, cfg, a, w.tasks[a.t], id);
      }
  }

  lemma GrownSame(e: PushEntry)
    ensures Grown(e, e)
  {
  }

  lemma TouchGrows(w: World, t: nat, i: string, index: u32, now: nat, id: string)
    requires i in w.maps.pushes && w.maps.pushes[i].manifest.Chunks().Ok? && id in w.maps.pushes
    ensures var after := Touch(w, t, i, index, now).maps.pushes;
            id in after && Grown(w.maps.pushes[id], after[id])
  {
  }

  lemma AdvanceKeepsPush(w: World, cfg: PushConfig, a: Action, task: Task, id: string)
    requires Inv(w, cfg) && id in w.maps.pushes && !a.UnregisterSection?
    ensures var before, after := w.maps.pushes[id], Advance(w, cfg, a, task).maps.pushes;
            || (id in after && Grown(before, after[id]))
            || (id !in after && a.FirstSection? && Idle(before, cfg, a.now))
            || (id !in after && a.TakeSection? && task == Finalizing(id))
  {
    hide First, Insert, Mark, Take, Rehash, Enter, Spool, Grown, Idle, GoodTask, GoodMaps;
    GrownSame(w.maps.pushes[id]);
    match (a, task)
    case (FirstSection(t, now), Offered(m)) => FirstGrows(w, cfg, t, m, now, id);
    case (InsertSection(t, now), Spooled(m, state)) =>
      if m.Chunks().Ok? {
        InsertGrows(w, cfg, t, m, state, now, id);
      }
    case (MarkSection(t), Stored(i, index, count)) => MarkGrows(w, cfg, t, i, index, count, id);
    case (TakeSection(t), Finalizing(i)) => TakeLeaves(w, t, i, id);
    case (SpoolReady(t, found), Admitted(m)) =>
      if m.Chunks().Ok? {
        SpoolLeaves(w, t, m, found);
      }
    case (StoreSlice(t, decoded), Storing(i, index, count)) =>
    case (HashFile(t, content), Taken(entry)) => RehashLeaves(w, t, entry, Outboard.Of(content));
    case (RegisterSection(t), Registering(m, chunks, outboard)) => EnterLeaves(w, t, m, chunks, outboard);
    case (RegisterSection(t), Hashed(entry, outboard)) => EnterLeaves(w, t, entry.manifest, entry.chunks, outboard);
    case (Abort(t), _) =>
    case _ =>
  }

  lemma FirstGrows(w: World, cfg: PushConfig, t: nat, m: Manifest, now: nat, id: string)
    requires id in w.maps.pushes
    ensures var after := First(w, cfg, t, m, now).maps.pushes;
            if Idle(w.maps.pushes[id], cfg, now) then id !in after
            else id in after && Grown(w.maps.pushes[id], after[id])
  {
    hide AfterOffer;
    var (maps, reply) := OfferFirst(w.maps, cfg, m, now);
    if reply.Known? {
      AfterOfferMaps(w.(maps := maps), t, m, reply.entry);
    }
  }

  lemma InsertGrows(w: World, cfg: PushConfig, t: nat, m: Manifest, state: Sidecar, now: nat, id: string)
    requires m.Chunks().Ok? && id in w.maps.pushes
    ensures var after := Insert(w, cfg, t, m, state, now).maps.pushes;
            id in after && Grown(w.maps.pushes[id], after[id])
  {
    hide AfterOffer;
    var (maps, reply) := OfferInsert(w.maps, cfg, m, m.Geometry(), state, now);
    if reply.Known? {
      AfterOfferMaps(w.(maps := maps), t, m, reply.entry);
    }
  }

  lemma MarkGrows(w: World, cfg: PushConfig, t: nat, i: string, index: u32, count: u32, id: string)
    requires Inv(w, cfg) && id in w.maps.pushes
    ensures var after := Mark(w, t, i, index, count).maps.pushes;
            id in after && Grown(w.maps.pushes[id], after[id])
  {
    hide Sidecar.Held, Sidecar.Marked, LeftAfter;
    MarkedHeld(w.maps.pushes[id].state, w.maps.pushes[id].manifest, index);
  }

  lemma TakeLeaves(w: World, t: nat, i: string, id: string)
    requires id in w.maps.pushes
    ensures var after := Take(w, t, i).maps.pushes;
            if i == id then id !in after else id in after && after[id] == w.maps.pushes[id]
  {
  }

  lemma SpoolLeaves(w: World, t: nat, m: Manifest, found: Option<Sidecar>)
    requires m.Chunks().Ok?
    ensures Spool(w, t, m, found).maps == w.maps
  {
  }

  lemma RehashLeaves(w: World, t: nat, entry: PushEntry, outboard: Outboard)
    ensures Rehash(w, t, entry, outboard).maps == w.maps
  {
  }

  lemma EnterLeaves(w: World, t: nat, m: Manifest, chunks: TransferChunks, outboard: Outboard)
    ensures Enter(w, t, m, chunks, outboard).maps.pushes == w.maps.pushes
  {
  }

  /** From step `m` to step `n` the id has a push throughout. */
  ghost predicate Lives(cfg: PushConfig, actions: seq<Action>, id: string, m: nat, n: nat)
    requires n <= |actions|
  {
    forall k :: m <= k <= n ==> HasPush(cfg, actions, id, k)
  }

  ghost predicate HasPush(cfg: PushConfig, actions: seq<Action>, id: string, k: nat)
    requires k <= |actions|
  {
    id in At(cfg, actions, k).maps.pushes
  }

  /** Over every run, as long as an id has a push it is the one push, whatever races:
      its manifest stays and what it has received only grows. */
  lemma PushOnlyGrows(cfg: PushConfig, actions: seq<Action>, id: string, m: nat, n: nat)
    requires m <= n <= |actions| && Lives(cfg, actions, id, m, n)
    ensures HasPush(cfg, actions, id, m) && HasPush(cfg, actions, id, n)
    ensures Grown(At(cfg, actions, m).maps.pushes[id], At(cfg, actions, n).maps.pushes[id])
    decreases n - m
  {
    hide Apply, Run, At, Inv;
    assert HasPush(cfg, actions, id, m) && HasPush(cfg, actions, id, n);
    if m < n {
      PushOnlyGrows(cfg, actions, id, m, n - 1);
      AtInv(cfg, actions, n - 1);
      AtNext(cfg, actions, n - 1);
      StepKeepsPush(At(cfg, actions, n - 1), cfg, actions[n - 1], id);
    }
  }
}
