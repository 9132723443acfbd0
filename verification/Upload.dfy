/** The server's handlers and the uploading client, run one after the other: the
    handlers of src/server.rs over its two maps, and `run_upload` of src/client.rs. */
module Uploads {
  import opened Basics
  import opened Geometry
  import opened Bits
  import opened Spans
  import opened Resume
  import opened Slices
  import opened DownloadFacts
  import opened PushSections

  /** A push's files in the spool directory. */
  datatype SpoolFile = SpoolFile(part: Bytes, sidecar: Option<Sidecar>)

  datatype OfferAnswer = Wanted(ranges: seq<Span>) | OfferRefused
  datatype SliceAnswer = Ack(remaining: u32) | SliceRefused

  /** A slice as it was pushed. */
  datatype PushedSlice = PushedSlice(index: u32, payload: Payload)

  class BlobServer {
    const cfg: PushConfig
    var registry: map<string, Registered>
    var pushes: map<string, PushEntry>
    var spool: map<string, SpoolFile>
    /** Every slice that was ever pushed here, by id and in order of arrival. */
    ghost var log: map<string, seq<PushedSlice>>

    ghost function Pushed(id: string): seq<PushedSlice>
      reads this`log
    {
      if id in log then log[id] else []
    }

    /** All the server has of one id. */
    ghost function Of(id: string): (Option<Registered>, Option<PushEntry>, Option<SpoolFile>, seq<PushedSlice>)
      reads this
    {
      (if id in registry then Some(registry[id]) else None,
       if id in pushes then Some(pushes[id]) else None,
       if id in spool then Some(spool[id]) else None,
       Pushed(id))
    }

    function Maps(): Maps
      reads this`registry, this`pushes
    {
      PushSections.Maps(registry, pushes)
    }

    // ----- the lock-held sections -----

    /** The retain loop: drop idle pushes and name them. */
    method EvictIdle(now: nat) returns (evicted: set<string>)
      modifies this`pushes
      ensures pushes == Kept(old(pushes), cfg, now)
      ensures evicted == old(pushes).Keys - pushes.Keys
    {
      evicted := {};
      var todo := pushes.Keys;
      while todo != {}
        invariant todo <= old(pushes).Keys
        invariant pushes == map id | id in old(pushes) && (id in todo || !Idle(old(pushes)[id], cfg, now)) :: old(pushes)[id]
        invariant evicted == old(pushes).Keys - pushes.Keys
        decreases |todo|
      {
        var id :| id in todo;
        if Idle(pushes[id], cfg, now) {
          pushes := pushes - {id};
          evicted := evicted + {id};
        }
        todo := todo - {id};
      }
    }

    method FirstSection(m: Manifest, now: nat) returns (reply: OfferReply, evicted: set<string>)
      modifies this`pushes
      ensures (Maps(), reply) == OfferFirst(old(Maps()), cfg, m, now)
      ensures evicted == old(pushes).Keys - Kept(old(pushes), cfg, now).Keys
    {
      evicted := EvictIdle(now);
      var overCap := |pushes| >= cfg.maxConcurrent;
      if m.id in pushes {
        if !SamePush(pushes[m.id], m) {
          return Conflicting, evicted;
        }
        pushes := pushes[m.id := pushes[m.id].(lastActivity := now)];
        return Known(pushes[m.id]), evicted;
      }
      reply := if overCap then Busy else New;
    }

    method InsertSection(m: Manifest, chunks: TransferChunks, state: Sidecar, now: nat) returns (reply: OfferReply)
      modifies this`pushes
      ensures (Maps(), reply) == OfferInsert(old(Maps()), cfg, m, chunks, state, now)
    {
      if |pushes| >= cfg.maxConcurrent && m.id !in pushes {
        return Busy;
      }
      if m.id !in pushes {
        pushes := pushes[m.id := PushEntry(m, chunks, state, now, 0)];
      }
      reply := Known(pushes[m.id]);
    }

    method MarkSection(id: string, index: u32, count: u32) returns (reply: MarkReply)
      modifies this`pushes
      ensures (Maps(), reply) == SliceMark(old(Maps()), id, index, count)
    {
      if id !in pushes {
        return Gone;
      }
      var e := pushes[id];
      var state := e.state.Marked(index);
      var dirty := if state != e.state then e.dirtyMarks + 1 else e.dirtyMarks;
      var remaining := LeftAfter(e, index, count);
      var save: Option<Sidecar> := None;
      if remaining == 0 || dirty >= SAVE_EVERY {
        dirty := 0;
        save := Some(state);
      }
      pushes := pushes[id := e.(state := state, dirtyMarks := dirty)];
      reply := Marked(remaining, save);
    }

    method TakeSection(id: string) returns (entry: Option<PushEntry>)
      modifies this`pushes
      ensures (Maps(), entry) == FinalizeTake(old(Maps()), id)
    {
      if id !in pushes {
        return None;
      }
      entry := Some(pushes[id]);
      pushes := pushes - {id};
    }

    method RegisterSection(m: Manifest, chunks: TransferChunks, outboard: Outboard) returns (reply: RegisterReply)
      modifies this`registry
      ensures (Maps(), reply) == Register(old(Maps()), m, chunks, outboard)
    {
      if m.id in registry {
        return if registry[m.id].manifest.root == m.root then AlreadySame else AlreadyDifferent;
      }
      registry := registry[m.id := Registered(m, chunks, outboard)];
      reply := Inserted;
    }

    // ----- where an upload stands -----

    ghost predicate Good()
      reads this`registry, this`pushes
    {
      GoodMaps(Maps(), cfg)
    }

    ghost predicate Serving(m: Manifest)
      reads this`registry
    {
      m.id in registry && registry[m.id].manifest.root == m.root
    }

    /** The push of `m` is in progress with exactly `held` received and spooled. */
    ghost predicate Receiving(m: Manifest, held: set<nat>)
      requires m.Chunks().Ok?
      reads this`registry, this`pushes, this`spool
    {
      && m.id !in registry
      && m.id in pushes && SamePush(pushes[m.id], m) && pushes[m.id].state.Held() == held
      && m.id in spool && SpoolHolds(spool[m.id].part, m, held)
      && Unsaved(m, pushes[m.id].dirtyMarks)
    }

    /** The saved sidecar claims nothing that is not received, and exactly `n` chunks
        less: what a restart of the server would lose. */
    ghost predicate Unsaved(m: Manifest, n: nat)
      requires m.Chunks().Ok? && m.id in pushes
      reads this`pushes, this`spool
    {
      && Spooled(m) <= pushes[m.id].state.Held()
      && |pushes[m.id].state.Held() - Spooled(m)| == n
    }

    ghost predicate Status(m: Manifest, held: set<nat>)
      requires m.Chunks().Ok?
      reads this`registry, this`pushes, this`spool
    {
      if held == Below(m.Count()) then Serving(m) else Receiving(m, held)
    }

    /** What is already there for `m` is right: an entry's chunks are spooled, and
        a matching sidecar of a full-length part tells the truth. */
    ghost predicate SpoolConsistent(m: Manifest)
      requires m.Chunks().Ok?
      reads this
    {
      && (m.id in pushes && SamePush(pushes[m.id], m) ==>
            && m.id in spool && SpoolHolds(spool[m.id].part, m, pushes[m.id].state.Held())
            && Unsaved(m, pushes[m.id].dirtyMarks))
      && (m.id in spool && spool[m.id].sidecar.Some? && Fits(spool[m.id].sidecar.value, m) &&
          |spool[m.id].part| == m.totalLen ==>
            SpoolHolds(spool[m.id].part, m, spool[m.id].sidecar.value.Held()))
    }

    /** What the spool alone can still tell of `m`: the chunks of a matching sidecar
        of a full-length part. */
    ghost function Spooled(m: Manifest): set<nat>
      requires m.Chunks().Ok?
      reads this`spool
    {
      if m.id in spool && spool[m.id].sidecar.Some? && Fits(spool[m.id].sidecar.value, m) &&
         |spool[m.id].part| == m.totalLen
      then spool[m.id].sidecar.value.Held()
      else {}
    }

    /** The chunks of `m` an offer made now need not ask for: all of a blob being
        served, those of a live push, none of one that has gone idle, whose spool
        goes with it, and otherwise what the spool holds. */
    ghost function HeldFor(m: Manifest, now: nat): set<nat>
      requires m.Chunks().Ok?
      reads this
    {
      if m.id in registry then Below(m.Count())
      else if m.id in Kept(pushes, cfg, now) then pushes[m.id].state.Held()
      else if m.id in pushes then {}
      else Spooled(m)
    }

    /** Why an offer may be turned down. */
    ghost predicate Blocked(m: Manifest, now: nat)
      reads this
    {
      if m.id in registry then registry[m.id].manifest.root != m.root
      else
        var kept := Kept(pushes, cfg, now);
        if m.id in kept then !SamePush(kept[m.id], m) else |kept| >= cfg.maxConcurrent
    }

    // ----- the handlers -----

    /** The end of a push: take the entry, move the part aside, hash all of it, and
        register only what matches. */
    method Finalize(id: string, ghost m: Manifest) returns (ok: bool)
      requires Good() && m.Chunks().Ok? && m.id == id && m.totalLen == |m.root.preimage|
      requires Receiving(m, Below(m.Count()))
      modifies this`registry, this`pushes, this`spool
      ensures Good() && ok && Serving(m)
    {
      FinalizeTakeKeeps(Maps(), cfg, id);
      var entry := TakeSection(id);
      var content := spool[id].part;
      WholePartIsBlob(content, m);
      spool := spool - {id};
      var outboard := Outboard.Of(content);
      if outboard.root != entry.value.manifest.root || outboard.len != entry.value.manifest.totalLen {
        return false;
      }
      RegisterKeeps(Maps(), cfg, entry.value.manifest, entry.value.chunks, outboard);
      var reply := RegisterSection(entry.value.manifest, entry.value.chunks, outboard);
      ok := reply != AlreadyDifferent;
    }

    /** An entry's answer: what it still misses; with nothing missing it finalizes. */
    method AnswerOffer(m: Manifest) returns (answer: OfferAnswer)
      requires Good() && m.Chunks().Ok? && m.totalLen == |m.root.preimage|
      requires m.id in pushes && Receiving(m, pushes[m.id].state.Held())
      modifies this`registry, this`pushes, this`spool
      ensures Good() && answer.Wanted?
      ensures WantedIs(answer.ranges, m, old(pushes[m.id].state.Held()))
      ensures Status(m, old(pushes[m.id].state.Held()))
    {
      ghost var held := pushes[m.id].state.Held();
      EntryFits(pushes[m.id], m);
      var ranges := FindHoles(pushes[m.id].state, m.Count());
      EmptyRuns(ranges, held, m);
      if ranges == [] {
        var ok := Finalize(m.id, m);
      }
      answer := Wanted(ranges);
    }

    /** An offer of a validated manifest that the policy allows. Whatever is already
        there is kept, and exactly the rest is asked for. */
    method PushOffer(m: Manifest, now: nat) returns (answer: OfferAnswer)
      requires Good() && m.Chunks().Ok? && m.totalLen == |m.root.preimage| && SpoolConsistent(m)
      modifies this`registry, this`pushes, this`spool
      ensures Good()
      ensures answer.OfferRefused? <==> old(Blocked(m, now))
      ensures answer.OfferRefused? ==> registry == old(registry)
      ensures answer.Wanted? ==> WantedIs(answer.ranges, m, old(HeldFor(m, now))) && Status(m, old(HeldFor(m, now)))
    {
      hide GoodMaps, SpoolHolds, WantedIs, SpoolConsistent;
      if m.id in registry {
        NothingWanted(m);
        return if registry[m.id].manifest.root == m.root then Wanted([]) else OfferRefused;
      }
      var admitted := Admit(m, now);
      if !admitted {
        return OfferRefused;
      }
      answer := AnswerOffer(m);
    }

    /** Evict, then resume the push, refuse it, or admit it with its spool set up. */
    method Admit(m: Manifest, now: nat) returns (admitted: bool)
      requires Good() && m.Chunks().Ok? && m.totalLen == |m.root.preimage| && SpoolConsistent(m)
      requires m.id !in registry
      modifies this`pushes, this`spool
      ensures Good()
      ensures !admitted <==> old(Blocked(m, now))
      ensures admitted ==> m.id in pushes && pushes[m.id].state.Held() == old(HeldFor(m, now))
      ensures admitted ==> Receiving(m, pushes[m.id].state.Held())
    {
      hide Good, Blocked, HeldFor, SpoolConsistent, Spooled, Receiving;
      var reply := LookUp(m, now);
      if reply == New {
        SetUpSpool(m, now);
      }
      admitted := reply.New? || reply.Known?;
    }

    /** The first section, and the files of whatever it evicted. */
    method LookUp(m: Manifest, now: nat) returns (reply: OfferReply)
      requires Good() && m.Chunks().Ok? && SpoolConsistent(m) && m.id !in registry
      modifies this`pushes, this`spool
      ensures Good()
      ensures reply.Conflicting? || reply.Busy? <==> old(Blocked(m, now))
      ensures reply.Known? ==>
                && m.id in pushes && pushes[m.id].state.Held() == old(HeldFor(m, now))
                && Receiving(m, pushes[m.id].state.Held())
      ensures reply.New? ==>
                && m.id !in pushes && |pushes| < cfg.maxConcurrent
                && SpoolConsistent(m) && Spooled(m) == old(HeldFor(m, now))
    {
      hide GoodMaps, SpoolHolds, OfferFirst, Kept, Fits, Sidecar.Held, SamePush;
      OfferFirstKeeps(Maps(), cfg, m, now);
      OfferSays(Maps(), cfg, m, now);
      var evicted;
      reply, evicted := FirstSection(m, now);
      if reply != Conflicting {
        spool := spool - evicted;
      }
    }

    /** A fresh push: reuse the spool if it matches, else start it over, then insert
        the entry. */
    method SetUpSpool(m: Manifest, now: nat)
      requires Good() && m.Chunks().Ok? && SpoolConsistent(m)
      requires m.id !in registry && m.id !in pushes && |pushes| < cfg.maxConcurrent
      modifies this`pushes, this`spool
      ensures Good() && m.id in pushes && Receiving(m, pushes[m.id].state.Held())
      ensures pushes[m.id].state.Held() == old(Spooled(m))
    {
      var state := Sidecar.Fresh(m, m.Count());
      if m.id in spool && spool[m.id].sidecar.Some? && spool[m.id].sidecar.value.Matches(m, m.Count()) &&
         |spool[m.id].part| == m.totalLen {
        state := spool[m.id].sidecar.value;
      } else {
        FreshHoldsNothing(m);
        spool := spool[m.id := SpoolFile(seq(m.totalLen, _ => 0), Some(state))];
      }
      OfferInsertKeeps(Maps(), cfg, m, m.Geometry(), state, now);
      var reply := InsertSection(m, m.Geometry(), state, now);
    }

    /** One pushed slice. A slice that does not verify, or lies outside the blob, is
        refused and changes nothing that matters; a genuine one is stored, marked
        and acknowledged with the exact number still missing. */
    method PushSlice(m: Manifest, index: u32, payload: Payload, now: nat) returns (answer: SliceAnswer)
      requires Good() && m.Chunks().Ok? && m.totalLen == |m.root.preimage|
      requires m.id in pushes ==> Receiving(m, pushes[m.id].state.Held())
      modifies this
      ensures Good()
      ensures m.id !in old(pushes) ==>
                Maps() == old(Maps()) && answer == if m.id in registry then Ack(0) else SliceRefused
      ensures m.id in old(pushes) && answer.SliceRefused? ==> Receiving(m, old(pushes[m.id].state.Held()))
      ensures m.id in old(pushes) && answer.Ack? ==>
                && index < m.Count()
                && Status(m, old(pushes[m.id].state.Held()) + {index as nat})
                && answer.remaining == |Missing(old(pushes[m.id].state.Held()) + {index as nat}, m.Count())|
      ensures m.id in old(pushes) && index < m.Count() && payload == ChunkSlice(m, index) ==> answer.Ack?
      ensures Pushed(m.id) == old(Pushed(m.id)) + [PushedSlice(index, payload)]
    {
      hide Good, Receiving, Status;
      log := log[m.id := Pushed(m.id) + [PushedSlice(index, payload)]];
      if m.id !in pushes {
        return if m.id in registry then Ack(0) else SliceRefused;
      }
      answer := TakeSlice(m, index, payload, now);
    }

    /** The same for a push in progress. */
    method TakeSlice(m: Manifest, index: u32, payload: Payload, now: nat) returns (answer: SliceAnswer)
      requires Good() && m.Chunks().Ok? && m.totalLen == |m.root.preimage|
      requires m.id in pushes && Receiving(m, pushes[m.id].state.Held())
      modifies this`registry, this`pushes, this`spool
      ensures Good()
      ensures answer.SliceRefused? ==> Receiving(m, old(pushes[m.id].state.Held()))
      ensures answer.Ack? ==>
                && index < m.Count()
                && Status(m, old(pushes[m.id].state.Held()) + {index as nat})
                && answer.remaining == |Missing(old(pushes[m.id].state.Held()) + {index as nat}, m.Count())|
      ensures index < m.Count() && payload == ChunkSlice(m, index) ==> answer.Ack?
    {
      hide GoodMaps, Unsaved, SpoolHolds, Status, ChunkSlice;
      TouchSection(m, now);
      EntryFitsNow(m);
      if index >= m.Count() {
        return SliceRefused;
      }
      HeldMembership(pushes[m.id].state, index);
      if !pushes[m.id].state.IsSet(index) {
        var stored := StoreSlice(m, index, payload);
        if !stored {
          return SliceRefused;
        }
      } else {
        HeldIsSpooled(m, index);
      }
      answer := AcknowledgeSlice(m, index);
    }

    lemma HeldIsSpooled(m: Manifest, index: u32)
      requires m.Chunks().Ok? && m.id in pushes && Receiving(m, pushes[m.id].state.Held())
      requires index in pushes[m.id].state.Held()
      ensures Holds(spool[m.id].part, m, index)
    {
    }

    /** The section that reads what a slice needs and notes the activity. */
    method TouchSection(m: Manifest, now: nat)
      requires Good() && m.Chunks().Ok? && m.id in pushes && Receiving(m, pushes[m.id].state.Held())
      modifies this`pushes
      ensures Good() && Maps() == SliceTouch(old(Maps()), m.id, now)
      ensures Receiving(m, old(pushes[m.id].state.Held())) && pushes[m.id].state == old(pushes[m.id].state)
    {
      SliceTouchKeeps(Maps(), cfg, m.id, now);
      pushes := pushes[m.id := pushes[m.id].(lastActivity := now)];
    }

    // ----- everybody else -----

    /** Any number of sections of other ids: offers, slices, finalizes, registrations and
        removals, whatever they carry, as long as none finds this id's push idle. */
    method OthersRun(m: Manifest, ghost held: set<nat>)
      requires Good() && m.Chunks().Ok?
      modifies this
      ensures Good() && Of(m.id) == old(Of(m.id))
      ensures old(Status(m, held)) ==> Status(m, held)
    {
      hide Good;
      var rounds: nat :| true;
      for n := 0 to rounds
        invariant Good() && Of(m.id) == old(Of(m.id))
      {
        var section: nat :| true;
        var other: Manifest := *;
        if other.id != m.id {
          OtherSection(m.id, other, section);
        }
      }
    }

    /** One of them. */
    method OtherSection(id: string, other: Manifest, section: nat)
      requires Good() && other.id != id
      modifies this
      ensures Good() && Of(id) == old(Of(id))
    {
      if section == 0 {
        var now: nat :| true;
        if id in pushes ==> !Idle(pushes[id], cfg, now) {
          OtherOffer(id, other, now);
        }
      } else if section == 1 {
        OtherInsert(id, other);
      } else if section == 2 {
        OtherSlice(id, other);
      } else if section == 3 {
        OtherFinalize(id, other);
      } else if section == 4 {
        registry := registry - {other.id};
      } else {
        var file: SpoolFile := *;
        spool := spool[other.id := file];
      }
    }

    /** Another offer's first section, with the files of what it evicts. */
    method OtherOffer(id: string, other: Manifest, now: nat)
      requires Good() && other.id != id && (id in pushes ==> !Idle(pushes[id], cfg, now))
      modifies this`pushes, this`spool
      ensures Good() && Of(id) == old(Of(id))
    {
      hide GoodMaps, OfferFirst, Kept;
      OfferFirstKeeps(Maps(), cfg, other, now);
      OfferLeaves(Maps(), cfg, other, now, id);
      var reply, evicted := FirstSection(other, now);
      spool := spool - evicted;
    }

    method OtherInsert(id: string, other: Manifest)
      requires Good() && other.id != id
      modifies this`pushes
      ensures Good() && Of(id) == old(Of(id))
    {
      hide GoodMaps;
      if other.Chunks().Err? {
        return;
      }
      var now: nat :| true;
      var state: Sidecar := *;
      if state.Matches(other, other.Count()) {
        OfferInsertKeeps(Maps(), cfg, other, other.Geometry(), state, now);
        var reply := InsertSection(other, other.Geometry(), state, now);
      }
    }

    method OtherSlice(id: string, other: Manifest)
      requires Good() && other.id != id
      modifies this`pushes, this`log
      ensures Good() && Of(id) == old(Of(id))
    {
      hide GoodMaps, LeftAfter, Sidecar.Marked;
      var index: u32, count: u32 :| true;
      SliceMarkKeeps(Maps(), cfg, other.id, index, count);
      var reply := MarkSection(other.id, index, count);
      log := log[other.id := Pushed(other.id) + [PushedSlice(index, Junk)]];
    }

    method OtherFinalize(id: string, other: Manifest)
      requires Good() && other.id != id
      modifies this`pushes, this`registry
      ensures Good() && Of(id) == old(Of(id))
    {
      hide GoodMaps;
      FinalizeTakeKeeps(Maps(), cfg, other.id);
      var entry := TakeSection(other.id);
      var content: Bytes := *;
      if other.Chunks().Ok? && other.root == Hash(content) && other.totalLen == |content| {
        RegisterKeeps(Maps(), cfg, other, other.Geometry(), Outboard.Of(content));
        var reply := RegisterSection(other, other.Geometry(), Outboard.Of(content));
      }
    }

    /** Verify a slice against the offered root and write its leaves to the part. */
    method StoreSlice(m: Manifest, index: u32, payload: Payload) returns (stored: bool)
      requires m.Chunks().Ok? && m.totalLen == |m.root.preimage| && index < m.Count()
      requires Good() && m.id in pushes && Receiving(m, pushes[m.id].state.Held())
      modifies this`spool
      ensures Receiving(m, pushes[m.id].state.Held())
      ensures stored ==> Holds(spool[m.id].part, m, index)
      ensures payload == ChunkSlice(m, index) ==> stored
    {
      var decoded := DecodeChunk(m, index, payload);
      if decoded.None? {
        return false;
      }
      EntryFits(pushes[m.id], m);
      var file := spool[m.id];
      var part := WriteAll(file.part, decoded.value, m, index);
      spool := spool[m.id := file.(part := part)];
      stored := true;
    }

    /** Mark, save when due, finalize when nothing is left. */
    method AcknowledgeSlice(m: Manifest, index: u32) returns (answer: SliceAnswer)
      requires Good() && m.Chunks().Ok? && m.totalLen == |m.root.preimage| && index < m.Count()
      requires m.id in pushes && Receiving(m, pushes[m.id].state.Held())
      requires Holds(spool[m.id].part, m, index)
      modifies this`registry, this`pushes, this`spool
      ensures Good() && answer.Ack?
      ensures Status(m, old(pushes[m.id].state.Held()) + {index as nat})
      ensures answer.remaining == |Missing(old(pushes[m.id].state.Held()) + {index as nat}, m.Count())|
    {
      var remaining := MarkAndSave(m, index);
      if remaining == 0 {
        var ok := Finalize(m.id, m);
      }
      answer := Ack(remaining);
    }

    method MarkAndSave(m: Manifest, index: u32) returns (remaining: u32)
      requires Good() && m.Chunks().Ok? && index < m.Count()
      requires m.id in pushes && Receiving(m, pushes[m.id].state.Held())
      requires Holds(spool[m.id].part, m, index)
      modifies this`pushes, this`spool
      ensures Good()
      ensures Receiving(m, old(pushes[m.id].state.Held()) + {index as nat})
      ensures remaining == |Missing(old(pushes[m.id].state.Held()) + {index as nat}, m.Count())|
      ensures remaining == 0 <==> old(pushes[m.id].state.Held()) + {index as nat} == Below(m.Count())
    {
      hide GoodMaps, SpoolHolds, Sidecar.Held, Spooled, Fits, Missing;
      PartHasLength(m);
      ghost var held, claimed, dirty := pushes[m.id].state.Held(), Spooled(m), pushes[m.id].dirtyMarks;
      SpoolHoldsMore(spool[m.id].part, m, pushes[m.id].state.Held(), index);
      var reply := MarkHeld(m, index);
      remaining := reply.remaining;
      OneMoreUnsaved(claimed, held, index, dirty);
      EntryFitsNow(m);
      if reply.save.Some? {
        spool := spool[m.id := spool[m.id].(sidecar := reply.save)];
        AllSaved(m);
      }
    }

    lemma PartHasLength(m: Manifest)
      requires m.Chunks().Ok? && m.id in pushes && Receiving(m, pushes[m.id].state.Held())
      ensures |spool[m.id].part| == m.totalLen
    {
    }

    lemma AllSaved(m: Manifest)
      requires m.Chunks().Ok? && m.id in pushes && m.id in spool && Fits(pushes[m.id].state, m)
      requires spool[m.id].sidecar == Some(pushes[m.id].state) && |spool[m.id].part| == m.totalLen
      ensures Unsaved(m, 0)
    {
    }

    lemma EntryFitsNow(m: Manifest)
      requires Good() && m.Chunks().Ok? && m.id in pushes && SamePush(pushes[m.id], m)
      ensures Fits(pushes[m.id].state, m) && pushes[m.id].state.Held() <= Below(m.Count())
    {
      EntryFits(pushes[m.id], m);
    }

    /** The marking section, for an entry that belongs to `m`. */
    method MarkHeld(m: Manifest, index: u32) returns (reply: MarkReply)
      requires Good() && m.Chunks().Ok? && index < m.Count()
      requires m.id in pushes && SamePush(pushes[m.id], m)
      modifies this`pushes
      ensures Good() && reply.Marked?
      ensures m.id in pushes && SamePush(pushes[m.id], m)
      ensures pushes[m.id].state.Held() == old(pushes[m.id].state.Held()) + {index as nat}
      ensures reply.remaining == |Missing(old(pushes[m.id].state.Held()) + {index as nat}, m.Count())|
      ensures reply.remaining == 0 <==> old(pushes[m.id].state.Held()) + {index as nat} == Below(m.Count())
      ensures SavedOrCounted(old(pushes[m.id]), pushes[m.id], index, reply.save)
    {
      MarkEffect(Maps(), cfg, m, index);
      reply := MarkSection(m.id, index, m.Count());
    }
  }

  // ----- facts about one push -----

  /** The wanted list of a push that holds `held`. */
  ghost predicate WantedIs(ranges: seq<Span>, m: Manifest, held: set<nat>)
    requires m.Chunks().Ok?
  {
    && held <= Below(m.Count())
    && RunsOf(ranges, Missing(held, m.Count()))
    && EndsBy(ranges, m.Count())
  }

  lemma EntryFits(e: PushEntry, m: Manifest)
    requires m.Chunks().Ok? && GoodEntry(m.id, e) && SamePush(e, m)
    ensures Fits(e.state, m) && e.chunks == m.Geometry()
    ensures e.state.Held() <= Below(m.Count())
  {
    HeldInRange(e.state);
    FitsCount(e.state, m);
  }

  /** Nothing is wanted exactly when everything is held. */
  lemma EmptyRuns(ranges: seq<Span>, held: set<nat>, m: Manifest)
    requires m.Chunks().Ok? && held <= Below(m.Count())
    requires ranges == [] || RunsOf(ranges, Missing(held, m.Count()))
    ensures held == Below(m.Count()) && ranges == [] ==> RunsOf(ranges, Missing(held, m.Count()))
    ensures RunsOf(ranges, Missing(held, m.Count())) ==> (ranges == [] <==> held == Below(m.Count()))
  {
    if ranges != [] {
      assert Covers(ranges, ranges[0].start);
    } else if RunsOf(ranges, Missing(held, m.Count())) {
      assert Missing(held, m.Count()) == {} by {
        forall i: nat ensures i !in Missing(held, m.Count()) {
          assert !Covers(ranges, i);
        }
      }
    }
  }

  /** Another id's offer neither evicts nor changes a push that is not idle. */
  lemma OfferLeaves(s: Maps, cfg: PushConfig, other: Manifest, now: nat, id: string)
    requires other.id != id && (id in s.pushes ==> !Idle(s.pushes[id], cfg, now))
    ensures var after := OfferFirst(s, cfg, other, now).0;
            && after.registry == s.registry
            && (id in after.pushes <==> id in s.pushes)
            && (id in s.pushes ==> after.pushes[id] == s.pushes[id])
            && (id !in s.pushes.Keys - Kept(s.pushes, cfg, now).Keys)
  {
  }

  /** The first section's reply, by what survives the eviction. */
  lemma OfferSays(s: Maps, cfg: PushConfig, m: Manifest, now: nat)
    ensures var kept, (after, reply) := Kept(s.pushes, cfg, now), OfferFirst(s, cfg, m, now);
            && after.registry == s.registry
            && (m.id in kept ==> m.id in s.pushes)
            && (reply.Conflicting? || reply.Busy? <==>
                  if m.id in kept then !SamePush(kept[m.id], m) else |kept| >= cfg.maxConcurrent)
            && (reply.Known? ==>
                  && m.id in kept && m.id in after.pushes
                  && after.pushes[m.id].state == s.pushes[m.id].state
                  && after.pushes[m.id].dirtyMarks == s.pushes[m.id].dirtyMarks
                  && SamePush(after.pushes[m.id], m) && SamePush(s.pushes[m.id], m))
            && (reply.New? ==> m.id !in kept && after.pushes == kept && |kept| < cfg.maxConcurrent)
  {
  }

  lemma NothingWanted(m: Manifest)
    requires m.Chunks().Ok?
    ensures WantedIs([], m, Below(m.Count()))
  {
    EmptyRuns([], Below(m.Count()), m);
  }

  /** Marking a chunk leaves exactly the others missing, and the typed difference
      is that number: it does not wrap when count and entry belong together. */
  lemma MarkCounts(e: PushEntry, m: Manifest, index: u32)
    requires m.Chunks().Ok? && GoodEntry(m.id, e) && SamePush(e, m) && index < m.Count()
    ensures e.state.Marked(index).Held() == e.state.Held() + {index as nat}
    ensures LeftAfter(e, index, m.Count()) == |Missing(e.state.Held() + {index as nat}, m.Count())|
    ensures |Missing(e.state.Held() + {index as nat}, m.Count())| == 0 <==>
            e.state.Held() + {index as nat} == Below(m.Count())
  {
    EntryFits(e, m);
    MarkedHeld(e.state, m, index);
    var marked := e.state.Marked(index);
    MatchingCountsExactly(marked, m);
    HeldInRange(marked);
    FitsCount(marked, m);
    MissingCard(marked.Held(), m.Count());
    FitsU32(m.Count() - marked.Received());
  }

  /** After a mark: the state is to be saved and nothing is unsaved, or a new mark is
      counted. */
  ghost predicate SavedOrCounted(before: PushEntry, after: PushEntry, index: u32, save: Option<Sidecar>) {
    match save
    case Some(s) => s == after.state && after.dirtyMarks == 0
    case None => after.dirtyMarks == before.dirtyMarks + if index in before.state.Held() then 0 else 1
  }

  lemma MarkDirties(e: PushEntry, m: Manifest, index: u32)
    requires m.Chunks().Ok? && GoodEntry(m.id, e) && SamePush(e, m) && index < m.Count()
    ensures e.state.Marked(index) != e.state <==> index !in e.state.Held()
  {
    EntryFits(e, m);
    FitsCount(e.state, m);
    HeldMembership(e.state, index);
    MarkedHeld(e.state, m, index);
  }

  /** The marking section on the values, for an entry that belongs to `m`. */
  lemma MarkEffect(s: Maps, cfg: PushConfig, m: Manifest, index: u32)
    requires GoodMaps(s, cfg) && m.Chunks().Ok? && index < m.Count()
    requires m.id in s.pushes && SamePush(s.pushes[m.id], m)
    ensures var (after, reply) := SliceMark(s, m.id, index, m.Count());
            && GoodMaps(after, cfg)
            && after.registry == s.registry
            && m.id in after.pushes
            && SamePush(after.pushes[m.id], m)
            && after.pushes[m.id].state.Held() == s.pushes[m.id].state.Held() + {index as nat}
            && reply.Marked?
            && SavedOrCounted(s.pushes[m.id], after.pushes[m.id], index, reply.save)
            && reply.remaining == |Missing(s.pushes[m.id].state.Held() + {index as nat}, m.Count())|
            && (reply.remaining == 0 <==> s.pushes[m.id].state.Held() + {index as nat} == Below(m.Count()))
  {
    SliceMarkKeeps(s, cfg, m.id, index, m.Count());
    MarkCounts(s.pushes[m.id], m, index);
    MarkDirties(s.pushes[m.id], m, index);
  }

  lemma OneMoreUnsaved(claimed: set<nat>, held: set<nat>, index: u32, n: nat)
    requires claimed <= held && |held - claimed| == n
    ensures |held + {index as nat} - claimed| == n + if index in held then 0 else 1
  {
    if index in held {
      assert held + {index as nat} == held;
    } else {
      assert held + {index as nat} - claimed == (held - claimed) + {index as nat};
    }
  }

  lemma SpoolHoldsMore(part: Bytes, m: Manifest, held: set<nat>, index: u32)
    requires m.Chunks().Ok? && SpoolHolds(part, m, held) && Holds(part, m, index)
    ensures SpoolHolds(part, m, held + {index as nat})
  {
  }

  lemma WholePartIsBlob(part: Bytes, m: Manifest)
    requires m.Chunks().Ok? && m.totalLen == |m.root.preimage| && SpoolHolds(part, m, Below(m.Count()))
    ensures part == m.root.preimage
  {
    forall k: nat | k < |part|
      ensures part[k] == m.root.preimage[k]
    {
      var i := ChunkOf(m.Geometry(), k);
      assert Holds(part, m, i);
    }
  }

  /** A part of the right length whose `held` chunks are the blob's. */
  ghost predicate SpoolHolds(part: Bytes, m: Manifest, held: set<nat>)
    requires m.Chunks().Ok?
  {
    && |part| == m.totalLen
    && forall i: u32 :: i in held ==> Holds(part, m, i)
  }

  // ----- the client's side of the offer -----

  /** The client's check of a wanted list: exactly the ordered lists inside the
      blob pass. */
  method CheckWanted(wanted: seq<Span>, count: u32) returns (ok: bool)
    ensures ok <==> Ordered(wanted) && EndsBy(wanted, count)
  {
    var prevEnd: u32 := 0;
    for k := 0 to |wanted|
      invariant Ordered(wanted[..k]) && EndsBy(wanted[..k], count)
      invariant forall j :: 0 <= j < k ==> wanted[j].end <= prevEnd
      invariant prevEnd == if k == 0 then 0 else wanted[k - 1].end
    {
      var w := wanted[k];
      if w.start < prevEnd || w.start >= w.end || w.end > count {
        return false;
      }
      prevEnd := w.end;
    }
    assert wanted[..|wanted|] == wanted;
    ok := true;
  }

  /** The chunks asked for; the typed sum cannot wrap once the list has passed. */
  method SumWanted(wanted: seq<Span>, count: u32) returns (toSend: u32)
    requires Ordered(wanted) && EndsBy(wanted, count)
    ensures toSend == Total(wanted) <= count
  {
    TotalFits(wanted, 0, count);
    toSend := 0;
    for k := 0 to |wanted|
      invariant toSend + Total(wanted[k..]) == Total(wanted) <= count
    {
      assert wanted[k..][1..] == wanted[k + 1..];
      toSend := toSend + (wanted[k].end - wanted[k].start);
    }
  }

  lemma {:induction false} TotalFits(spans: seq<Span>, low: nat, count: nat)
    requires Ordered(spans) && EndsBy(spans, count) && low <= count
    requires spans != [] ==> low <= spans[0].start
    ensures Total(spans) <= count - low
  {
    if spans != [] {
      TotalFits(spans[1..], spans[0].end, count);
    }
  }

  // ----- writing a slice into a part -----

  /** Write the leaves in order; bytes outside the chunk stay. */
  method WriteAll(part: Bytes, leaves: seq<Leaf>, m: Manifest, index: u32) returns (out: Bytes)
    requires m.Chunks().Ok? && index < m.Count() && |part| == m.totalLen == |m.root.preimage|
    requires Pieces(leaves, m.root.preimage, RangeOf(m, index).start, RangeOf(m, index).end)
    ensures |out| == |part| && Holds(out, m, index)
    ensures forall j: u32 :: j < m.Count() && Holds(part, m, j) ==> Holds(out, m, j)
  {
    ghost var start, end, blob := RangeOf(m, index).start, RangeOf(m, index).end, m.root.preimage;
    ghost var at: nat := start;
    out := part;
    for n := 0 to |leaves|
      invariant |out| == |part| && start <= at <= end
      invariant Pieces(leaves[n..], blob, at, end)
      invariant forall k: nat :: k < |part| ==>
        out[k] == if start <= k < at then blob[k] else part[k]
    {
      assert leaves[n..][0] == leaves[n] && leaves[n..][1..] == leaves[n + 1..];
      out := Spliced(out, leaves[n], blob, at);
      at := at + |leaves[n].data|;
    }
    OthersKept(part, out, m, index);
  }

  /** One leaf written at its offset. */
  function Spliced(part: Bytes, leaf: Leaf, ghost blob: Bytes, ghost at: nat): (out: Bytes)
    requires leaf.offset == at && at + |leaf.data| <= |part| == |blob|
    requires leaf.data == blob[at..at + |leaf.data|]
    ensures |out| == |part|
    ensures forall k: nat :: k < |part| ==> out[k] == if at <= k < at + |leaf.data| then blob[k] else part[k]
  {
    part[..leaf.offset] + leaf.data + part[leaf.offset + |leaf.data|..]
  }

  /** Bytes outside one chunk being the same, every other chunk held stays held. */
  lemma OthersKept(part: Bytes, out: Bytes, m: Manifest, index: u32)
    requires m.Chunks().Ok? && index < m.Count() && |out| == |part|
    requires Holds(out, m, index)
    requires forall k: nat :: k < |part| && !(RangeOf(m, index).start <= k < RangeOf(m, index).end) ==> out[k] == part[k]
    ensures forall j: u32 :: j < m.Count() && Holds(part, m, j) ==> Holds(out, m, j)
  {
    forall j: u32 | j < m.Count() && Holds(part, m, j)
      ensures Holds(out, m, j)
    {
      if j != index {
        Apart(m, index, j);
      }
    }
  }

  // ----- the client's run -----

  datatype UploadError = PushDenied | MalformedMessage

  /** The slices of the chunks below `to` that are not held, in order. */
  ghost function SlicesTo(m: Manifest, held: set<nat>, to: u32): seq<PushedSlice>
    requires m.Chunks().Ok?
  {
    if to == 0 then []
    else SlicesTo(m, held, to - 1) + if to - 1 in held then [] else [PushedSlice(to - 1, ChunkSlice(m, to - 1))]
  }

  /** Each missing chunk is in the list once, with its own bytes, and nothing else
      is. */
  lemma {:induction false} SlicesToExactly(m: Manifest, held: set<nat>, to: u32)
    requires m.Chunks().Ok?
    ensures var s := SlicesTo(m, held, to);
            && (forall j, k :: 0 <= j < k < |s| ==> s[j].index < s[k].index)
            && (forall x :: x in s <==> x.index in Missing(held, to) && x.payload == ChunkSlice(m, x.index))
  {
    SlicesInOrder(m, held, to);
    forall x: PushedSlice
      ensures x in SlicesTo(m, held, to) <==> x.index in Missing(held, to) && x.payload == ChunkSlice(m, x.index)
    {
      SliceIsThere(m, held, to, x);
    }
  }

  lemma {:induction false} SliceIsThere(m: Manifest, held: set<nat>, to: u32, x: PushedSlice)
    requires m.Chunks().Ok?
    ensures x in SlicesTo(m, held, to) <==> x.index < to && x.index !in held && x.payload == ChunkSlice(m, x.index)
  {
    hide ChunkSlice;
    if to > 0 {
      SliceIsThere(m, held, to - 1, x);
    }
  }

  lemma {:induction false} SlicesInOrder(m: Manifest, held: set<nat>, to: u32)
    requires m.Chunks().Ok?
    ensures forall k :: 0 <= k < |SlicesTo(m, held, to)| ==> SlicesTo(m, held, to)[k].index < to
    ensures var s := SlicesTo(m, held, to); forall j, k :: 0 <= j < k < |s| ==> s[j].index < s[k].index
  {
    hide ChunkSlice;
    if to > 0 {
      SlicesInOrder(m, held, to - 1);
      assert |SlicesTo(m, held, to)| <= |SlicesTo(m, held, to - 1)| + 1;
    }
  }

  /** Offer, check the wanted list, then send every wanted chunk once, waiting for
      each acknowledgement. With one uploader of this id and its push never idle,
      whatever other ids do between the steps, an offer that is not turned down always
      ends with the blob served under its root. */
  method RunUpload(server: BlobServer, blob: Bytes, m: Manifest, now: nat) returns (r: Result<u64, UploadError>)
    requires server.Good() && m.Chunks().Ok? && server.SpoolConsistent(m)
    requires m.root == Hash(blob) && m.totalLen == |blob|
    modifies server
    ensures server.Good()
    ensures r.Err? <==> old(server.Blocked(m, now))
    ensures r.Err? ==> r.error == PushDenied && server.registry == old(server.registry)
    ensures r.Err? ==> server.Pushed(m.id) == old(server.Pushed(m.id))
    ensures r.Ok? ==> server.Serving(m)
    // What the server already has is not sent; each of the others is, exactly once.
    ensures r.Ok? ==> server.Pushed(m.id) == old(server.Pushed(m.id)) + SlicesTo(m, old(server.HeldFor(m, now)), m.Count())
    ensures r.Ok? ==> r.value == BytesIn(m.Geometry(), Missing(old(server.HeldFor(m, now)), m.Count()), m.Count())
  {
    hide BlobServer.Good, BlobServer.HeldFor, BlobServer.Blocked, BlobServer.SpoolConsistent, BlobServer.Receiving, SlicesTo,
      Missing;
    ghost var held, log0 := server.HeldFor(m, now), server.Pushed(m.id);
    var answer := server.PushOffer(m, now);
    if answer.OfferRefused? {
      return Err(PushDenied);
    }
    var passed := CheckWanted(answer.ranges, m.Count());
    if !passed {
      return Err(MalformedMessage);
    }
    server.OthersRun(m, held);
    var toSend := SumWanted(answer.ranges, m.Count());
    var sent, bytesSent := SendAll(server, blob, m, answer.ranges, now, m.Count() - toSend, held, log0);
    HeldAndMissing(held, m.Count());
    server.OthersRun(m, Below(m.Count()));
    r := Ok(bytesSent);
  }

  /** The upload has got as far as index `at`: every chunk below it is with the
      server, and the slices of those not held before were pushed. */
  ghost predicate SentTo(server: BlobServer, m: Manifest, held: set<nat>, log0: seq<PushedSlice>, at: u32, bytes: nat)
    requires m.Chunks().Ok?
    reads server
  {
    && server.Good()
    && server.Status(m, held + Missing(held, at))
    && server.Pushed(m.id) == log0 + SlicesTo(m, held, at)
    && bytes == BytesIn(m.Geometry(), Missing(held, at), m.Count())
  }

  lemma NothingSent(server: BlobServer, m: Manifest, held: set<nat>)
    requires m.Chunks().Ok? && server.Good() && server.Status(m, held)
    ensures SentTo(server, m, held, server.Pushed(m.id), 0, 0)
  {
    BytesInNone(m.Geometry(), m.Count());
    assert Missing(held, 0) == {} && held + {} == held;
    assert server.Pushed(m.id) + [] == server.Pushed(m.id);
  }

  lemma {:induction false} HeldAndMissing(held: set<nat>, n: u32)
    requires held <= Below(n)
    ensures held + Missing(held, n) == Below(n)
  {
  }

  /** Passing over held chunks sends nothing. */
  lemma {:induction false} HeldSkipped(m: Manifest, held: set<nat>, from: u32, to: u32)
    requires m.Chunks().Ok? && from <= to && forall i: nat :: from <= i < to ==> i in held
    ensures SlicesTo(m, held, from) == SlicesTo(m, held, to)
  {
    hide ChunkSlice, SlicesTo;
    if from < to {
      HeldSkipped(m, held, from, to - 1);
      SlicesStep(m, held, to - 1);
    }
  }

  lemma NoneMissing(held: set<nat>, from: u32, to: u32)
    requires from <= to && forall i: nat :: from <= i < to ==> i in held
    ensures Missing(held, from) == Missing(held, to)
  {
  }

  lemma SlicesStep(m: Manifest, held: set<nat>, i: u32)
    requires m.Chunks().Ok? && i < U32_MAX
    ensures SlicesTo(m, held, i + 1) ==
            SlicesTo(m, held, i) + if i in held then [] else [PushedSlice(i, ChunkSlice(m, i))]
  {
  }

  lemma MissingStep(held: set<nat>, i: u32)
    requires i < U32_MAX && i !in held
    ensures Missing(held, i + 1) == Missing(held, i) + {i as nat}
  {
  }

  lemma BytesStep(m: Manifest, held: set<nat>, i: u32)
    requires m.Chunks().Ok? && i < m.Count() && i !in held
    ensures BytesIn(m.Geometry(), Missing(held, i + 1), m.Count()) ==
            BytesIn(m.Geometry(), Missing(held, i), m.Count()) + m.Geometry().LenOf(i) <= m.totalLen
  {
    hide BytesIn;
    MissingStep(held, i);
    BytesInAdd(m.Geometry(), Missing(held, i), i, m.Count());
    BytesInBound(m.Geometry(), Missing(held, i + 1), m.Count());
  }

  /** Where the first `k` spans end. */
  ghost function Reached(ranges: seq<Span>, k: nat): u32
    requires k <= |ranges|
  {
    if k == 0 then 0 else ranges[k - 1].end
  }

  /** The chunks of the first `k` spans. */
  ghost function Counted(ranges: seq<Span>, k: nat): int
    requires k <= |ranges|
  {
    if k == 0 then 0 else Counted(ranges, k - 1) + (ranges[k - 1].end - ranges[k - 1].start)
  }

  lemma {:induction false} CountedTotal(ranges: seq<Span>, k: nat)
    requires Ordered(ranges) && k <= |ranges|
    ensures Counted(ranges, k) + Total(ranges[k..]) == Total(ranges)
  {
    if k == 0 {
      assert ranges[0..] == ranges;
    } else {
      CountedTotal(ranges, k - 1);
      assert ranges[k - 1..][1..] == ranges[k..];
    }
  }

  lemma {:induction false} NothingCounted(ranges: seq<Span>, m: Manifest, held: set<nat>)
    requires m.Chunks().Ok? && WantedIs(ranges, m, held)
    ensures Counted(ranges, 0) == Reached(ranges, 0) == 0 && Counted(ranges, |ranges|) == Total(ranges)
  {
    CountedTotal(ranges, |ranges|);
  }

  lemma CountedNext(ranges: seq<Span>, m: Manifest, held: set<nat>, k: nat)
    requires m.Chunks().Ok? && WantedIs(ranges, m, held) && k < |ranges|
    ensures Counted(ranges, k + 1) == Counted(ranges, k) + (ranges[k].end - ranges[k].start) <= Total(ranges)
    ensures Reached(ranges, k + 1) == ranges[k].end
  {
    CountedTotal(ranges, k + 1);
  }

  /** Between two spans, and after the last, everything is held. */
  lemma GapIsHeld(ranges: seq<Span>, m: Manifest, held: set<nat>, k: nat, next: u32)
    requires m.Chunks().Ok? && WantedIs(ranges, m, held) && k <= |ranges|
    requires next == if k < |ranges| then ranges[k].start else m.Count()
    ensures Reached(ranges, k) <= next && forall i: nat :: Reached(ranges, k) <= i < next ==> i in held
  {
    forall i: nat | Reached(ranges, k) <= i < next
      ensures i in held
    {
      if Covers(ranges, i) {
        CoveredOutside(ranges, k, i);
      }
    }
  }

  lemma CoveredOutside(ranges: seq<Span>, k: nat, i: nat)
    requires Ordered(ranges) && k <= |ranges| && Covers(ranges, i)
    ensures i < Reached(ranges, k) || (k < |ranges| && ranges[k].start <= i)
  {
    var j :| 0 <= j < |ranges| && ranges[j].start <= i < ranges[j].end;
    if j < k {
      assert ranges[j].end <= ranges[k - 1].end;
    } else if j > k {
      assert ranges[k].end <= ranges[j].start;
    }
  }

  lemma SkipsGap(server: BlobServer, ranges: seq<Span>, m: Manifest, held: set<nat>,
                 log0: seq<PushedSlice>, k: nat, next: u32, bytes: nat)
    requires m.Chunks().Ok? && WantedIs(ranges, m, held) && k <= |ranges|
    requires next == if k < |ranges| then ranges[k].start else m.Count()
    requires SentTo(server, m, held, log0, Reached(ranges, k), bytes)
    ensures SentTo(server, m, held, log0, next, bytes)
  {
    hide WantedIs, SlicesTo, Missing, BytesIn, BlobServer.Good, BlobServer.Status;
    GapIsHeld(ranges, m, held, k, next);
    HeldSkipped(m, held, Reached(ranges, k), next);
    NoneMissing(held, Reached(ranges, k), next);
  }

  /** Every wanted span, one after the other. */
  method SendAll(server: BlobServer, blob: Bytes, m: Manifest, ranges: seq<Span>, now: nat, received: u32,
                 ghost held: set<nat>, ghost log0: seq<PushedSlice>)
    returns (sent: u32, bytesSent: u64)
    requires server.Good() && m.Chunks().Ok? && m.root == Hash(blob) && m.totalLen == |blob|
    requires server.Status(m, held) && WantedIs(ranges, m, held) && server.Pushed(m.id) == log0
    requires received + Total(ranges) <= m.Count()
    modifies server
    ensures SentTo(server, m, held, log0, m.Count(), bytesSent)
    ensures sent == received + Total(ranges)
  {
    sent, bytesSent := received, 0;
    hide SentTo, WantedIs, Reached, Counted, Total, BlobServer.Good, BlobServer.Status;
    NothingSent(server, m, held);
    NothingCounted(ranges, m, held);
    for k := 0 to |ranges|
      invariant SentTo(server, m, held, log0, Reached(ranges, k), bytesSent)
      invariant sent == received + Counted(ranges, k)
    {
      SkipsGap(server, ranges, m, held, log0, k, ranges[k].start, bytesSent);
      SpanWanted(ranges, m, held, k);
      CountedNext(ranges, m, held, k);
      sent, bytesSent := PushSpan(server, blob, m, ranges[k], now, sent, bytesSent, held, log0);
    }
    SkipsGap(server, ranges, m, held, log0, |ranges|, m.Count(), bytesSent);
  }

  lemma SpanWanted(ranges: seq<Span>, m: Manifest, held: set<nat>, k: nat)
    requires m.Chunks().Ok? && WantedIs(ranges, m, held) && k < |ranges|
    ensures forall i: nat :: ranges[k].start <= i < ranges[k].end ==> i !in held
    ensures ranges[k].start < ranges[k].end <= m.Count()
  {
    forall i: nat | ranges[k].start <= i < ranges[k].end
      ensures i !in held
    {
      assert Covers(ranges, i);
    }
  }

  /** One wanted span, chunk by chunk. */
  method PushSpan(server: BlobServer, blob: Bytes, m: Manifest, span: Span, now: nat, sent: u32, bytesSent: u64,
                  ghost held: set<nat>, ghost log0: seq<PushedSlice>)
    returns (sent': u32, bytes: u64)
    requires m.Chunks().Ok? && m.root == Hash(blob) && m.totalLen == |blob|
    requires SentTo(server, m, held, log0, span.start, bytesSent)
    requires span.start <= span.end <= m.Count() && forall i: nat :: span.start <= i < span.end ==> i !in held
    requires sent + (span.end - span.start) <= m.Count()
    modifies server
    ensures SentTo(server, m, held, log0, span.end, bytes)
    ensures sent' == sent + (span.end - span.start)
  {
    hide SentTo;
    sent', bytes := sent, bytesSent;
    for index := span.start to span.end
      invariant SentTo(server, m, held, log0, index, bytes)
      invariant sent' == sent + (index - span.start)
    {
      bytes := PushOne(server, blob, m, index, now, bytes, held, log0);
      sent' := sent' + 1;
    }
  }

  /** Send one chunk and count its bytes. */
  method PushOne(server: BlobServer, blob: Bytes, m: Manifest, index: u32, now: nat, bytesSent: u64,
                 ghost held: set<nat>, ghost log0: seq<PushedSlice>)
    returns (bytes: u64)
    requires m.Chunks().Ok? && m.root == Hash(blob) && m.totalLen == |blob|
    requires index < m.Count() && index !in held && SentTo(server, m, held, log0, index, bytesSent)
    modifies server
    ensures SentTo(server, m, held, log0, index + 1, bytes)
  {
    hide ChunkSlice, SlicesTo, Missing, BytesIn, BlobServer.Good, BlobServer.Status;
    MissingStep(held, index);
    BytesStep(m, held, index);
    SlicesStep(m, held, index);
    NotYet(held, index, m.Count());
    SendSlice(server, blob, m, index, now, held + Missing(held, index));
    bytes := bytesSent + m.Geometry().LenOf(index);
  }

  /** Encode one chunk, send it when the others let it through, and wait for the
      acknowledgement. */
  method SendSlice(server: BlobServer, blob: Bytes, m: Manifest, index: u32, now: nat, ghost held: set<nat>)
    requires server.Good() && m.Chunks().Ok? && m.root == Hash(blob) && m.totalLen == |blob|
    requires server.Status(m, held) && index < m.Count() && index !in held
    modifies server
    ensures server.Good() && server.Status(m, held + {index as nat})
    ensures server.Pushed(m.id) == old(server.Pushed(m.id)) + [PushedSlice(index, ChunkSlice(m, index))]
  {
    assert index in Below(m.Count());
    var slice := EncodeSlice(blob, ChunkRange(m.Geometry().ByteRange(index)));
    server.OthersRun(m, held);
    var answer := server.PushSlice(m, index, slice, now);
    assert answer.Ack?;
  }

  lemma NotYet(held: set<nat>, i: u32, count: u32)
    requires i < count && i !in held
    ensures i !in held + Missing(held, i)
    ensures held + (Missing(held, i) + {i as nat}) == held + Missing(held, i) + {i as nat}
  {
  }
}
