/** Garbage collection under concurrency: src/gc.rs. One step is one access to the
    tag directory, the temp-tag registry or the store; any number of sweeps run
    while chunks arrive, tags come and go and downloads take and drop guards. */
module GcRuns {
  import opened Basics
  import opened Contents

  datatype TagRecord = TagRecord(root: Hash, chunks: seq<Hash>)

  /** Where a running sweep is. */
  datatype Phase =
    | Listing
    | Reading(names: seq<string>, live: set<Hash>)
    | Rooting(live: set<Hash>)
    | Removing(live: set<Hash>, todo: seq<Hash>)

  /** The store, the persistent tags, the guards alive, the sweeps running. */
  datatype World = World(
    store: Chunks,
    tags: map<string, TagRecord>,
    temps: map<nat, set<Hash>>,
    sweeps: map<nat, Phase>)

  datatype Action =
    | Put(bytes: Bytes)
    | SetTag(name: string, record: TagRecord)
    | RemoveTag(name: string)
    | Protect(t: nat, hashes: set<Hash>)
    | DropTemp(t: nat)
    | StartSweep(s: nat)
    | ListTags(s: nat, names: seq<string>)
    | ReadTag(s: nat)
    | MarkTemps(s: nat)
    | AddRoot(s: nat, hashes: set<Hash>)
    | ListStore(s: nat, found: seq<Hash>)
    | RemoveNext(s: nat)
    | FinishSweep(s: nat)

  ghost function SetOf<T(!new)>(xs: seq<T>): (s: set<T>)
    ensures forall x :: x in s <==> x in xs
  {
    set x | x in xs
  }

  ghost function Union(temps: map<nat, set<Hash>>): set<Hash> {
    set t, h | t in temps && h in temps[t] :: h
  }

  /** One step. An action that is not possible now changes nothing: guards have
      fresh names, a listing of the tags or of the store misses nothing there is. */
  ghost function Apply(w: World, a: Action): World {
    match a
    case Put(bytes) => w.(store := w.store[Hash(bytes) := bytes])
    case SetTag(name, record) => w.(tags := w.tags[name := record])
    case RemoveTag(name) => w.(tags := w.tags - {name})
    case Protect(t, hashes) => if t in w.temps then w else w.(temps := w.temps[t := hashes])
    case DropTemp(t) => w.(temps := w.temps - {t})
    case StartSweep(s) => if s in w.sweeps then w else w.(sweeps := w.sweeps[s := Listing])
    case _ => if a.s in w.sweeps then SweepStep(w, a, w.sweeps[a.s]) else w
  }

  ghost predicate OfSweep(a: Action) {
    a.ListTags? || a.ReadTag? || a.MarkTemps? || a.AddRoot? || a.ListStore? || a.RemoveNext? || a.FinishSweep?
  }

  ghost function SweepStep(w: World, a: Action, p: Phase): World
    requires OfSweep(a)
  {
    match a
    case ListTags(s, names) =>
      if p.Listing? && w.tags.Keys <= SetOf(names) then w.(sweeps := w.sweeps[s := Reading(names, {})]) else w
    case ReadTag(s) =>
      if p.Reading? && p.names != [] then
        var more := if p.names[0] in w.tags then SetOf(w.tags[p.names[0]].chunks) else {};
        w.(sweeps := w.sweeps[s := Reading(p.names[1..], p.live + more)])
      else w
    case MarkTemps(s) =>
      if p.Reading? && p.names == [] then w.(sweeps := w.sweeps[s := Rooting(p.live + Union(w.temps))]) else w
    case AddRoot(s, hashes) =>
      if p.Rooting? then w.(sweeps := w.sweeps[s := Rooting(p.live + hashes)]) else w
    case ListStore(s, found) =>
      if p.Rooting? && w.store.Keys <= SetOf(found) then w.(sweeps := w.sweeps[s := Removing(p.live, found)]) else w
    case RemoveNext(s) =>
      if p.Removing? && p.todo != [] then
        var left := w.(sweeps := w.sweeps[s := Removing(p.live, p.todo[1..])]);
        if p.todo[0] in p.live then left else left.(store := w.store - {p.todo[0]})
      else w
    case FinishSweep(s) =>
      if p.Removing? && p.todo == [] then w.(sweeps := w.sweeps - {s}) else w
  }

  ghost function Run(w: World, actions: seq<Action>): World
    decreases |actions|
  {
    if actions == [] then w else Run(Apply(w, actions[0]), actions[1..])
  }

  lemma {:induction false} RunAppend(w: World, before: seq<Action>, after: seq<Action>)
    ensures Run(w, before + after) == Run(Run(w, before), after)
    decreases |before|
  {
    if before == [] {
      assert before + after == after;
    } else {
      assert (before + after)[1..] == before[1..] + after;
      RunAppend(Apply(w, before[0]), before[1..], after);
    }
  }

  /** Steps never put wrong content under an address. */
  lemma {:induction false} RunKeepsGenuine(w: World, actions: seq<Action>)
    requires Genuine(w.store)
    ensures Genuine(Run(w, actions).store)
    decreases |actions|
  {
    if actions != [] {
      RunKeepsGenuine(Apply(w, actions[0]), actions[1..]);
    }
  }

  // ----- what a persistent tag protects -----

  ghost predicate Present(hashes: seq<Hash>, store: Chunks) {
    forall h :: h in hashes ==> h in store
  }

  /** A sweep in phase `p` will not remove what tag `name` keeps: it has yet to read
      the tag, has it in its live set, or will not visit those chunks. */
  ghost predicate TagSeen(p: Phase, name: string, hashes: seq<Hash>) {
    match p
    case Listing => true
    case Reading(names, live) => name in names || SetOf(hashes) <= live
    case Rooting(live) => SetOf(hashes) <= live
    case Removing(live, todo) => forall h :: h in hashes && h in todo ==> h in live
  }

  ghost predicate TagCovered(w: World, name: string)
    requires name in w.tags
  {
    forall s :: s in w.sweeps ==> TagSeen(w.sweeps[s], name, w.tags[name].chunks)
  }

  predicate LeavesTag(a: Action, name: string) {
    !((a.SetTag? || a.RemoveTag?) && a.name == name)
  }

  ghost predicate AllLeaveTag(actions: seq<Action>, name: string) {
    forall k :: 0 <= k < |actions| ==> LeavesTag(actions[k], name)
  }

  lemma TagStep(w: World, a: Action, name: string)
    requires name in w.tags && Present(w.tags[name].chunks, w.store) && TagCovered(w, name) && LeavesTag(a, name)
    ensures var after := Apply(w, a);
            && name in after.tags && after.tags[name] == w.tags[name]
            && Present(w.tags[name].chunks, after.store) && TagCovered(after, name)
  {
    if OfSweep(a) && a.s in w.sweeps {
      assert TagSeen(w.sweeps[a.s], name, w.tags[name].chunks);
    }
  }

  /** Over every interleaving, a tag that no running sweep has missed keeps its
      snapshot whole for as long as it stands. */
  lemma {:induction false} TaggedStays(w: World, actions: seq<Action>, name: string)
    requires name in w.tags && Present(w.tags[name].chunks, w.store) && TagCovered(w, name)
    requires AllLeaveTag(actions, name)
    ensures name in Run(w, actions).tags && Run(w, actions).tags[name] == w.tags[name]
    ensures Present(w.tags[name].chunks, Run(w, actions).store)
    decreases |actions|
  {
    if actions != [] {
      assert LeavesTag(actions[0], name);
      TagStep(w, actions[0], name);
      assert AllLeaveTag(actions[1..], name) by {
        forall k | 0 <= k < |actions| - 1
          ensures LeavesTag(actions[1..][k], name)
        {
          assert actions[1..][k] == actions[k + 1];
        }
      }
      TaggedStays(Apply(w, actions[0]), actions[1..], name);
    }
  }

  // ----- what a guard protects -----

  /** A sweep that has not come to the temp tags yet, or has `h` in its live set. */
  ghost predicate GuardSeen(p: Phase, h: Hash) {
    match p
    case Listing => true
    case Reading(_, _) => true
    case Rooting(live) => h in live
    case Removing(live, todo) => h in todo ==> h in live
  }

  ghost predicate GuardCovered(w: World, h: Hash) {
    forall s :: s in w.sweeps ==> GuardSeen(w.sweeps[s], h)
  }

  lemma GuardStep(w: World, a: Action, t: nat, h: Hash)
    requires t in w.temps && h in w.temps[t] && GuardCovered(w, h) && a != DropTemp(t)
    ensures var after := Apply(w, a);
            && t in after.temps && after.temps[t] == w.temps[t]
            && GuardCovered(after, h)
            && (h in w.store ==> h in after.store)
  {
    if OfSweep(a) && a.s in w.sweeps {
      assert GuardSeen(w.sweeps[a.s], h);
    }
  }

  /** A chunk under a guard taken before every running sweep's mark, and still held,
      is never removed, whenever it arrives. */
  lemma {:induction false} GuardedStays(w: World, before: seq<Action>, after: seq<Action>, t: nat, h: Hash)
    requires t in w.temps && h in w.temps[t] && GuardCovered(w, h)
    requires DropTemp(t) !in before && DropTemp(t) !in after
    ensures h in Run(w, before).store ==> h in Run(w, before + after).store
    decreases |before| + |after|
  {
    if before != [] {
      GuardStep(w, before[0], t, h);
      GuardedStays(Apply(w, before[0]), before[1..], after, t, h);
      assert (before + after)[1..] == before[1..] + after;
    } else if after != [] {
      assert before + after == after;
      GuardStep(w, after[0], t, h);
      GuardedStays(Apply(w, after[0]), [], after[1..], t, h);
      assert [] + after[1..] == after[1..];
    }
  }

  /** A guard taken now covers its chunks against every sweep that has not reached
      the temp tags: all of them, when none is past that point. */
  lemma FreshGuardCovers(w: World, t: nat, hashes: set<Hash>, h: Hash)
    requires t !in w.temps && h in hashes
    requires forall s :: s in w.sweeps ==> w.sweeps[s].Listing? || w.sweeps[s].Reading?
    ensures var after := Apply(w, Protect(t, hashes));
            t in after.temps && h in after.temps[t] && GuardCovered(after, h)
  {
  }

  // ----- exactly which tags are safe -----

  /** The steps that make sweep `s` remove `h`, when nothing it has read or will be
      made to read names `h`. They never touch the tag `name`. */
  lemma Lose(w: World, s: nat, name: string, h: Hash) returns (actions: seq<Action>)
    requires s in w.sweeps && w.sweeps[s].Removing? && h in w.sweeps[s].todo && h !in w.sweeps[s].live
    ensures AllLeaveTag(actions, name) && h !in Run(w, actions).store
    ensures forall t :: DropTemp(t) !in actions
    decreases |w.sweeps[s].todo|
  {
    var a := RemoveNext(s);
    var w1 := Apply(w, a);
    if w.sweeps[s].todo[0] == h {
      actions := [a];
      assert actions[1..] == [];
      assert Run(w1, []) == w1;
    } else {
      var rest := Lose(w1, s, name, h);
      actions := [a] + rest;
      assert actions[1..] == rest;
      assert AllLeaveTag(actions, name) by { LeaveMore(a, rest, name); }
    }
  }

  lemma LeaveMore(a: Action, rest: seq<Action>, name: string)
    requires LeavesTag(a, name) && AllLeaveTag(rest, name)
    ensures AllLeaveTag([a] + rest, name)
  {
  }

  /** The addresses of a store in some order. */
  lemma Listed(keys: set<Hash>) returns (found: seq<Hash>)
    ensures SetOf(found) == keys
    decreases |keys|
  {
    if keys == {} {
      found := [];
    } else {
      var h :| h in keys;
      var rest := Listed(keys - {h});
      found := [h] + rest;
    }
  }

  /** From the rooting phase: list the store, then remove. */
  lemma LoseFromRooting(w: World, s: nat, name: string, h: Hash) returns (actions: seq<Action>)
    requires s in w.sweeps && w.sweeps[s].Rooting? && h !in w.sweeps[s].live && h in w.store
    ensures AllLeaveTag(actions, name) && h !in Run(w, actions).store
    ensures forall t :: DropTemp(t) !in actions
  {
    var found := Listed(w.store.Keys);
    var a := ListStore(s, found);
    assert h in SetOf(found);
    var rest := Lose(Apply(w, a), s, name, h);
    actions := [a] + rest;
    assert actions[1..] == rest;
    LeaveMore(a, rest, name);
  }

  /** From the reading phase with no tag left to read: every guard is dropped first. */
  lemma LoseFromGuards(w: World, s: nat, name: string, h: Hash) returns (actions: seq<Action>)
    requires s in w.sweeps && w.sweeps[s].Reading? && w.sweeps[s].names == []
    requires h !in w.sweeps[s].live && h in w.store
    ensures AllLeaveTag(actions, name) && h !in Run(w, actions).store
    decreases |w.temps|
  {
    var rest;
    var a;
    if w.temps == map[] {
      a := MarkTemps(s);
      assert Union(w.temps) == {};
      rest := LoseFromRooting(Apply(w, a), s, name, h);
    } else {
      var t :| t in w.temps;
      a := DropTemp(t);
      assert |(w.temps - {t}).Keys| < |w.temps.Keys| by {
        assert (w.temps - {t}).Keys == w.temps.Keys - {t};
      }
      rest := LoseFromGuards(Apply(w, a), s, name, h);
    }
    actions := [a] + rest;
    assert actions[1..] == rest;
    LeaveMore(a, rest, name);
  }

  /** From the reading phase: every tag still to be read is deleted first. */
  lemma LoseFromReading(w: World, s: nat, name: string, h: Hash) returns (actions: seq<Action>)
    requires s in w.sweeps && w.sweeps[s].Reading? && name !in w.sweeps[s].names
    requires h !in w.sweeps[s].live && h in w.store
    ensures AllLeaveTag(actions, name) && h !in Run(w, actions).store
    decreases |w.sweeps[s].names|
  {
    var names := w.sweeps[s].names;
    if names == [] {
      actions := LoseFromGuards(w, s, name, h);
    } else {
      var a, b := RemoveTag(names[0]), ReadTag(s);
      var w1 := Apply(w, a);
      var rest := LoseFromReading(Apply(w1, b), s, name, h);
      actions := [a] + ([b] + rest);
      assert ([b] + rest)[1..] == rest && actions[1..] == [b] + rest;
      assert Run(w1, [b] + rest) == Run(Apply(w1, b), rest);
      LeaveMore(b, rest, name);
      LeaveMore(a, [b] + rest, name);
    }
  }

  /** A standing tag is safe over every future exactly when no running sweep has
      missed it. A tag set while a sweep is past its tag listing is the case that
      fails. */
  lemma {:induction false} TagSafeExactly(w: World, name: string)
    requires name in w.tags && Present(w.tags[name].chunks, w.store)
    ensures TagCovered(w, name) <==>
            forall actions :: AllLeaveTag(actions, name) ==> Present(w.tags[name].chunks, Run(w, actions).store)
  {
    var hashes := w.tags[name].chunks;
    if TagCovered(w, name) {
      forall actions | AllLeaveTag(actions, name)
        ensures Present(hashes, Run(w, actions).store)
      {
        TaggedStays(w, actions, name);
      }
    } else {
      var s :| s in w.sweeps && !TagSeen(w.sweeps[s], name, hashes);
      var actions;
      match w.sweeps[s] {
        case Reading(_, live) =>
          var h :| h in hashes && h !in live;
          actions := LoseFromReading(w, s, name, h);
        case Rooting(live) =>
          var h :| h in hashes && h !in live;
          actions := LoseFromRooting(w, s, name, h);
        case Removing(live, todo) =>
          var h :| h in hashes && h in todo && h !in live;
          actions := Lose(w, s, name, h);
      }
      assert !Present(hashes, Run(w, actions).store);
    }
  }

  const EMPTY := World(map[], map[], map[], map[])

  /** Such a tag does come about: one set between a sweep's listing of the tags and
      its listing of the store, the chunk having been stored before. */
  lemma MissedTagArises(bytes: Bytes, name: string)
    ensures var record := TagRecord(Hash(bytes), [Hash(bytes)]);
            var w := Run(EMPTY, [Put(bytes), StartSweep(0), ListTags(0, []), SetTag(name, record)]);
            name in w.tags && Present(w.tags[name].chunks, w.store) && !TagCovered(w, name)
  {
    var h := Hash(bytes);
    var record := TagRecord(h, [h]);
    var a0, a1, a2, a3 := Put(bytes), StartSweep(0), ListTags(0, []), SetTag(name, record);
    assert [a0, a1, a2, a3][1..] == [a1, a2, a3] && [a1, a2, a3][1..] == [a2, a3] && [a2, a3][1..] == [a3] && [a3][1..] == [];
    var w1 := EMPTY.(store := map[h := bytes]);
    assert EMPTY.store[h := bytes] == map[h := bytes];
    var w2 := w1.(sweeps := map[0 := Listing]);
    var w3 := w1.(sweeps := map[0 := Reading([], {})]);
    var w4 := w3.(tags := map[name := record]);
    assert Apply(EMPTY, a0) == w1 && Apply(w1, a1) == w2 && Apply(w2, a2) == w3 && Apply(w3, a3) == w4;
    assert Run(EMPTY, [a0, a1, a2, a3]) == Run(w1, [a1, a2, a3]) == Run(w2, [a2, a3]) == Run(w3, [a3]) == Run(w4, []);
    assert !TagSeen(w4.sweeps[0], name, [h]) by {
      assert h in SetOf([h]);
    }
  }

  // ----- the life of a store -----

  /** Every standing tag is whole, and no running sweep has missed it. */
  ghost predicate TagsSafe(w: World) {
    forall name :: name in w.tags ==> Present(w.tags[name].chunks, w.store) && TagCovered(w, name)
  }

  /** A tag is set only for stored chunks, and only when no running sweep would miss
      it: each has yet to list the tags, has this one on its list, has its chunks
      marked, or will not visit them. Everything else may happen at any time. */
  ghost predicate Careful(w: World, a: Action) {
    a.SetTag? ==>
      && Present(a.record.chunks, w.store)
      && forall s :: s in w.sweeps ==> TagSeen(w.sweeps[s], a.name, a.record.chunks)
  }

  ghost predicate CarefulRun(w: World, actions: seq<Action>)
    decreases |actions|
  {
    actions == [] || (Careful(w, actions[0]) && CarefulRun(Apply(w, actions[0]), actions[1..]))
  }

  /** Care is not only enough for a step to keep every tag safe, it is needed. */
  lemma CarefulStep(w: World, a: Action)
    requires TagsSafe(w)
    ensures TagsSafe(Apply(w, a)) <==> Careful(w, a)
  {
    if Careful(w, a) {
      forall name | name in Apply(w, a).tags
        ensures Present(Apply(w, a).tags[name].chunks, Apply(w, a).store) && TagCovered(Apply(w, a), name)
      {
        if LeavesTag(a, name) {
          TagStep(w, a, name);
        }
      }
    } else {
      var after := Apply(w, a);
      assert a.name in after.tags && after.tags[a.name] == a.record;
      assert !(Present(a.record.chunks, after.store) && TagCovered(after, a.name));
    }
  }

  /** Two ways to be careful: no running sweep has listed the tags yet, or the chunks
      are under a guard every running sweep has marked and none is reading tags. */
  lemma WaysToBeCareful(w: World, name: string, record: TagRecord)
    requires Present(record.chunks, w.store)
    ensures (forall s :: s in w.sweeps ==> w.sweeps[s].Listing?) ==> Careful(w, SetTag(name, record))
    ensures (forall s :: s in w.sweeps ==> !w.sweeps[s].Reading?) && (forall h :: h in record.chunks ==> GuardCovered(w, h)) ==>
              Careful(w, SetTag(name, record))
  {
    if (forall s :: s in w.sweeps ==> !w.sweeps[s].Reading?) && (forall h :: h in record.chunks ==> GuardCovered(w, h)) {
      forall s | s in w.sweeps
        ensures TagSeen(w.sweeps[s], name, record.chunks)
      {
        forall h | h in record.chunks
          ensures GuardSeen(w.sweeps[s], h)
        {
          assert GuardCovered(w, h);
        }
      }
    }
  }

  /** Over any such run from an empty system, every standing tag's snapshot is whole. */
  lemma {:induction false} CarefulRunsAreSafe(w: World, actions: seq<Action>)
    requires TagsSafe(w) && CarefulRun(w, actions)
    ensures TagsSafe(Run(w, actions))
    decreases |actions|
  {
    if actions != [] {
      CarefulStep(w, actions[0]);
      CarefulRunsAreSafe(Apply(w, actions[0]), actions[1..]);
    }
  }

  /** A guard is safe over every future in which it is held exactly when no running
      sweep is past the temp tags without it and bound for the chunk. */
  lemma {:induction false} GuardSafeExactly(w: World, t: nat, h: Hash)
    requires t in w.temps && h in w.temps[t] && h in w.store
    ensures GuardCovered(w, h) <==> forall actions :: DropTemp(t) !in actions ==> h in Run(w, actions).store
  {
    if GuardCovered(w, h) {
      forall actions | DropTemp(t) !in actions
        ensures h in Run(w, actions).store
      {
        GuardedStays(w, [], actions, t, h);
        assert [] + actions == actions;
      }
    } else {
      var s :| s in w.sweeps && !GuardSeen(w.sweeps[s], h);
      var actions;
      if w.sweeps[s].Rooting? {
        actions := LoseFromRooting(w, s, "", h);
      } else {
        actions := Lose(w, s, "", h);
      }
      assert DropTemp(t) !in actions;
    }
  }

  // ----- one sweep's steps -----

  /** What others stored along a trace, in order. */
  ghost function PutsOf(trace: seq<Action>): seq<Bytes> {
    if trace == [] then []
    else
      var last := trace[|trace| - 1];
      PutsOf(trace[..|trace| - 1]) + if last.Put? then [last.bytes] else []
  }

  lemma {:induction false} PutsSnoc(trace: seq<Action>, a: Action)
    ensures PutsOf(trace + [a]) == PutsOf(trace) + if a.Put? then [a.bytes] else []
  {
    assert (trace + [a])[..|trace|] == trace;
  }

  /** The trace leads from `w0` to `w` with nobody touching tags or guards. */
  ghost predicate Leads(w0: World, trace: seq<Action>, w: World) {
    Run(w0, trace) == w && SweepsAndPuts(trace)
  }

  predicate SweepOrPut(a: Action) {
    !(a.SetTag? || a.RemoveTag? || a.Protect? || a.DropTemp?)
  }

  ghost predicate SweepsAndPuts(trace: seq<Action>) {
    forall k :: 0 <= k < |trace| ==> SweepOrPut(trace[k])
  }

  lemma Stepped(w0: World, trace: seq<Action>, w: World, a: Action)
    requires Leads(w0, trace, w) && SweepOrPut(a)
    ensures Leads(w0, trace + [a], Apply(w, a))
  {
    RunAppend(w0, trace, [a]);
    assert Run(w, [a]) == Run(Apply(w, a), []);
  }

  /** `w` with only the sweep 0 running, in phase `p`. */
  ghost function In(w: World, p: Phase): World {
    w.(sweeps := map[0 := p])
  }

  lemma SweepStarts(w: World, names: seq<string>)
    requires w.sweeps == map[] && w.tags.Keys <= SetOf(names)
    ensures Leads(w, [StartSweep(0), ListTags(0, names)], In(w, Reading(names, {})))
  {
    assert Leads(w, [], w);
    Stepped(w, [], w, StartSweep(0));
    Stepped(w, [] + [StartSweep(0)], In(w, Listing), ListTags(0, names));
    assert [] + [StartSweep(0)] + [ListTags(0, names)] == [StartSweep(0), ListTags(0, names)];
  }

  lemma TagIsRead(w0: World, trace: seq<Action>, w: World, names: seq<string>, live: set<Hash>)
    requires Leads(w0, trace, In(w, Reading(names, live))) && names != [] && names[0] in w.tags
    ensures Leads(w0, trace + [ReadTag(0)], In(w, Reading(names[1..], live + SetOf(w.tags[names[0]].chunks))))
  {
    Stepped(w0, trace, In(w, Reading(names, live)), ReadTag(0));
  }

  lemma GuardsAreMarked(w0: World, trace: seq<Action>, w: World, live: set<Hash>)
    requires Leads(w0, trace, In(w, Reading([], live)))
    ensures Leads(w0, trace + [MarkTemps(0)], In(w, Rooting(live + Union(w.temps))))
  {
    Stepped(w0, trace, In(w, Reading([], live)), MarkTemps(0));
  }

  lemma RootIsAdded(w0: World, trace: seq<Action>, w: World, live: set<Hash>, hashes: set<Hash>)
    requires Leads(w0, trace, In(w, Rooting(live)))
    ensures Leads(w0, trace + [AddRoot(0, hashes)], In(w, Rooting(live + hashes)))
  {
    Stepped(w0, trace, In(w, Rooting(live)), AddRoot(0, hashes));
  }

  lemma StoreIsListed(w0: World, trace: seq<Action>, w: World, live: set<Hash>, found: seq<Hash>)
    requires Leads(w0, trace, In(w, Rooting(live))) && w.store.Keys <= SetOf(found)
    ensures Leads(w0, trace + [ListStore(0, found)], In(w, Removing(live, found)))
  {
    Stepped(w0, trace, In(w, Rooting(live)), ListStore(0, found));
  }

  lemma NextIsVisited(w0: World, trace: seq<Action>, w: World, live: set<Hash>, todo: seq<Hash>)
    requires Leads(w0, trace, In(w, Removing(live, todo))) && todo != []
    ensures var left := if todo[0] in live then w else w.(store := w.store - {todo[0]});
            Leads(w0, trace + [RemoveNext(0)], In(left, Removing(live, todo[1..])))
  {
    Stepped(w0, trace, In(w, Removing(live, todo)), RemoveNext(0));
  }

  lemma ChunkIsPut(w0: World, trace: seq<Action>, w: World, bytes: Bytes)
    requires Leads(w0, trace, w)
    ensures Leads(w0, trace + [Put(bytes)], w.(store := w.store[Hash(bytes) := bytes]))
  {
    Stepped(w0, trace, w, Put(bytes));
  }

  lemma SweepEnds(w0: World, trace: seq<Action>, w: World, live: set<Hash>)
    requires Leads(w0, trace, In(w, Removing(live, [])))
    ensures Leads(w0, trace + [FinishSweep(0)], w.(sweeps := map[]))
  {
    Stepped(w0, trace, In(w, Removing(live, [])), FinishSweep(0));
    assert map[0 := Removing(live, [])] - {0} == map[];
  }
}
