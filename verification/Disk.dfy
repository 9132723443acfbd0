/** The partial file and its sidecar as a disk that may lose power at any step. */
module Disks {
  import opened Basics
  import opened Resume

  /** Everything a crash or a resume can see. `may[k]` holds every value that byte
      `k` of the partial file may have after a power loss: its durable value and
      whatever was written over it since the last sync, in any mix. */
  datatype DiskState = DiskState(
    present: bool,
    view: Bytes,
    may: seq<set<bv8>>,
    sidecar: Option<Sidecar>)
  {
    ghost predicate Valid() {
      |view| == |may| && forall k :: 0 <= k < |view| ==> view[k] in may[k]
    }
  }

  /** Writing `data` at `offset`, completely or only in part. */
  ghost predicate Wrote(before: DiskState, after: DiskState, offset: nat, data: Bytes, ok: bool)
    requires offset + |data| <= |before.view| == |before.may|
  {
    var end := offset + |data|;
    && after.present == before.present
    && after.sidecar == before.sidecar
    && |after.view| == |after.may| == |before.view|
    && (forall k :: 0 <= k < |before.view| && !(offset <= k < end) ==>
          after.view[k] == before.view[k] && after.may[k] == before.may[k])
    && (forall k :: offset <= k < end ==> after.may[k] <= before.may[k] + {data[k - offset]})
    && (ok ==> after.view[offset..end] == data)
  }

  /** A sync: nothing visible changes, and when it succeeds nothing is pending. */
  ghost predicate Synced(before: DiskState, after: DiskState, ok: bool)
    requires |before.view| == |before.may|
  {
    && after.present == before.present
    && after.sidecar == before.sidecar
    && after.view == before.view
    && |after.may| == |before.may|
    && (forall k :: 0 <= k < |before.may| ==> after.may[k] <= before.may[k])
    && (ok ==> forall k :: 0 <= k < |before.may| ==> after.may[k] == {before.view[k]})
  }

  /** Nothing pending: each byte can only be what it shows. */
  function Settled(view: Bytes): (may: seq<set<bv8>>)
    ensures |may| == |view| && forall k :: 0 <= k < |view| ==> may[k] == {view[k]}
  {
    seq(|view|, k requires 0 <= k < |view| => {view[k]})
  }

  /** The written bytes become possible, the old values stay possible. */
  function Overlaid(may: seq<set<bv8>>, offset: nat, data: Bytes): (r: seq<set<bv8>>)
    requires offset + |data| <= |may|
    ensures |r| == |may|
    ensures forall k :: 0 <= k < |may| ==>
              r[k] == if offset <= k < offset + |data| then may[k] + {data[k - offset]} else may[k]
  {
    seq(|may|, k requires 0 <= k < |may| =>
      if offset <= k < offset + |data| then may[k] + {data[k - offset]} else may[k])
  }

  /** One value per byte, each among those it may have. */
  method AnyOf(view: Bytes, may: seq<set<bv8>>) returns (survived: Bytes)
    requires |view| == |may| && forall k :: 0 <= k < |view| ==> view[k] in may[k]
    ensures |survived| == |may| && forall k :: 0 <= k < |survived| ==> survived[k] in may[k]
  {
    survived := [];
    for k := 0 to |may|
      invariant |survived| == k && forall j :: 0 <= j < k ==> survived[j] in may[j]
    {
      var shown := view[k];
      assert shown in may[k];
      var b :| b in may[k];
      survived := survived + [b];
    }
  }

  /** A disk with its past: its state now, the finished file, every state it has been
      in and how many steps have failed. */
  datatype Moment = Moment(state: DiskState, dest: Option<Bytes>, trace: seq<DiskState>, faults: nat)

  class Disk {
    var present: bool
    var view: Bytes
    var may: seq<set<bv8>>
    var sidecar: Option<Sidecar>
    /** The finished file under its final name. */
    var dest: Option<Bytes>
    /** Every state the disk has been in, one entry per I/O step taken. */
    ghost var trace: seq<DiskState>
    /** How many I/O steps have failed. */
    ghost var faults: nat

    function State(): DiskState
      reads this
    {
      DiskState(present, view, may, sidecar)
    }

    ghost function Now(): Moment
      reads this
    {
      Moment(State(), dest, trace, faults)
    }

    /** Write through the page cache. Failing leaves any prefix written. */
    method WriteLeaf(offset: nat, data: Bytes) returns (ok: bool)
      requires State().Valid() && offset + |data| <= |view|
      modifies this
      ensures State().Valid() && Wrote(old(State()), State(), offset, data, ok)
      ensures dest == old(dest) && trace == old(trace) + [State()]
      ensures faults == old(faults) + if ok then 0 else 1
    {
      var n := |data|;
      ok := true;
      if * {
        n :| 0 <= n <= |data|;
        ok := false;
      }
      may := Overlaid(may, offset, data[..n]);
      view := view[..offset] + data[..n] + view[offset + n..];
      assert ok ==> view[offset..offset + |data|] == data;
      if !ok {
        faults := faults + 1;
      }
      trace := trace + [State()];
    }

    /** Flush the partial file. Failing promises nothing. */
    method SyncData() returns (ok: bool)
      requires State().Valid()
      modifies this
      ensures State().Valid() && Synced(old(State()), State(), ok)
      ensures dest == old(dest) && trace == old(trace) + [State()]
      ensures faults == old(faults) + if ok then 0 else 1
    {
      ok := false;
      if * {
        may := Settled(view);
        ok := true;
      }
      if !ok {
        faults := faults + 1;
      }
      trace := trace + [State()];
    }

    /** Replace the sidecar atomically: temporary file, sync, rename, directory
        sync. A failure leaves the old one or the new one, never a torn one. */
    method SaveSidecar(s: Sidecar) returns (ok: bool)
      requires State().Valid()
      modifies this
      ensures State() == old(State()).(sidecar := sidecar)
      ensures sidecar == Some(s) || (!ok && sidecar == old(sidecar))
      ensures dest == old(dest) && trace == old(trace) + [State()]
      ensures faults == old(faults) + if ok then 0 else 1
    {
      ok := false;
      if * {
        sidecar := Some(s);
        if * {
          ok := true;
        }
      }
      if !ok {
        faults := faults + 1;
      }
      trace := trace + [State()];
    }

    /** Truncate the partial file, size it and save a fresh sidecar, as one step. */
    method StartOver(len: nat, blank: Sidecar) returns (ok: bool)
      modifies this
      ensures ok ==> State() == DiskState(true, seq(len, _ => 0), Settled(seq(len, _ => 0)), Some(blank))
      ensures !ok ==> State() == old(State())
      ensures dest == old(dest) && trace == old(trace) + [State()]
      ensures faults == old(faults) + if ok then 0 else 1
    {
      ok := false;
      if * {
        present, sidecar := true, Some(blank);
        view, may := seq(len, _ => 0), Settled(seq(len, _ => 0));
        ok := true;
      }
      if !ok {
        faults := faults + 1;
      }
      trace := trace + [State()];
    }

    /** Move the partial file into place and drop the sidecar, as one step. */
    method Publish() returns (ok: bool)
      modifies this
      ensures ok ==> dest == Some(old(view)) && State() == DiskState(false, [], [], None)
      ensures !ok ==> dest == old(dest) && State() == old(State())
      ensures trace == old(trace) + [State()]
      ensures faults == old(faults) + if ok then 0 else 1
    {
      ok := false;
      if * {
        dest := Some(view);
        present, view, may, sidecar := false, [], [], None;
        ok := true;
      }
      if !ok {
        faults := faults + 1;
      }
      trace := trace + [State()];
    }

    /** Power returns: each byte shows one of the values it may have. */
    method Reboot()
      requires State().Valid()
      modifies this
      ensures State().Valid() && present == old(present) && sidecar == old(sidecar) && dest == old(dest)
      ensures |view| == |old(view)|
      ensures forall k :: 0 <= k < |view| ==> view[k] in old(may)[k] && may[k] == {view[k]}
      ensures trace == old(trace) + [State()]
      ensures faults == old(faults)
    {
      var survived := AnyOf(view, may);
      view := survived;
      may := Settled(survived);
      trace := trace + [State()];
    }
  }
}
