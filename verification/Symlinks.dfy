/** Symlink containment: the checker of src/paths.rs, and the pathname resolution
    it has to agree with, section 4.13 of IEEE Std 1003.1-2017 (Base Definitions). */
module Symlinks {
  import opened Basics

  /** One component of a link target. `Other` is a root or a drive prefix. */
  datatype Comp = Cur | Parent | Normal(name: string) | Other

  type Path = seq<string>

  /** Declared links by their path from the tree root. */
  type Links = map<Path, seq<Comp>>

  datatype PathError = Escapes | Unsafe | TooManyHops

  const MAX_SYMLINK_HOPS: nat := 32

  // ----- the checker, as a function -----

  /** Where `comps` leads from directory `cur`, following declared links, and how
      much of the shared hop budget is left. */
  function Followed(cur: Path, comps: seq<Comp>, links: Links, budget: nat): (r: (Result<Path, PathError>, nat))
    ensures r.1 <= budget
    decreases budget, |comps|
  {
    if comps == [] then (Ok(cur), budget)
    else
      match comps[0]
      case Cur => Followed(cur, comps[1..], links, budget)
      case Parent =>
        if cur == [] then (Err(Escapes), budget)
        else Followed(cur[..|cur| - 1], comps[1..], links, budget)
      case Normal(name) =>
        var next := cur + [name];
        if next !in links then Followed(next, comps[1..], links, budget)
        else if budget == 0 then (Err(TooManyHops), 0)
        else
          var inner := Followed(cur, links[next], links, budget - 1);
          if inner.0.Err? then inner else Followed(inner.0.value, comps[1..], links, inner.1)
      case Other => (Err(Unsafe), budget)
  }

  /** The checker's entry point: resolving a target costs one hop itself. */
  function Resolved(base: Path, target: seq<Comp>, links: Links, budget: nat): (Result<Path, PathError>, nat) {
    if budget == 0 then (Err(TooManyHops), 0) else Followed(base, target, links, budget - 1)
  }

  // ----- the checker, as the program runs it -----

  method ResolveConfined(base: Path, target: seq<Comp>, links: Links, budget: nat)
    returns (r: Result<Path, PathError>, left: nat)
    ensures (r, left) == Resolved(base, target, links, budget)
    ensures left <= budget
    decreases budget
  {
    if budget == 0 {
      return Err(TooManyHops), 0;
    }
    left := budget - 1;
    var cur := base;
    for k := 0 to |target|
      invariant left < budget
      invariant Followed(cur, target[k..], links, left) == Followed(base, target, links, budget - 1)
    {
      assert target[k..][1..] == target[k + 1..];
      match target[k]
      case Cur =>
      case Parent =>
        if cur == [] {
          return Err(Escapes), left;
        }
        cur := cur[..|cur| - 1];
      case Normal(name) =>
        cur := cur + [name];
        if cur in links {
          var parent := cur[..|cur| - 1];
          var inner;
          inner, left := ResolveConfined(parent, links[cur], links, left);
          if inner.Err? {
            return inner, left;
          }
          cur := inner.value;
        }
      case Other =>
        return Err(Unsafe), left;
    }
    r := Ok(cur);
  }

  /** What acceptance of a link set means, link by link. */
  ghost predicate Confined(links: Links) {
    forall link :: link in links ==>
      link != [] && Resolved(link[..|link| - 1], links[link], links, MAX_SYMLINK_HOPS).0.Ok?
  }

  /** Every declared link is resolved from its own directory with a fresh budget. */
  method AssertSymlinksConfined(links: Links) returns (r: Result<(), PathError>)
    requires forall link :: link in links ==> link != []
    ensures r.Ok? <==> Confined(links)
  {
    var todo := links.Keys;
    while todo != {}
      invariant todo <= links.Keys
      invariant forall link :: link in links && link !in todo ==>
        Resolved(link[..|link| - 1], links[link], links, MAX_SYMLINK_HOPS).0.Ok?
      decreases |todo|
    {
      var link :| link in todo;
      var resolved, _ := ResolveConfined(link[..|link| - 1], links[link], links, MAX_SYMLINK_HOPS);
      if resolved.Err? {
        return Err(resolved.error);
      }
      todo := todo - {link};
    }
    r := Ok(());
  }

  // ----- the reference: one step of pathname resolution -----

  /** The directory reached, the components still to walk and the substitutions
      made; or the reason the walk cannot go on inside the tree. */
  datatype Walk = Walking(cur: Path, rest: seq<Comp>, hops: nat) | Stuck(error: PathError)

  /** A link's contents are prefixed to the remaining path. */
  function Step(w: Walk, links: Links): Walk {
    if w.Stuck? || w.rest == [] then w
    else
      var tail := w.rest[1..];
      match w.rest[0]
      case Cur => Walking(w.cur, tail, w.hops)
      case Parent => if w.cur == [] then Stuck(Escapes) else Walking(w.cur[..|w.cur| - 1], tail, w.hops)
      case Normal(name) =>
        var next := w.cur + [name];
        if next in links then Walking(w.cur, links[next] + tail, w.hops + 1)
        else Walking(next, tail, w.hops)
      case Other => Stuck(Unsafe)
  }

  function After(w: Walk, links: Links, n: nat): Walk
    decreases n
  {
    if n == 0 then w else After(Step(w, links), links, n - 1)
  }

  lemma {:induction false} AfterAfter(w: Walk, links: Links, m: nat, n: nat)
    ensures After(w, links, m + n) == After(After(w, links, m), links, n)
    decreases m
  {
    if m > 0 {
      AfterAfter(Step(w, links), links, m - 1, n);
    }
  }

  ghost predicate Halted(w: Walk) {
    w.Stuck? || w.rest == []
  }

  lemma {:induction false} HaltedStays(w: Walk, links: Links, n: nat)
    requires Halted(w)
    ensures After(w, links, n) == w
    decreases n
  {
    if n > 0 {
      HaltedStays(w, links, n - 1);
    }
  }

  lemma {:induction false} HopsGrow(w: Walk, links: Links, n: nat)
    requires After(w, links, n).Walking?
    ensures w.Walking? && w.hops <= After(w, links, n).hops
    decreases n
  {
    if n > 0 {
      HopsGrow(Step(w, links), links, n - 1);
    }
  }

  /** A walk that halts after `m` steps shows the same end at any later time,
      and any other halt is the same one. */
  lemma {:induction false} HaltIsUnique(w: Walk, links: Links, m: nat, n: nat)
    requires Halted(After(w, links, m)) && Halted(After(w, links, n))
    ensures After(w, links, m) == After(w, links, n)
  {
    if m <= n {
      AfterAfter(w, links, m, n - m);
      HaltedStays(After(w, links, m), links, n - m);
    } else {
      AfterAfter(w, links, n, m - n);
      HaltedStays(After(w, links, n), links, m - n);
    }
  }

  // ----- recursion with a budget is the walk -----

  /** What the walk over `comps` followed by `rest` shows after `n` steps, when
      the checker gives `outcome` for `comps` under `budget`. */
  ghost predicate Mirrors(w: Walk, outcome: (Result<Path, PathError>, nat), rest: seq<Comp>, hops: nat, budget: nat) {
    match outcome.0
    case Ok(p) => outcome.1 <= budget && w == Walking(p, rest, hops + (budget - outcome.1))
    case Err(TooManyHops) => w.Walking? && w.hops > hops + budget
    case Err(e) => w == Stuck(e)
  }

  lemma Simulates(cur: Path, comps: seq<Comp>, rest: seq<Comp>, links: Links, hops: nat, budget: nat)
    returns (n: nat)
    ensures Mirrors(After(Walking(cur, comps + rest, hops), links, n),
                    Followed(cur, comps, links, budget), rest, hops, budget)
    decreases budget, |comps|
  {
    var w := Walking(cur, comps + rest, hops);
    if comps == [] {
      assert comps + rest == rest;
      n := 0;
      return;
    }
    var tail := comps[1..];
    assert (comps + rest)[1..] == tail + rest;
    match comps[0]
    case Cur =>
      n := Simulates(cur, tail, rest, links, hops, budget);
      n := n + 1;
    case Parent =>
      if cur == [] {
        n := 1;
        assert After(w, links, 1) == After(Step(w, links), links, 0);
      } else {
        n := Simulates(cur[..|cur| - 1], tail, rest, links, hops, budget);
        n := n + 1;
      }
    case Normal(name) =>
      if cur + [name] in links {
        n := SimulatesLink(cur, comps, rest, links, hops, budget);
      } else {
        n := Simulates(cur + [name], tail, rest, links, hops, budget);
        n := n + 1;
      }
    case Other =>
      n := 1;
      assert After(w, links, 1) == After(Step(w, links), links, 0);
  }

  /** The substitution case: walk the contents with the remaining path waiting,
      then go on from where the contents lead. */
  lemma SimulatesLink(cur: Path, comps: seq<Comp>, rest: seq<Comp>, links: Links, hops: nat,
                      budget: nat)
    returns (n: nat)
    requires comps != [] && comps[0].Normal? && cur + [comps[0].name] in links
    ensures Mirrors(After(Walking(cur, comps + rest, hops), links, n),
                    Followed(cur, comps, links, budget), rest, hops, budget)
    decreases budget, |comps|, 0
  {
    var w := Walking(cur, comps + rest, hops);
    var tail, contents := comps[1..], links[cur + [comps[0].name]];
    assert (comps + rest)[1..] == tail + rest;
    if budget == 0 {
      n := 1;
      assert After(w, links, 1) == After(Step(w, links), links, 0);
      return;
    }
    var inner := Followed(cur, contents, links, budget - 1);
    var m := Simulates(cur, contents, tail + rest, links, hops + 1, budget - 1);
    assert After(w, links, m + 1) == After(Walking(cur, contents + (tail + rest), hops + 1), links, m);
    if inner.0.Err? {
      n := m + 1;
    } else {
      var reached := hops + (budget - inner.1);
      var k := Simulates(inner.0.value, tail, rest, links, reached, inner.1);
      AfterAfter(w, links, m + 1, k);
      n := m + 1 + k;
    }
  }

  /** The walk from `base` reaches the end of the target at `p`, making at most
      `hops` substitutions and meeting nothing unsafe. */
  ghost predicate Reaches(base: Path, target: seq<Comp>, links: Links, p: Path, hops: nat) {
    exists n :: LandsAt(After(Walking(base, target, 0), links, n), p, hops)
  }

  ghost predicate LandsAt(w: Walk, p: Path, hops: nat) {
    w.Walking? && w.rest == [] && w.cur == p && w.hops <= hops
  }

  /** Exactness: the checker returns `p` if and only if the walk from the same
      start reaches `p` without leaving the root or meeting an absolute part,
      with at most 31 substitutions. */
  lemma ResolvedExactly(base: Path, target: seq<Comp>, links: Links, p: Path)
    ensures Resolved(base, target, links, MAX_SYMLINK_HOPS).0 == Ok(p) <==>
            Reaches(base, target, links, p, MAX_SYMLINK_HOPS - 1)
  {
    var budget := MAX_SYMLINK_HOPS - 1;
    var w := Walking(base, target, 0);
    var n := Simulates(base, target, [], links, 0, budget);
    assert target + [] == target;
    var outcome := Followed(base, target, links, budget);
    if outcome.0 == Ok(p) {
      assert LandsAt(After(w, links, n), p, budget);
    }
    if Reaches(base, target, links, p, budget) {
      var m :| LandsAt(After(w, links, m), p, budget);
      if outcome.0 == Err(TooManyHops) {
        HopsExceeded(w, links, n, m, budget);
      } else {
        HaltIsUnique(w, links, m, n);
      }
    }
  }

  /** The walk from `base` ends somewhere inside the tree. */
  ghost predicate Ends(base: Path, target: seq<Comp>, links: Links, hops: nat) {
    exists n, p :: LandsAt(After(Walking(base, target, 0), links, n), p, hops)
  }

  /** The walk of a declared link, from the link's own directory, ends inside the
      tree within 31 substitutions. */
  ghost predicate LinkLands(link: Path, links: Links)
    requires link in links && link != []
  {
    Ends(link[..|link| - 1], links[link], links, MAX_SYMLINK_HOPS - 1)
  }

  /** Acceptance of a set means exactly that every declared link lands. */
  lemma ConfinedExactly(links: Links)
    requires forall link :: link in links ==> link != []
    ensures Confined(links) <==> forall link :: link in links ==> LinkLands(link, links)
  {
    forall link | link in links
      ensures Resolved(link[..|link| - 1], links[link], links, MAX_SYMLINK_HOPS).0.Ok? <==>
              LinkLands(link, links)
    {
      var base, target := link[..|link| - 1], links[link];
      var r := Resolved(base, target, links, MAX_SYMLINK_HOPS).0;
      if r.Ok? {
        ResolvedExactly(base, target, links, r.value);
      }
      if LinkLands(link, links) {
        var n, p :| LandsAt(After(Walking(base, target, 0), links, n), p, MAX_SYMLINK_HOPS - 1);
        ResolvedExactly(base, target, links, p);
      }
    }
  }

  /** A walk seen with too many hops cannot also end with few. */
  lemma {:induction false} HopsExceeded(w: Walk, links: Links, n: nat, m: nat, budget: nat)
    requires After(w, links, n).Walking? && After(w, links, n).hops > budget
    requires After(w, links, m).Walking? && After(w, links, m).rest == []
    ensures After(w, links, m).hops > budget
  {
    if n <= m {
      AfterAfter(w, links, n, m - n);
      HopsGrow(After(w, links, n), links, m - n);
    } else {
      AfterAfter(w, links, m, n - m);
      HaltedStays(After(w, links, m), links, n - m);
    }
  }

  /** A walk that never halts, as on a cycle, is always refused for its hops. */
  lemma {:induction false} CyclesAreRefused(base: Path, target: seq<Comp>, links: Links)
    requires forall n :: !Halted(After(Walking(base, target, 0), links, n))
    ensures Resolved(base, target, links, MAX_SYMLINK_HOPS).0 == Err(TooManyHops)
  {
    var n := Simulates(base, target, [], links, 0, MAX_SYMLINK_HOPS - 1);
    assert target + [] == target;
    assert !Halted(After(Walking(base, target, 0), links, n));
  }

  // ----- whole-tree confinement -----

  function Plain(names: seq<string>): seq<Comp> {
    if names == [] then [] else [Normal(names[0])] + Plain(names[1..])
  }

  /** From any directory, an accepted link set lets every plain path be walked to
      its end in finitely many steps, at most 32 substitutions a component. */
  lemma PlainPathsLand(cur: Path, names: seq<string>, links: Links, hops: nat) returns (n: nat)
    requires Confined(links)
    ensures After(Walking(cur, Plain(names), hops), links, n).Walking?
    ensures After(Walking(cur, Plain(names), hops), links, n).rest == []
    ensures After(Walking(cur, Plain(names), hops), links, n).hops <= hops + MAX_SYMLINK_HOPS * |names|
    decreases |names|
  {
    var w := Walking(cur, Plain(names), hops);
    n := 0;
    if names != [] {
      var m := OneNameLands(cur, names[0], Plain(names[1..]), links, hops);
      var landed := After(w, links, m);
      var k := PlainPathsLand(landed.cur, names[1..], links, landed.hops);
      AfterAfter(w, links, m, k);
      n := m + k;
      assert MAX_SYMLINK_HOPS * |names| == MAX_SYMLINK_HOPS + MAX_SYMLINK_HOPS * |names[1..]|;
    }
  }

  /** One name of the path: a link is followed to wherever it lands. */
  lemma OneNameLands(cur: Path, name: string, tail: seq<Comp>, links: Links, hops: nat) returns (n: nat)
    requires Confined(links)
    ensures var landed := After(Walking(cur, [Normal(name)] + tail, hops), links, n);
            landed.Walking? && landed.rest == tail && landed.hops <= hops + MAX_SYMLINK_HOPS
  {
    var w, next := Walking(cur, [Normal(name)] + tail, hops), cur + [name];
    assert w.rest[1..] == tail;
    if next in links {
      assert next[..|next| - 1] == cur;
      var m := Simulates(cur, links[next], tail, links, hops + 1, MAX_SYMLINK_HOPS - 1);
      n := m + 1;
      assert After(w, links, n) == After(Walking(cur, links[next] + tail, hops + 1), links, m);
    } else {
      n := 1;
      assert After(w, links, 1) == After(Walking(next, tail, hops), links, 0);
    }
  }

  /** Confinement of the whole tree: once the links are accepted, no path made of
      names, resolved from the root as the kernel does, ever steps above the
      root or meets an absolute target, and its resolution always ends. */
  lemma {:induction false} WholeTreeConfined(links: Links, names: seq<string>)
    requires Confined(links)
    ensures Ends([], Plain(names), links, MAX_SYMLINK_HOPS * |names|)
    ensures forall k :: After(Walking([], Plain(names), 0), links, k).Walking?
  {
    var w := Walking([], Plain(names), 0);
    var n := PlainPathsLand([], names, links, 0);
    assert LandsAt(After(w, links, n), After(w, links, n).cur, MAX_SYMLINK_HOPS * |names|);
    forall k
      ensures After(w, links, k).Walking?
    {
      if After(w, links, k).Stuck? {
        HaltIsUnique(w, links, k, n);
      }
    }
  }

  // ----- the lexical check: exact for one link, not for a set -----

  /** Judge a target by counting depth alone. */
  method SanitizeSymlinkTarget(link: Path, target: seq<Comp>) returns (ok: bool)
    requires link != []
    ensures ok <==> Resolved(link[..|link| - 1], target, map[], MAX_SYMLINK_HOPS).0.Ok?
  {
    for k := 0 to |target|
      invariant Other !in target[..k]
    {
      if target[k] == Other {
        OtherIsUnsafe(link[..|link| - 1], target, MAX_SYMLINK_HOPS - 1);
        return false;
      }
    }
    var depth: int := |link| - 1;
    ghost var cur := link[..|link| - 1];
    for k := 0 to |target|
      invariant depth == |cur|
      invariant Followed(cur, target[k..], map[], MAX_SYMLINK_HOPS - 1)
             == Followed(link[..|link| - 1], target, map[], MAX_SYMLINK_HOPS - 1)
    {
      assert target[k..][1..] == target[k + 1..];
      match target[k]
      case Normal(name) =>
        depth := depth + 1;
        cur := cur + [name];
      case Parent =>
        depth := depth - 1;
        if depth < 0 {
          return false;
        }
        cur := cur[..|cur| - 1];
      case Cur =>
      case Other =>
        return false;
    }
    ok := true;
  }

  lemma {:induction false} OtherIsUnsafe(cur: Path, target: seq<Comp>, budget: nat)
    requires Other in target
    ensures Followed(cur, target, map[], budget).0.Err?
    decreases |target|
  {
    match target[0]
    case Cur => OtherIsUnsafe(cur, target[1..], budget);
    case Parent => if cur != [] { OtherIsUnsafe(cur[..|cur| - 1], target[1..], budget); }
    case Normal(name) => OtherIsUnsafe(cur + [name], target[1..], budget);
    case Other =>
  }

  /** Example: two links that pass the lexical check one by one and escape together. */
  lemma LexicalIsNotEnough(up: Path, e: Path, through: seq<Comp>, links: Links)
    requires up == ["sub", "link"] && e == ["e"]
    requires through == [Normal("sub"), Normal("link"), Parent, Parent, Normal("etc"), Normal("passwd")]
    requires links == map[up := [Parent], e := through]
    ensures forall link :: link in links ==>
              Resolved(link[..|link| - 1], links[link], map[], MAX_SYMLINK_HOPS).0.Ok?
    ensures Resolved([], through, links, MAX_SYMLINK_HOPS).0 == Err(Escapes)
    ensures !Confined(links)
  {
    assert up[..1] == ["sub"] && e[..0] == [];
    ParentOf(["sub"], "sub", map[], 31);
    LexicallyFine(through);
    // The first link leads to the root, so the second one's first `..` leaves it.
    ParentOf(["sub"], "sub", links, 30);
    assert through[1..][0] == Normal("link") && through[1..][1..] == through[2..];
    assert ["sub"] + ["link"] == up;
    assert Followed([], through[2..], links, 30) == (Err(Escapes), 30);
    assert Followed(["sub"], through[1..], links, 31) == (Err(Escapes), 30);
    assert [] + ["sub"] == ["sub"] && ["sub"] !in links;
    assert Followed([], through, links, 31) == (Err(Escapes), 30);
  }

  lemma {:induction false} ParentOf(dir: Path, name: string, links: Links, budget: nat)
    requires dir == [name]
    ensures Followed(dir, [Parent], links, budget) == (Ok([]), budget)
  {
    assert [Parent][1..] == [];
  }

  lemma {:induction false} LexicallyFine(through: seq<Comp>)
    requires through == [Normal("sub"), Normal("link"), Parent, Parent, Normal("etc"), Normal("passwd")]
    ensures Followed([], through, map[], 31).0.Ok?
  {
    var t5, t4, t3, t2, t1 := through[5..], through[4..], through[3..], through[2..], through[1..];
    assert t5[1..] == [] && t4[1..] == t5 && t3[1..] == t4 && t2[1..] == t3 && t1[1..] == t2;
    assert [] + ["etc"] == ["etc"];
    assert Followed(["etc"], t5, map[], 31).0.Ok?;
    assert Followed([], t4, map[], 31).0.Ok?;
    assert Followed(["sub"], t3, map[], 31).0.Ok?;
    assert Followed(["sub", "link"], t2, map[], 31).0.Ok? by {
      assert ["sub", "link"][..1] == ["sub"];
    }
    assert ["sub"] + ["link"] == ["sub", "link"] && [] + ["sub"] == ["sub"];
    assert Followed(["sub"], t1, map[], 31).0.Ok?;
  }
}
