/**
 * The body of solar_layout.py's `main`: find the root genres, size every
 * root's subtree, give the i-th of n roots the i-th n-th of the full circle
 * at ring 1, give every placed genre an angular speed, and write one planet
 * record per genre.
 *
 * Reading and writing JSON and the command line are not modelled: the
 * parsed input is the table `data` and the options are parameters
 * (`fullCircle` is 2 * math.pi).  Exceptions become `Err` results.
 */
module SolarSystem {
  import opened Util
  import opened Forest
  import opened SolarLayout

  /** The exceptions main can raise on a parsed dict. */
  datatype LayoutError =
    | Unhashable    // TypeError: a list or dict parent used as a key of `tree`
    | NoRoots       // ValueError('No root genres found; ...')
    | ZeroDivision  // ZeroDivisionError in base_speed / (r + epsilon)

  // ---------------------------------------------------------------------------
  // Roots (solar_layout.py:83)

  /** `[name for name, attrs in data.items() if not attrs.get('parent')]`
      over the names `s`. */
  function Roots(t: Table, s: seq<string>): seq<string>
    requires forall k :: k in s ==> k in t.rows
  {
    if s == [] then []
    else
      var last := s[|s| - 1];
      Roots(t, s[..|s| - 1]) + (if Truthy(ParentAttr(t.rows[last])) then [] else [last])
  }

  /** The roots are the names whose parent attribute is falsy, each once. */
  lemma {:induction false} RootsMembers(t: Table, s: seq<string>)
    requires forall k :: k in s ==> k in t.rows
    requires Distinct(s)
    ensures forall k :: k in Roots(t, s) <==> k in s && !Truthy(ParentAttr(t.rows[k]))
    ensures Distinct(Roots(t, s))
  {
    if s != [] {
      var init, last := s[..|s| - 1], s[|s| - 1];
      RootsMembers(t, init);
      assert s == init + [last];
      assert last !in init;
      var a := Roots(t, init);
      var c := Roots(t, s);
      assert c == a + (if Truthy(ParentAttr(t.rows[last])) then [] else [last]);
      forall i, j | 0 <= i < j < |c|
        ensures c[i] != c[j]
      {
        if j >= |a| {
          assert c[i] == a[i] && a[i] in init;
        } else {
          assert c[i] == a[i] && c[j] == a[j];
        }
      }
    }
  }

  /** solar_layout.py:83: the roots of the dict are exactly its genres with a
      falsy parent, in dict order, each once; none of them has a parent in
      the forest. */
  lemma RootsSpec(t: Table)
    requires WellFormed(t)
    ensures forall k :: k in Roots(t, t.order) <==> k in t.rows && !Truthy(ParentAttr(t.rows[k]))
    ensures Distinct(Roots(t, t.order))
    ensures forall k :: k in Roots(t, t.order) ==> ParentKey(t, k) == None
  {
    RootsMembers(t, t.order);
  }

  // ---------------------------------------------------------------------------
  // Subtree sizes of all roots (solar_layout.py:88-90)

  /** Genres that all lack a parent in the forest, each listed once. */
  ghost predicate RootList(t: Table, roots: seq<string>) {
    && Distinct(roots)
    && (forall r :: r in roots ==> r in t.rows && ParentKey(t, r) == None)
  }

  /** solar_layout.py:88-90: fill one `sizes` dict from every root in turn;
      the roots' subtrees are disjoint, so afterwards it holds exactly the
      genres under some root, each with its subtree's node count. */
  method RootSizes(t: Table, tree: map<Value, seq<string>>, ghost rank: map<string, nat>, roots: seq<string>)
    returns (sizes: map<string, nat>)
    requires Acyclic(t, rank) && IsChildrenMapOf(t, t.order, tree) && RootList(t, roots)
    ensures sizes.Keys == UnionBlocks(t, rank, roots)
    ensures forall k :: k in sizes ==> sizes[k] == |Block(t, rank, k)|
  {
    sizes := map[];
    for i := 0 to |roots|
      invariant sizes.Keys == UnionBlocks(t, rank, roots[..i])
      invariant forall k :: k in sizes ==> sizes[k] == |Block(t, rank, k)|
    {
      var next := ComputeSubtreeSizes(t, tree, rank, roots[i], sizes);
      SiblingStep(t, rank, roots, None, i);
      sizes := next;
    }
    assert roots[..|roots|] == roots;
  }

  /** Every genre of a subtree counts itself, so a computed size is at
      least 1. */
  lemma SizesPositive(t: Table, rank: map<string, nat>, sizes: map<string, nat>, roots: seq<string>, i: nat)
    requires Acyclic(t, rank) && i < |roots| && roots[i] in t.rows
    requires sizes.Keys == UnionBlocks(t, rank, roots)
    requires forall k :: k in sizes ==> sizes[k] == |Block(t, rank, k)|
    ensures SizesCover(t, rank, sizes, roots[i])
  {
    forall k | k in Block(t, rank, roots[i])
      ensures k in sizes && sizes[k] >= 1
    {
      UnionBlocksContains(t, rank, roots, i, k);
      BlockSize(t, rank, k);
    }
  }

  // ---------------------------------------------------------------------------
  // One sector of the circle per root (solar_layout.py:93-104)

  /** `start = i * per_root` */
  function RootStart(per: real, i: nat): real {
    i as real * per
  }

  /** `end = start + per_root` */
  function RootEnd(per: real, i: nat): real {
    RootStart(per, i) + per
  }

  /** The roots' sectors tile `[0, fullCircle]` in order: the first starts at
      0, each ends where the next begins, and the last ends at the full
      circle. */
  lemma RootSectorsTile(fullCircle: real, n: nat, i: nat, i1: nat)
    requires n > 0 && i < n && i1 == i + 1
    ensures var per := fullCircle / n as real;
      && RootStart(per, 0) == 0.0
      && RootEnd(per, i) == RootStart(per, i1)
      && RootEnd(per, n - 1) == fullCircle
      && (fullCircle >= 0.0 ==> RootStart(per, i) <= RootEnd(per, i))
  {
    var per := fullCircle / n as real;
    assert RootEnd(per, n - 1) == (n - 1) as real * per + per;
    assert per * n as real == fullCircle;
  }

  /** The roots' sectors sized by `sizes`. */
  ghost predicate RootsCovered(t: Table, rank: map<string, nat>, sizes: map<string, nat>, roots: seq<string>)
    requires Acyclic(t, rank)
  {
    forall j :: 0 <= j < |roots| ==> roots[j] in t.rows && SizesCover(t, rank, sizes, roots[j])
  }

  /** `all_layout` after the first `i` roots: each root's subtree laid out in
      its sector from ring 1. */
  ghost function RootsLayout(t: Table, rank: map<string, nat>, sizes: map<string, nat>, spacing: real,
                             roots: seq<string>, per: real, i: nat): map<string, Placement>
    requires Acyclic(t, rank) && RootsCovered(t, rank, sizes, roots) && i <= |roots|
  {
    if i == 0 then map[]
    else
      RootsLayout(t, rank, sizes, spacing, roots, per, i - 1)
        + Layout(t, rank, sizes, spacing, roots[i - 1], RootStart(per, i - 1), RootEnd(per, i - 1), 1)
  }

  /** solar_layout.py:93-104: lay out every root's subtree in its sector, at
      ring 1, and merge the results into one dict. */
  method LayoutRoots(t: Table, tree: map<Value, seq<string>>, ghost rank: map<string, nat>,
                     roots: seq<string>, sizes: map<string, nat>, fullCircle: real, spacing: real)
    returns (allLayout: map<string, Placement>)
    requires Acyclic(t, rank) && IsChildrenMapOf(t, t.order, tree) && roots != []
    requires RootsCovered(t, rank, sizes, roots)
    ensures allLayout == RootsLayout(t, rank, sizes, spacing, roots, fullCircle / |roots| as real, |roots|)
  {
    var perRoot := fullCircle / |roots| as real;
    allLayout := map[];
    for i := 0 to |roots|
      invariant allLayout == RootsLayout(t, rank, sizes, spacing, roots, perRoot, i)
    {
      allLayout := PlaceRoot(t, tree, rank, roots, sizes, perRoot, spacing, i, allLayout);
    }
  }

  /** One pass of the loop of solar_layout.py:98-104: lay out root `i` in
      its sector and merge the result into what the earlier roots placed. */
  method PlaceRoot(t: Table, tree: map<Value, seq<string>>, ghost rank: map<string, nat>,
                   roots: seq<string>, sizes: map<string, nat>, perRoot: real, spacing: real,
                   i: nat, acc: map<string, Placement>)
    returns (next: map<string, Placement>)
    requires Acyclic(t, rank) && IsChildrenMapOf(t, t.order, tree) && i < |roots|
    requires RootsCovered(t, rank, sizes, roots)
    requires acc == RootsLayout(t, rank, sizes, spacing, roots, perRoot, i)
    ensures next == RootsLayout(t, rank, sizes, spacing, roots, perRoot, i + 1)
  {
    var start := i as real * perRoot;
    var end := start + perRoot;
    var part := LayoutRadial(t, tree, rank, roots[i], start, end, sizes, 1, spacing);
    next := acc + part;
    RootsLayoutStep(t, rank, sizes, spacing, roots, perRoot, i, i + 1, start, end, acc, part, next);
  }

  lemma RootsLayoutStep(t: Table, rank: map<string, nat>, sizes: map<string, nat>, spacing: real,
                        roots: seq<string>, per: real, i: nat, i1: nat, start: real, end: real,
                        acc: map<string, Placement>, part: map<string, Placement>, next: map<string, Placement>)
    requires Acyclic(t, rank) && RootsCovered(t, rank, sizes, roots) && i < |roots| && i1 == i + 1
    requires start == RootStart(per, i) && end == RootEnd(per, i)
    requires acc == RootsLayout(t, rank, sizes, spacing, roots, per, i)
    requires part == Layout(t, rank, sizes, spacing, roots[i], start, end, 1)
    requires next == acc + part
    ensures next == RootsLayout(t, rank, sizes, spacing, roots, per, i1)
  {
    RootsLayoutUnfold(t, rank, sizes, spacing, roots, per, i, i1);
  }

  /** Exactly the genres under the first `i` roots are placed. */
  lemma {:induction false} RootsLayoutKeys(t: Table, rank: map<string, nat>, sizes: map<string, nat>, spacing: real,
                                           roots: seq<string>, per: real, i: nat)
    requires Acyclic(t, rank) && RootsCovered(t, rank, sizes, roots) && i <= |roots|
    ensures RootsLayout(t, rank, sizes, spacing, roots, per, i).Keys == UnionBlocks(t, rank, roots[..i])
  {
    if i != 0 {
      var i0 := i - 1;
      RootsLayoutKeys(t, rank, sizes, spacing, roots, per, i0);
      RootsLayoutUnfold(t, rank, sizes, spacing, roots, per, i0, i);
      LayoutKeys(t, rank, sizes, spacing, roots[i0], RootStart(per, i0), RootEnd(per, i0), 1);
      BlocksStep(t, rank, roots, i0, i);
    }
  }

  /** One more root: its subtree's placements join the earlier ones. */
  lemma RootsLayoutUnfold(t: Table, rank: map<string, nat>, sizes: map<string, nat>, spacing: real,
                          roots: seq<string>, per: real, i: nat, i1: nat)
    requires Acyclic(t, rank) && RootsCovered(t, rank, sizes, roots) && i < |roots| && i1 == i + 1
    ensures roots[i] in t.rows && SizesCover(t, rank, sizes, roots[i])
    ensures RootsLayout(t, rank, sizes, spacing, roots, per, i1) ==
      RootsLayout(t, rank, sizes, spacing, roots, per, i)
        + Layout(t, rank, sizes, spacing, roots[i], RootStart(per, i), RootEnd(per, i), 1)
  {
    assert i1 - 1 == i;
  }

  /** A genre under the i-th root keeps the placement that root's layout
      gives it: later roots' subtrees are disjoint from it. */
  lemma RootsLayoutAt(t: Table, rank: map<string, nat>, sizes: map<string, nat>, spacing: real,
                      roots: seq<string>, per: real, i: nat, k: string)
    requires Acyclic(t, rank) && RootsCovered(t, rank, sizes, roots) && RootList(t, roots)
    requires i < |roots| && k in Block(t, rank, roots[i])
    ensures var sub := Layout(t, rank, sizes, spacing, roots[i], RootStart(per, i), RootEnd(per, i), 1);
      && k in sub && k in RootsLayout(t, rank, sizes, spacing, roots, per, |roots|)
      && RootsLayout(t, rank, sizes, spacing, roots, per, |roots|)[k] == sub[k]
  {
    var sub := Layout(t, rank, sizes, spacing, roots[i], RootStart(per, i), RootEnd(per, i), 1);
    LayoutKeys(t, rank, sizes, spacing, roots[i], RootStart(per, i), RootEnd(per, i), 1);
    RootsLayoutUnfold(t, rank, sizes, spacing, roots, per, i, i + 1);
    UnionRight(RootsLayout(t, rank, sizes, spacing, roots, per, i), sub, k);
    LaterRootsKeep(t, rank, sizes, spacing, roots, per, |roots|, i, i + 1, k);
  }

  lemma {:induction false} LaterRootsKeep(t: Table, rank: map<string, nat>, sizes: map<string, nat>, spacing: real,
                                          roots: seq<string>, per: real, j: nat, i: nat, i1: nat, k: string)
    requires Acyclic(t, rank) && RootsCovered(t, rank, sizes, roots) && RootList(t, roots)
    requires i1 == i + 1 && i1 <= j <= |roots| && k in Block(t, rank, roots[i])
    requires k in RootsLayout(t, rank, sizes, spacing, roots, per, i1)
    ensures k in RootsLayout(t, rank, sizes, spacing, roots, per, j)
    ensures RootsLayout(t, rank, sizes, spacing, roots, per, j)[k] == RootsLayout(t, rank, sizes, spacing, roots, per, i1)[k]
    decreases j
  {
    if j != i1 {
      var j0 := j - 1;
      RootsLayoutUnfold(t, rank, sizes, spacing, roots, per, j0, j);
      LaterRootsKeep(t, rank, sizes, spacing, roots, per, j0, i, i1, k);
      var other := Layout(t, rank, sizes, spacing, roots[j0], RootStart(per, j0), RootEnd(per, j0), 1);
      assert k !in other by {
        LayoutKeys(t, rank, sizes, spacing, roots[j0], RootStart(per, j0), RootEnd(per, j0), 1);
        if k in Block(t, rank, roots[j0]) {
          SameParentDisjoint(t, rank, roots[i], roots[j0], k);
        }
      }
      UnionKeeps(RootsLayout(t, rank, sizes, spacing, roots, per, j), RootsLayout(t, rank, sizes, spacing, roots, per, j0),
                 other, RootsLayout(t, rank, sizes, spacing, roots, per, i1), k);
    }
  }

  // ---------------------------------------------------------------------------
  // Angular speeds (solar_layout.py:33-39)

  /** No placed genre has `r + epsilon` equal to 0. */
  predicate Divisible(layout: map<string, Placement>, epsilon: real) {
    forall k :: k in layout ==> layout[k].r + epsilon != 0.0
  }

  /** Some genre of `placed` sits on a ring whose radius plus epsilon is 0. */
  ghost predicate RingHitsZero(data: Table, rank: map<string, nat>, placed: set<string>, spacing: real, epsilon: real)
    requires Acyclic(data, rank)
  {
    exists k :: k in placed && k in data.rows && RingRadius(1 + |Ancestors(data, rank, k)|, spacing) + epsilon == 0.0
  }

  /** solar_layout.py:33-39: one angular speed per placed genre, inversely
      proportional to its radius plus epsilon; a genre with `r + epsilon`
      equal to 0 makes the division raise. */
  function AssignAngularSpeeds(layout: map<string, Placement>, baseSpeed: real, epsilon: real)
    : (res: Result<map<string, real>, LayoutError>)
    ensures res.Ok? <==> Divisible(layout, epsilon)
    ensures res.Err? ==> res.error == ZeroDivision
    ensures res.Ok? ==> res.value.Keys == layout.Keys
    ensures res.Ok? ==> forall k :: k in layout ==> res.value[k] * (layout[k].r + epsilon) == baseSpeed
  {
    if exists k :: k in layout && layout[k].r + epsilon == 0.0 then Err(ZeroDivision)
    else Ok(map k | k in layout :: baseSpeed / (layout[k].r + epsilon))
  }

  /** The angular speed is positive, and strictly smaller for a larger
      radius, when the base speed and epsilon are positive and radii are not
      negative. */
  lemma OuterPlanetsSlower(baseSpeed: real, epsilon: real, omega1: real, r1: real, omega2: real, r2: real)
    requires baseSpeed > 0.0 && epsilon > 0.0 && 0.0 <= r1 < r2
    requires omega1 * (r1 + epsilon) == baseSpeed && omega2 * (r2 + epsilon) == baseSpeed
    ensures 0.0 < omega2 < omega1
  {
    assert omega2 > 0.0;
    assert omega1 * (r1 + epsilon) == omega2 * (r2 + epsilon);
    assert omega2 * (r2 + epsilon) > omega2 * (r1 + epsilon);
  }

  // ---------------------------------------------------------------------------
  // Planet records (solar_layout.py:112-123)

  /** `d.get(k)` */
  function Get<V>(m: map<string, V>, k: string): Option<V> {
    if k in m then Some(m[k]) else None
  }

  /** A float the script writes, or None. */
  function RealOrNull(v: Option<real>): Value {
    if v.Some? then Real(v.value) else Null
  }

  /** The keys main removes from or writes into a planet record. */
  const Written: set<string> := {"x", "y", "z", "r", "theta0", "depth", "omega", "mass"}

  /** The planet record main builds from a genre's attributes, its layout
      entry, its angular speed and its subtree size, each if present. */
  function PlanetRecord(attrs: Record, place: Option<Placement>, omega: Option<real>, size: Option<nat>): (rec: Record)
    ensures "r" in rec && "theta0" in rec && "depth" in rec && "omega" in rec && "mass" in rec
    ensures "x" !in rec && "y" !in rec && "z" !in rec
  {
    (attrs - {"x", "y", "z"})
      ["r" := if place.Some? then Real(place.value.r) else Null]
      ["theta0" := if place.Some? then Real(place.value.theta0) else Null]
      ["depth" := if place.Some? then Int(place.value.depth) else Null]
      ["omega" := RealOrNull(omega)]
      ["mass" := if "mass" in attrs then attrs["mass"] else Int(if size.Some? then size.value else 1)]
  }

  /** A planet record keeps every attribute main neither removes nor
      writes, with its value, and adds none of its own. */
  lemma PlanetRecordKeeps(attrs: Record, place: Option<Placement>, omega: Option<real>, size: Option<nat>)
    ensures var rec := PlanetRecord(attrs, place, omega, size);
      && (forall a :: a !in Written ==> (a in rec <==> a in attrs))
      && (forall a :: a in attrs && a !in Written ==> rec[a] == attrs[a])
  {
  }

  /** solar_layout.py:113-122: the planet record of one genre, built by the
      same in-place writes to the copied dict that main performs one after
      another; `PlanetRecord` is the value those writes leave. */
  method MakePlanet(name: string, attrs: Record, allLayout: map<string, Placement>, omegaMap: map<string, real>,
                    sizes: map<string, nat>)
    returns (planet: Record)
    ensures planet == PlanetRecord(attrs, Get(allLayout, name), Get(omegaMap, name), Get(sizes, name))
  {
    planet := attrs - {"x", "y", "z"};
    var place := Get(allLayout, name);
    planet := planet["r" := if place.Some? then Real(place.value.r) else Null];
    planet := planet["theta0" := if place.Some? then Real(place.value.theta0) else Null];
    planet := planet["depth" := if place.Some? then Int(place.value.depth) else Null];
    planet := planet["omega" := RealOrNull(Get(omegaMap, name))];
    planet := planet["mass" := if "mass" in attrs then attrs["mass"] else Int(if name in sizes then sizes[name] else 1)];
  }

  /** Every genre's planet record. */
  function PlanetRows(data: Table, allLayout: map<string, Placement>, omegaMap: map<string, real>,
                      sizes: map<string, nat>): map<string, Record>
  {
    map k | k in data.rows :: PlanetRecord(data.rows[k], Get(allLayout, k), Get(omegaMap, k), Get(sizes, k))
  }

  /** solar_layout.py:112-123: one planet record per genre, in dict order. */
  method BuildPlanets(data: Table, allLayout: map<string, Placement>, omegaMap: map<string, real>,
                      sizes: map<string, nat>)
    returns (planets: Table)
    requires WellFormed(data)
    ensures planets == Table(data.order, PlanetRows(data, allLayout, omegaMap, sizes))
  {
    var rows: map<string, Record> := map[];
    for i := 0 to |data.order|
      invariant forall k :: k in data.order[..i] ==> k in rows
      invariant RowsDone(data, rows, allLayout, omegaMap, sizes)
    {
      var name := data.order[i];
      var planet := MakePlanet(name, data.rows[name], allLayout, omegaMap, sizes);
      RowsStep(data, rows, allLayout, omegaMap, sizes, name, planet, rows[name := planet]);
      OrderStep(data.order, rows, i, name, rows[name := planet]);
      rows := rows[name := planet];
    }
    assert data.order[..|data.order|] == data.order;
    planets := Table(data.order, rows);
    SameRows(data, rows, allLayout, omegaMap, sizes);
  }

  /** Every record built so far is the planet record of its genre. */
  ghost predicate RowsDone(data: Table, rows: map<string, Record>, allLayout: map<string, Placement>,
                           omegaMap: map<string, real>, sizes: map<string, nat>)
  {
    forall k :: k in rows ==>
      k in data.rows && rows[k] == PlanetRecord(data.rows[k], Get(allLayout, k), Get(omegaMap, k), Get(sizes, k))
  }

  /** One more genre of the list gets its planet record. */
  lemma RowsStep(data: Table, rows: map<string, Record>, allLayout: map<string, Placement>,
                 omegaMap: map<string, real>, sizes: map<string, nat>, name: string, planet: Record,
                 next: map<string, Record>)
    requires RowsDone(data, rows, allLayout, omegaMap, sizes) && name in data.rows
    requires planet == PlanetRecord(data.rows[name], Get(allLayout, name), Get(omegaMap, name), Get(sizes, name))
    requires next == rows[name := planet]
    ensures RowsDone(data, next, allLayout, omegaMap, sizes)
  {
    forall k | k in next
      ensures k in data.rows && next[k] == PlanetRecord(data.rows[k], Get(allLayout, k), Get(omegaMap, k), Get(sizes, k))
    {
      if k != name {
        assert next[k] == rows[k];
      }
    }
  }

  /** ... and the genres of the list up to it all have one. */
  lemma OrderStep(order: seq<string>, rows: map<string, Record>, i: nat, name: string, next: map<string, Record>)
    requires i < |order| && name == order[i]
    requires forall k :: k in order[..i] ==> k in rows
    requires next.Keys == rows.Keys + {name}
    ensures forall k :: k in order[..i + 1] ==> k in next
  {
    assert order[..i + 1] == order[..i] + [name];
  }

  lemma SameRows(data: Table, rows: map<string, Record>, allLayout: map<string, Placement>,
                 omegaMap: map<string, real>, sizes: map<string, nat>)
    requires WellFormed(data)
    requires forall k :: k in data.order ==> k in rows
    requires RowsDone(data, rows, allLayout, omegaMap, sizes)
    ensures rows == PlanetRows(data, allLayout, omegaMap, sizes)
  {
    MapsEqual(rows, PlanetRows(data, allLayout, omegaMap, sizes));
  }

  /** Two maps with the same keys and the same value at each key are equal. */
  lemma MapsEqual<K, V>(x: map<K, V>, y: map<K, V>)
    requires x.Keys == y.Keys && forall k :: k in x ==> x[k] == y[k]
    ensures x == y
  {
  }

  // ---------------------------------------------------------------------------
  // main (solar_layout.py:75-123)

  /** The sizes main computes: every genre under some root, with its
      subtree's node count. */
  ghost function SystemSizes(t: Table, rank: map<string, nat>, roots: seq<string>): map<string, nat>
    requires Acyclic(t, rank)
  {
    map k | k in UnionBlocks(t, rank, roots) :: |Block(t, rank, k)|
  }

  lemma SystemSizesCover(t: Table, rank: map<string, nat>, roots: seq<string>)
    requires Acyclic(t, rank) && forall r :: r in roots ==> r in t.rows
    ensures RootsCovered(t, rank, SystemSizes(t, rank, roots), roots)
  {
    var sizes := SystemSizes(t, rank, roots);
    forall j | 0 <= j < |roots|
      ensures SizesCover(t, rank, sizes, roots[j])
    {
      SizesPositive(t, rank, sizes, roots, j);
    }
  }

  /** The layout main computes, given its sizes. */
  ghost function SystemLayout(t: Table, rank: map<string, nat>, spacing: real, fullCircle: real): map<string, Placement>
    requires Acyclic(t, rank) && Roots(t, t.order) != []
  {
    var roots := Roots(t, t.order);
    var sizes := SystemSizes(t, rank, roots);
    RootsSpec(t);
    SystemSizesCover(t, rank, roots);
    RootsLayout(t, rank, sizes, spacing, roots, fullCircle / |roots| as real, |roots|)
  }

  /** What main writes for a parsed dict, or the exception it raises. */
  ghost function SystemPlanets(data: Table, rank: map<string, nat>, fullCircle: real, spacing: real,
                               baseSpeed: real, epsilon: real): (res: Result<Table, LayoutError>)
    requires Acyclic(data, rank)
    ensures res == Err(Unhashable) <==> !HashableParents(data, data.order)
    ensures res == Err(NoRoots) <==> HashableParents(data, data.order) && Roots(data, data.order) == []
    ensures res.Ok? ==> res.value.order == data.order && res.value.rows.Keys == data.rows.Keys
  {
    var roots := Roots(data, data.order);
    if !HashableParents(data, data.order) then Err(Unhashable)
    else if roots == [] then Err(NoRoots)
    else
      var layout := SystemLayout(data, rank, spacing, fullCircle);
      var omega := AssignAngularSpeeds(layout, baseSpeed, epsilon);
      if omega.Err? then Err(omega.error)
      else
        Ok(Table(data.order, PlanetRows(data, layout, omega.value, SystemSizes(data, rank, roots))))
  }

  /** solar_layout.py:75-123 on a parsed dict. */
  method GeneratePlanets(data: Table, ghost rank: map<string, nat>, fullCircle: real, spacing: real,
                         baseSpeed: real, epsilon: real)
    returns (res: Result<Table, LayoutError>)
    requires Acyclic(data, rank)
    ensures res == SystemPlanets(data, rank, fullCircle, spacing, baseSpeed, epsilon)
  {
    var built := BuildChildrenMap(data);
    if built.None? {
      return Err(Unhashable);
    }
    var tree := built.value;
    var roots := Roots(data, data.order);
    if roots == [] {
      return Err(NoRoots);
    }
    RootsSpec(data);
    var sizes := RootSizes(data, tree, rank, roots);
    SameSizes(data, rank, roots, sizes);
    SystemSizesCover(data, rank, roots);
    var allLayout := LayoutRoots(data, tree, rank, roots, sizes, fullCircle, spacing);
    SameLayout(data, rank, spacing, fullCircle, sizes, allLayout);
    var omegaMap := AssignAngularSpeeds(allLayout, baseSpeed, epsilon);
    if omegaMap.Err? {
      return Err(omegaMap.error);
    }
    var planets := BuildPlanets(data, allLayout, omegaMap.value, sizes);
    return Ok(planets);
  }

  lemma SameSizes(t: Table, rank: map<string, nat>, roots: seq<string>, sizes: map<string, nat>)
    requires Acyclic(t, rank)
    requires sizes.Keys == UnionBlocks(t, rank, roots)
    requires forall k :: k in sizes ==> sizes[k] == |Block(t, rank, k)|
    ensures sizes == SystemSizes(t, rank, roots)
  {
    MapsEqual(sizes, SystemSizes(t, rank, roots));
  }

  lemma SameLayout(data: Table, rank: map<string, nat>, spacing: real, fullCircle: real,
                   sizes: map<string, nat>, allLayout: map<string, Placement>)
    requires Acyclic(data, rank) && Roots(data, data.order) != []
    requires sizes == SystemSizes(data, rank, Roots(data, data.order))
    requires RootsCovered(data, rank, sizes, Roots(data, data.order))
    requires allLayout == RootsLayout(data, rank, sizes, spacing, Roots(data, data.order),
                                      fullCircle / |Roots(data, data.order)| as real, |Roots(data, data.order)|)
    ensures allLayout == SystemLayout(data, rank, spacing, fullCircle)
  {
  }

  /** Every placed genre sits on ring 1 plus its number of ancestors, at
      that ring's radius. */
  lemma {:induction false} RootsLayoutRings(t: Table, rank: map<string, nat>, sizes: map<string, nat>, spacing: real,
                                            roots: seq<string>, per: real, i: nat)
    requires Acyclic(t, rank) && RootsCovered(t, rank, sizes, roots) && RootList(t, roots) && i <= |roots|
    ensures OnRings(t, rank, spacing, RootsLayout(t, rank, sizes, spacing, roots, per, i), 1)
    ensures RadiusByRing(RootsLayout(t, rank, sizes, spacing, roots, per, i), spacing)
  {
    if i != 0 {
      var i0 := i - 1;
      RootsLayoutUnfold(t, rank, sizes, spacing, roots, per, i0, i);
      RootsLayoutRings(t, rank, sizes, spacing, roots, per, i0);
      var root := roots[i0];
      assert root in roots;
      AncestorsStep(t, rank, root);
      var part := Layout(t, rank, sizes, spacing, root, RootStart(per, i0), RootEnd(per, i0), 1);
      LayoutOnRings(t, rank, sizes, spacing, root, RootStart(per, i0), RootEnd(per, i0), 1, 1);
      LayoutRadiusByRing(t, rank, sizes, spacing, root, RootStart(per, i0), RootEnd(per, i0), 1);
      OnRingsUnion(t, rank, spacing, RootsLayout(t, rank, sizes, spacing, roots, per, i0), part, 1);
      RadiusByRingUnion(RootsLayout(t, rank, sizes, spacing, roots, per, i0), part, spacing);
    }
  }

  /** Exactly the genres under some root are placed, each on ring 1 plus
      its number of ancestors, at that ring's radius. */
  lemma SystemLayoutRings(data: Table, rank: map<string, nat>, spacing: real, fullCircle: real)
    requires Acyclic(data, rank) && Roots(data, data.order) != []
    ensures SystemLayout(data, rank, spacing, fullCircle).Keys == UnionBlocks(data, rank, Roots(data, data.order))
    ensures OnRings(data, rank, spacing, SystemLayout(data, rank, spacing, fullCircle), 1)
    ensures RadiusByRing(SystemLayout(data, rank, spacing, fullCircle), spacing)
  {
    var roots := Roots(data, data.order);
    var sizes := SystemSizes(data, rank, roots);
    RootsSpec(data);
    SystemSizesCover(data, rank, roots);
    var per := fullCircle / |roots| as real;
    RootsLayoutKeys(data, rank, sizes, spacing, roots, per, |roots|);
    assert roots[..|roots|] == roots;
    RootsLayoutRings(data, rank, sizes, spacing, roots, per, |roots|);
  }

  /** The genre under the i-th root is placed on ring 1 plus its number of
      ancestors, at that ring's radius, inside the root's sector. */
  lemma PlacedLayout(data: Table, rank: map<string, nat>, spacing: real, fullCircle: real, i: nat, k: string)
    requires Acyclic(data, rank)
    requires i < |Roots(data, data.order)| && k in Block(data, rank, Roots(data, data.order)[i])
    ensures var layout := SystemLayout(data, rank, spacing, fullCircle);
      var per := fullCircle / |Roots(data, data.order)| as real;
      && k in data.rows && k in layout
      && layout[k].depth == 1 + |Ancestors(data, rank, k)|
      && layout[k].r == RingRadius(layout[k].depth, spacing)
      && (fullCircle >= 0.0 ==> RootStart(per, i) <= layout[k].theta0 <= RootEnd(per, i))
  {
    var roots := Roots(data, data.order);
    var per := fullCircle / |roots| as real;
    var sizes := SystemSizes(data, rank, roots);
    RootsSpec(data);
    SystemSizesCover(data, rank, roots);
    SystemLayoutRings(data, rank, spacing, fullCircle);
    var start, end := RootStart(per, i), RootEnd(per, i);
    RootsLayoutAt(data, rank, sizes, spacing, roots, per, i, k);
    if fullCircle >= 0.0 {
      RootSectorsTile(fullCircle, |roots|, i, i + 1);
      LayoutInSector(data, rank, sizes, spacing, roots[i], start, end, 1);
    }
  }

  /** A placed genre's parent is placed too, one ring further in: the
      child's radius exceeds the parent's by exactly the spacing. */
  lemma ChildOneRingOut(data: Table, rank: map<string, nat>, spacing: real, fullCircle: real, k: string)
    requires Acyclic(data, rank) && Roots(data, data.order) != []
    requires k in SystemLayout(data, rank, spacing, fullCircle) && k in data.rows && ParentKey(data, k).Some?
    ensures var layout := SystemLayout(data, rank, spacing, fullCircle);
      var p := ParentKey(data, k).value;
      && p in layout
      && layout[k].depth == layout[p].depth + 1
      && layout[k].r == layout[p].r + spacing
  {
    var layout := SystemLayout(data, rank, spacing, fullCircle);
    var roots := Roots(data, data.order);
    var p := ParentKey(data, k).value;
    SystemLayoutRings(data, rank, spacing, fullCircle);
    var j := UnionBlocksWitness(data, rank, roots, k);
    RootsSpec(data);
    assert roots[j] in roots;
    assert k != roots[j];
    UnionBlocksContains(data, rank, roots, j, p);
    AncestorsStep(data, rank, k);
    RingStep(layout[p].depth, spacing);
  }

  lemma RingStep(depth: int, spacing: real)
    ensures RingRadius(depth + 1, spacing) == RingRadius(depth, spacing) + spacing
  {
  }

  /** The record main writes for a genre, when it writes any. */
  lemma PlanetOf(data: Table, rank: map<string, nat>, fullCircle: real, spacing: real,
                 baseSpeed: real, epsilon: real, k: string)
    requires Acyclic(data, rank) && k in data.rows
    requires SystemPlanets(data, rank, fullCircle, spacing, baseSpeed, epsilon).Ok?
    ensures Roots(data, data.order) != []
    ensures var layout := SystemLayout(data, rank, spacing, fullCircle);
      var omega := AssignAngularSpeeds(layout, baseSpeed, epsilon);
      var planets := SystemPlanets(data, rank, fullCircle, spacing, baseSpeed, epsilon).value;
      && omega.Ok? && k in planets.rows
      && planets.rows[k] == PlanetRecord(data.rows[k], Get(layout, k), Get(omega.value, k),
                                         Get(SystemSizes(data, rank, Roots(data, data.order)), k))
  {
    var layout := SystemLayout(data, rank, spacing, fullCircle);
    var omega := AssignAngularSpeeds(layout, baseSpeed, epsilon);
    var sizes := SystemSizes(data, rank, Roots(data, data.order));
    assert omega.Ok? && SystemPlanets(data, rank, fullCircle, spacing, baseSpeed, epsilon)
                        == Ok(Table(data.order, PlanetRows(data, layout, omega.value, sizes)));
    PlanetRowsAt(data, layout, omega.value, sizes, k);
  }

  lemma PlanetRowsAt(data: Table, allLayout: map<string, Placement>, omegaMap: map<string, real>,
                     sizes: map<string, nat>, k: string)
    requires k in data.rows
    ensures k in PlanetRows(data, allLayout, omegaMap, sizes)
    ensures PlanetRows(data, allLayout, omegaMap, sizes)[k]
            == PlanetRecord(data.rows[k], Get(allLayout, k), Get(omegaMap, k), Get(sizes, k))
  {
  }

  /** main raises ZeroDivisionError exactly when every parent hashes, there
      are roots, and some placed genre's ring radius plus epsilon is 0. */
  lemma PlanetsRaise(data: Table, rank: map<string, nat>, fullCircle: real, spacing: real,
                     baseSpeed: real, epsilon: real)
    requires Acyclic(data, rank)
    ensures SystemPlanets(data, rank, fullCircle, spacing, baseSpeed, epsilon) == Err(ZeroDivision) <==>
      && HashableParents(data, data.order)
      && Roots(data, data.order) != []
      && RingHitsZero(data, rank, UnionBlocks(data, rank, Roots(data, data.order)), spacing, epsilon)
  {
    if Roots(data, data.order) != [] {
      LayoutRaise(data, rank, spacing, fullCircle, epsilon);
      SpeedsRaise(data, rank, fullCircle, spacing, baseSpeed, epsilon);
    }
  }

  lemma LayoutRaise(data: Table, rank: map<string, nat>, spacing: real, fullCircle: real, epsilon: real)
    requires Acyclic(data, rank) && Roots(data, data.order) != []
    ensures Divisible(SystemLayout(data, rank, spacing, fullCircle), epsilon) <==>
      !RingHitsZero(data, rank, UnionBlocks(data, rank, Roots(data, data.order)), spacing, epsilon)
  {
    SystemLayoutRings(data, rank, spacing, fullCircle);
    RingsRaise(data, rank, spacing, epsilon, SystemLayout(data, rank, spacing, fullCircle),
               UnionBlocks(data, rank, Roots(data, data.order)));
  }

  lemma SpeedsRaise(data: Table, rank: map<string, nat>, fullCircle: real, spacing: real,
                    baseSpeed: real, epsilon: real)
    requires Acyclic(data, rank) && Roots(data, data.order) != []
    ensures SystemPlanets(data, rank, fullCircle, spacing, baseSpeed, epsilon) == Err(ZeroDivision) <==>
      HashableParents(data, data.order) &&
      AssignAngularSpeeds(SystemLayout(data, rank, spacing, fullCircle), baseSpeed, epsilon).Err?
  {
  }

  lemma RingsRaise(data: Table, rank: map<string, nat>, spacing: real, epsilon: real,
                   layout: map<string, Placement>, placed: set<string>)
    requires Acyclic(data, rank) && layout.Keys == placed
    requires OnRings(data, rank, spacing, layout, 1) && RadiusByRing(layout, spacing)
    ensures Divisible(layout, epsilon) <==> !RingHitsZero(data, rank, placed, spacing, epsilon)
  {
    if exists k :: k in placed && k in data.rows && RingRadius(1 + |Ancestors(data, rank, k)|, spacing) + epsilon == 0.0 {
      var k :| k in placed && k in data.rows && RingRadius(1 + |Ancestors(data, rank, k)|, spacing) + epsilon == 0.0;
      assert layout[k].r + epsilon == 0.0;
    }
    if exists k :: k in layout && layout[k].r + epsilon == 0.0 {
      var k :| k in layout && layout[k].r + epsilon == 0.0;
      assert RingRadius(1 + |Ancestors(data, rank, k)|, spacing) + epsilon == 0.0;
    }
  }

  /** The record of a placed genre: ring `ring` at that ring's radius, a
      starting angle in `[lo, hi]` when the full circle is not negative, an
      angular speed inversely proportional to its radius plus epsilon, and
      its own mass or else `size`. */
  ghost predicate PlacedRecord(p: Record, attrs: Record, ring: int, size: nat, spacing: real, baseSpeed: real,
                               epsilon: real, fullCircle: real, lo: real, hi: real) {
    && "depth" in p && p["depth"] == Int(ring)
    && "r" in p && p["r"] == Real(RingRadius(ring, spacing))
    && "theta0" in p && p["theta0"].Real?
    && (fullCircle >= 0.0 ==> lo <= p["theta0"].r <= hi)
    && "omega" in p && p["omega"].Real?
    && p["omega"].r * (RingRadius(ring, spacing) + epsilon) == baseSpeed
    && "mass" in p
    && p["mass"] == (if "mass" in attrs then attrs["mass"] else Int(size))
  }

  /** The planet of a genre under the i-th root: its ring is 1 plus its
      number of ancestors, its radius that ring times the spacing, its
      starting angle inside the root's sector, its angular speed inversely
      proportional to its radius plus epsilon, and its mass the given one or
      else its subtree's node count. */
  lemma PlacedPlanet(data: Table, rank: map<string, nat>, fullCircle: real, spacing: real,
                     baseSpeed: real, epsilon: real, i: nat, k: string)
    requires Acyclic(data, rank)
    requires SystemPlanets(data, rank, fullCircle, spacing, baseSpeed, epsilon).Ok?
    requires i < |Roots(data, data.order)| && k in Block(data, rank, Roots(data, data.order)[i])
    ensures var planets := SystemPlanets(data, rank, fullCircle, spacing, baseSpeed, epsilon).value;
      var per := fullCircle / |Roots(data, data.order)| as real;
      var ring := 1 + |Ancestors(data, rank, k)|;
      && k in data.rows && k in planets.rows
      && PlacedRecord(planets.rows[k], data.rows[k], ring, |Block(data, rank, k)|, spacing, baseSpeed, epsilon,
                      fullCircle, RootStart(per, i), RootEnd(per, i))
  {
    var roots := Roots(data, data.order);
    var layout := SystemLayout(data, rank, spacing, fullCircle);
    var sizes := SystemSizes(data, rank, roots);
    PlacedLayout(data, rank, spacing, fullCircle, i, k);
    PlanetOf(data, rank, fullCircle, spacing, baseSpeed, epsilon, k);
    UnionBlocksContains(data, rank, roots, i, k);
    var per := fullCircle / |roots| as real;
    PlacedFields(SystemPlanets(data, rank, fullCircle, spacing, baseSpeed, epsilon).value.rows[k], data.rows[k],
                 layout, AssignAngularSpeeds(layout, baseSpeed, epsilon), sizes, k,
                 1 + |Ancestors(data, rank, k)|, |Block(data, rank, k)|,
                 spacing, baseSpeed, epsilon, fullCircle, RootStart(per, i), RootEnd(per, i));
  }

  lemma PlacedFields(p: Record, attrs: Record, layout: map<string, Placement>,
                     omega: Result<map<string, real>, LayoutError>, sizes: map<string, nat>, k: string,
                     ring: int, size: nat, spacing: real, baseSpeed: real, epsilon: real,
                     fullCircle: real, lo: real, hi: real)
    requires omega == AssignAngularSpeeds(layout, baseSpeed, epsilon) && omega.Ok?
    requires p == PlanetRecord(attrs, Get(layout, k), Get(omega.value, k), Get(sizes, k))
    requires k in layout && layout[k].depth == ring && layout[k].r == RingRadius(layout[k].depth, spacing)
    requires fullCircle >= 0.0 ==> lo <= layout[k].theta0 <= hi
    requires k in sizes && sizes[k] == size
    ensures PlacedRecord(p, attrs, ring, size, spacing, baseSpeed, epsilon, fullCircle, lo, hi)
  {
    assert omega.value[k] * (layout[k].r + epsilon) == baseSpeed;
  }

  /** A genre under no root (its parent chain ends in a genre whose parent
      attribute is truthy but names no genre) gets no placement and no
      speed, and mass 1 unless it has its own. */
  lemma UnplacedPlanet(data: Table, rank: map<string, nat>, fullCircle: real, spacing: real,
                       baseSpeed: real, epsilon: real, k: string)
    requires Acyclic(data, rank)
    requires SystemPlanets(data, rank, fullCircle, spacing, baseSpeed, epsilon).Ok?
    requires k in data.rows && k !in UnionBlocks(data, rank, Roots(data, data.order))
    ensures var planets := SystemPlanets(data, rank, fullCircle, spacing, baseSpeed, epsilon).value;
      && k in planets.rows
      && var p := planets.rows[k];
      && "r" in p && p["r"] == Null
      && "theta0" in p && p["theta0"] == Null
      && "depth" in p && p["depth"] == Null
      && "omega" in p && p["omega"] == Null
      && "mass" in p && p["mass"] == (if "mass" in data.rows[k] then data.rows[k]["mass"] else Int(1))
  {
    var layout := SystemLayout(data, rank, spacing, fullCircle);
    PlanetOf(data, rank, fullCircle, spacing, baseSpeed, epsilon, k);
    SystemLayoutRings(data, rank, spacing, fullCircle);
    UnplacedFields(SystemPlanets(data, rank, fullCircle, spacing, baseSpeed, epsilon).value.rows[k], data.rows[k],
                   layout, AssignAngularSpeeds(layout, baseSpeed, epsilon).value,
                   SystemSizes(data, rank, Roots(data, data.order)), k);
  }

  lemma UnplacedFields(p: Record, attrs: Record, layout: map<string, Placement>, omega: map<string, real>,
                       sizes: map<string, nat>, k: string)
    requires p == PlanetRecord(attrs, Get(layout, k), Get(omega, k), Get(sizes, k))
    requires k !in layout && omega.Keys == layout.Keys && k !in sizes
    ensures && "r" in p && p["r"] == Null
      && "theta0" in p && p["theta0"] == Null
      && "depth" in p && p["depth"] == Null
      && "omega" in p && p["omega"] == Null
      && "mass" in p && p["mass"] == (if "mass" in attrs then attrs["mass"] else Int(1))
  {
  }
}
