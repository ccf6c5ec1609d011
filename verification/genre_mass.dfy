/**
 * scripts/genre_mass.py: give every genre a "mass", the number of its
 * ancestors plus the number of its descendants in the parent forest.
 *
 * The script's globals (`genres`, `children_map`) become parameters; the
 * dict it rewrites in place is returned as a new table.  Termination of the
 * two walks rests on the parent chains being acyclic, witnessed by a ghost
 * `rank` (see Forest.Acyclic).
 */
module GenreMass {
  import opened Util
  import opened Forest

  /** genre_mass.py:15-21: count the descendants of `g` by recursing into
      its children; the result is the size of g's subtree less g itself. */
  method CountDescendants(t: Table, childrenMap: map<Value, seq<string>>,
                          ghost rank: map<string, nat>, g: string)
    returns (count: nat)
    requires Acyclic(t, rank) && IsChildrenMapOf(t, t.order, childrenMap) && g in t.rows
    ensures count == |Descendants(t, rank, g)|
    ensures count + 1 == |Block(t, rank, g)|
    decreases |t.order| - rank[g]
  {
    var children := ChildrenOf(childrenMap, g);
    ChildrenOfKids(t, childrenMap, g);
    count := |children|;
    for i := 0 to |children|
      invariant count == |children| - i + BlockTotal(t, rank, children[..i])
    {
      var child := children[i];
      KidRank(t, rank, g, i);
      var d := CountDescendants(t, childrenMap, rank, child);
      BlocksStep(t, rank, children, i, i + 1);
      count := count + d;
    }
    CountDone(t, rank, g, children, count);
  }

  /** The children's subtrees make up g's proper descendants. */
  lemma CountDone(t: Table, rank: map<string, nat>, g: string, cs: seq<string>, count: int)
    requires Acyclic(t, rank) && g in t.rows && cs == Kids(t, g)
    requires count == BlockTotal(t, rank, cs[..|cs|])
    ensures count == |Descendants(t, rank, g)| && count + 1 == |Block(t, rank, g)|
  {
    assert cs[..|cs|] == cs;
    DescendantsAreKidBlocks(t, rank, g);
    BlockSize(t, rank, g);
  }

  /** genre_mass.py:23-30: walk up the parent attributes, counting steps. */
  method CountAncestors(t: Table, ghost rank: map<string, nat>, name: string)
    returns (count: nat)
    requires Acyclic(t, rank) && Closed(t) && name in t.rows
    ensures count == |Ancestors(t, rank, name)|
  {
    var current := name;
    count := 0;
    while Truthy(ParentAttr(t.rows[current]))
      invariant current in t.rows
      invariant count + |Ancestors(t, rank, current)| == |Ancestors(t, rank, name)|
      decreases rank[current]
    {
      AncestorsStep(t, rank, current);
      count := count + 1;
      current := ParentAttr(t.rows[current]).s;
    }
    AncestorsStep(t, rank, current);
  }

  /** The mass the script assigns to genre `k`. */
  ghost function Mass(t: Table, rank: map<string, nat>, k: string): nat
    requires Acyclic(t, rank) && k in t.rows
  {
    |Ancestors(t, rank, k)| + |Descendants(t, rank, k)|
  }

  /** A genre's attributes with "mass" set as the script sets it. */
  ghost function WithMass(t: Table, rank: map<string, nat>, k: string): Record
    requires Acyclic(t, rank) && k in t.rows
  {
    t.rows[k]["mass" := Int(Mass(t, rank, k))]
  }

  /** genre_mass.py:34-36: the mass of one genre.  The script reads parents
      from the dict it is updating; only "mass" has changed there, so the
      original table gives the same walk. */
  method MassOf(genres: Table, childrenMap: map<Value, seq<string>>,
                ghost rank: map<string, nat>, name: string)
    returns (mass: nat)
    requires Acyclic(genres, rank) && Closed(genres)
    requires IsChildrenMapOf(genres, genres.order, childrenMap) && name in genres.rows
    ensures mass == Mass(genres, rank, name)
  {
    var ancestors := CountAncestors(genres, rank, name);
    var descendants := CountDescendants(genres, childrenMap, rank, name);
    mass := ancestors + descendants;
  }

  /** genre_mass.py:8-13 and 32-37: build the children map, then set the
      "mass" attribute of every genre; nothing else in the table changes. */
  method AssignMass(genres: Table, ghost rank: map<string, nat>) returns (out: Table)
    requires Acyclic(genres, rank) && Closed(genres)
    ensures out.order == genres.order
    ensures out.rows.Keys == genres.rows.Keys
    ensures forall k :: k in genres.rows ==> out.rows[k] == WithMass(genres, rank, k)
  {
    ClosedHashable(genres);
    var built := BuildChildrenMap(genres);
    var childrenMap := built.value;
    var rows := genres.rows;
    for i := 0 to |genres.order|
      invariant MassState(genres, rank, rows, i)
    {
      var name := genres.order[i];
      var mass := MassOf(genres, childrenMap, rank, name);
      MassStep(genres, rank, rows, i, i + 1, mass, rows[name := rows[name]["mass" := Int(mass)]]);
      rows := rows[name := rows[name]["mass" := Int(mass)]];
    }
    MassDone(genres, rank, rows);
    out := Table(genres.order, rows);
  }

  /** The loop state of genre_mass.py:32-37 after `i` genres: those have
      their mass, the rest are as they were. */
  ghost predicate MassState(genres: Table, rank: map<string, nat>, rows: map<string, Record>, i: nat)
    requires Acyclic(genres, rank)
  {
    && rows.Keys == genres.rows.Keys
    && i <= |genres.order|
    && (forall j :: 0 <= j < i ==> rows[genres.order[j]] == WithMass(genres, rank, genres.order[j]))
    && (forall j :: i <= j < |genres.order| ==> rows[genres.order[j]] == genres.rows[genres.order[j]])
  }

  lemma MassStep(genres: Table, rank: map<string, nat>, rows: map<string, Record>, i: nat, i1: nat,
                 mass: nat, next: map<string, Record>)
    requires Acyclic(genres, rank) && MassState(genres, rank, rows, i) && i < |genres.order| && i1 == i + 1
    requires mass == Mass(genres, rank, genres.order[i])
    requires next == rows[genres.order[i] := rows[genres.order[i]]["mass" := Int(mass)]]
    ensures MassState(genres, rank, next, i1)
  {
    assert forall j :: 0 <= j < |genres.order| && j != i ==> genres.order[j] != genres.order[i];
  }

  lemma MassDone(genres: Table, rank: map<string, nat>, rows: map<string, Record>)
    requires Acyclic(genres, rank) && MassState(genres, rank, rows, |genres.order|)
    ensures rows.Keys == genres.rows.Keys
    ensures forall k :: k in genres.rows ==> rows[k] == WithMass(genres, rank, k)
  {
    forall k | k in genres.rows
      ensures rows[k] == WithMass(genres, rank, k)
    {
      var j :| 0 <= j < |genres.order| && genres.order[j] == k;
    }
  }

  /** A genre with no children has no descendants, whatever its ancestry. */
  lemma LeafHasNoDescendants(t: Table, rank: map<string, nat>, g: string)
    requires Acyclic(t, rank) && g in t.rows && Kids(t, g) == []
    ensures Descendants(t, rank, g) == {}
  {
    DescendantsAreKidBlocks(t, rank, g);
  }

  /** A genre with neither parent nor children gets mass 0. */
  lemma IsolatedRootHasNoMass(t: Table, rank: map<string, nat>, g: string)
    requires Acyclic(t, rank) && g in t.rows
    requires !Truthy(ParentAttr(t.rows[g])) && Kids(t, g) == []
    ensures Mass(t, rank, g) == 0
  {
    LeafHasNoDescendants(t, rank, g);
    AncestorsStep(t, rank, g);
  }

  /** A child's mass counts one more ancestor than its parent's, and the
      parent's counts the child's whole subtree among its descendants. */
  lemma MassAlongEdge(t: Table, rank: map<string, nat>, c: string)
    requires Acyclic(t, rank) && c in t.rows && ParentKey(t, c).Some?
    ensures var p := ParentKey(t, c).value;
      && |Ancestors(t, rank, c)| == |Ancestors(t, rank, p)| + 1
      && Block(t, rank, c) <= Descendants(t, rank, p)
      && |Descendants(t, rank, p)| >= |Descendants(t, rank, c)| + 1
  {
    var p := ParentKey(t, c).value;
    AncestorsStep(t, rank, c);
    forall k | k in Block(t, rank, c)
      ensures k in Descendants(t, rank, p)
    {
      UnderChild(t, rank, p, c, k);
    }
    BlockSize(t, rank, c);
    assert |Block(t, rank, c)| <= |Descendants(t, rank, p)| by {
      SubsetCard(Block(t, rank, c), Descendants(t, rank, p));
    }
  }

  lemma SubsetCard<T>(a: set<T>, b: set<T>)
    requires a <= b
    ensures |a| <= |b|
  {
    assert b == a + (b - a);
  }
}
