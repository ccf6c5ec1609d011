/**
 * The genre tables that the offline Python scripts load from JSON: an
 * insertion-ordered dict from genre name to an attribute dict, and the
 * parent/child forest that the "parent" attribute induces.
 *
 * genre_mass.py and solar_layout.py build the same parent -> children map
 * with the same loop; both use BuildChildrenMap below.  Ancestry is stated
 * once, by walking parents upwards (IsAncestor), and the lemmas here relate
 * that upward view to the downward one the scripts recurse along (Kids).
 */
module Forest {
  import opened Util

  /** A JSON value as json.load returns it. */
  datatype Value =
    | Null
    | Bool(b: bool)
    | Int(i: int)
    | Real(r: real)
    | Str(s: string)
    | List(items: seq<Value>)
    | Obj(fields: map<string, Value>)

  /** Python truthiness, as in `if parent:`. */
  predicate Truthy(v: Value) {
    match v
    case Null => false
    case Bool(b) => b
    case Int(i) => i != 0
    case Real(r) => r != 0.0
    case Str(s) => s != ""
    case List(items) => items != []
    case Obj(fields) => fields != map[]
  }

  /** Python can hash the value, so it can be a dict key; a list or a dict
      cannot, and using one as a key raises TypeError. */
  predicate Hashable(v: Value) {
    !v.List? && !v.Obj?
  }

  /** The attribute dict of one genre; the order of its keys is not kept. */
  type Record = map<string, Value>

  /** An insertion-ordered dict from genre name to attributes. */
  datatype Table = Table(order: seq<string>, rows: map<string, Record>)

  /** No name occurs twice. */
  ghost predicate Distinct(s: seq<string>) {
    forall i, j :: 0 <= i < j < |s| ==> s[i] != s[j]
  }

  /** Keys appear once, in insertion order, and are exactly the dict's keys. */
  ghost predicate WellFormed(t: Table) {
    && Distinct(t.order)
    && (forall k :: k in t.rows <==> k in t.order)
  }

  /** `attrs.get('parent')` */
  function ParentAttr(r: Record): Value {
    if "parent" in r then r["parent"] else Null
  }

  /** The genre a genre's parent attribute names, when that is a non-empty
      string naming a key of the table. */
  function ParentKey(t: Table, k: string): (p: Option<string>)
    requires k in t.rows
    ensures p.Some? ==> p.value in t.rows && Truthy(ParentAttr(t.rows[k]))
  {
    match ParentAttr(t.rows[k])
    case Str(s) => if s != "" && s in t.rows then Some(s) else None
    case _ => None
  }

  /** `rank` witnesses that following parents never cycles: a parent always
      has a smaller rank than its child (the depth of a genre is such a rank). */
  ghost predicate Acyclic(t: Table, rank: map<string, nat>) {
    && WellFormed(t)
    && (forall k :: k in t.rows ==> k in rank && rank[k] < |t.order|)
    && (forall k {:trigger ParentKey(t, k)} :: k in t.rows && ParentKey(t, k).Some? ==>
          rank[ParentKey(t, k).value] < rank[k])
  }

  /** Every truthy parent attribute names a genre of the table, so that
      `genres[current['parent']]` never raises KeyError (and no parent is a
      list or dict that raises TypeError as a key). */
  ghost predicate Closed(t: Table) {
    forall k :: k in t.rows && Truthy(ParentAttr(t.rows[k])) ==> ParentKey(t, k).Some?
  }

  // ---------------------------------------------------------------------------
  // The parent -> children map

  /** The names in `s` whose parent attribute is the truthy value `v`, in the
      order of `s`. */
  function Select(t: Table, s: seq<string>, v: Value): seq<string>
    requires forall k :: k in s ==> k in t.rows
  {
    if s == [] then []
    else
      var last := s[|s| - 1];
      Select(t, s[..|s| - 1], v) +
        (if Truthy(v) && ParentAttr(t.rows[last]) == v then [last] else [])
  }

  /** Every truthy parent attribute among the names `s` can be a dict key. */
  predicate HashableParents(t: Table, s: seq<string>)
    requires forall k :: k in s ==> k in t.rows
  {
    forall k :: k in s && Truthy(ParentAttr(t.rows[k])) ==> Hashable(ParentAttr(t.rows[k]))
  }

  /** A parent attribute that names a genre is a string, so it hashes. */
  lemma ClosedHashable(t: Table)
    requires WellFormed(t) && Closed(t)
    ensures HashableParents(t, t.order)
  {
    forall k | k in t.order && Truthy(ParentAttr(t.rows[k]))
      ensures Hashable(ParentAttr(t.rows[k]))
    {
      assert ParentKey(t, k).Some?;
    }
  }

  /** `m` is the defaultdict(list) the scripts build from the names in `s`. */
  ghost predicate IsChildrenMapOf(t: Table, s: seq<string>, m: map<Value, seq<string>>)
    requires forall k :: k in s ==> k in t.rows
  {
    && (forall v :: v in m <==> Select(t, s, v) != [])
    && (forall v :: v in m ==> m[v] == Select(t, s, v))
  }

  /** `children_map.get(name, [])`, `tree.get(node, [])` */
  function ChildrenOf(m: map<Value, seq<string>>, name: string): seq<string> {
    if Str(name) in m then m[Str(name)] else []
  }

  /** genre_mass.py:9-13 and solar_layout.py:76-80: for each genre in dict
      order, append its name to the list of its truthy parent.  A truthy
      parent that is a list or a dict raises TypeError as a key: None. */
  method BuildChildrenMap(t: Table) returns (res: Option<map<Value, seq<string>>>)
    requires WellFormed(t)
    ensures res.None? <==> !HashableParents(t, t.order)
    ensures res.Some? ==> IsChildrenMapOf(t, t.order, res.value)
  {
    var m := map[];
    for i := 0 to |t.order|
      invariant IsChildrenMapOf(t, t.order[..i], m)
      invariant HashableParents(t, t.order[..i])
    {
      var name := t.order[i];
      var parent := ParentAttr(t.rows[name]);
      if Truthy(parent) {
        if !Hashable(parent) {
          assert name in t.order;
          return None;
        }
        var siblings := if parent in m then m[parent] else [];
        ChildrenMapStep(t, i, i + 1, m, m[parent := siblings + [name]]);
        m := m[parent := siblings + [name]];
      } else {
        ChildrenMapStep(t, i, i + 1, m, m);
      }
    }
    assert t.order[..|t.order|] == t.order;
    return Some(m);
  }

  /** One pass of the loop of BuildChildrenMap keeps both invariants. */
  lemma ChildrenMapStep(t: Table, i: nat, i1: nat, m: map<Value, seq<string>>, next: map<Value, seq<string>>)
    requires WellFormed(t) && i < |t.order| && i1 == i + 1
    requires IsChildrenMapOf(t, t.order[..i], m) && HashableParents(t, t.order[..i])
    requires var p := ParentAttr(t.rows[t.order[i]]);
      && (Truthy(p) ==> Hashable(p))
      && next == if Truthy(p) then m[p := (if p in m then m[p] else []) + [t.order[i]]] else m
    ensures IsChildrenMapOf(t, t.order[..i1], next) && HashableParents(t, t.order[..i1])
  {
    assert t.order[..i1] == t.order[..i] + [t.order[i]];
    assert t.order[..i1][..i] == t.order[..i];
  }

  /** A name is selected exactly when it occurs in `s` with parent `v`. */
  lemma {:induction false} SelectMembers(t: Table, s: seq<string>, v: Value)
    requires forall k :: k in s ==> k in t.rows
    ensures forall k :: k in Select(t, s, v) <==>
      k in s && Truthy(v) && ParentAttr(t.rows[k]) == v
  {
    if s != [] {
      var init := s[..|s| - 1];
      SelectMembers(t, init, v);
      assert s == init + [s[|s| - 1]];
    }
  }

  /** Selecting from a list without repetitions lists every name once. */
  lemma {:induction false} SelectDistinct(t: Table, s: seq<string>, v: Value)
    requires forall k :: k in s ==> k in t.rows
    requires Distinct(s)
    ensures Distinct(Select(t, s, v))
  {
    if s != [] {
      var init, last := s[..|s| - 1], s[|s| - 1];
      SelectDistinct(t, init, v);
      SelectMembers(t, init, v);
      assert last !in init;
      var a := Select(t, init, v);
      var c := Select(t, s, v);
      assert c == a + (if Truthy(v) && ParentAttr(t.rows[last]) == v then [last] else []);
      forall i, j | 0 <= i < j < |c|
        ensures c[i] != c[j]
      {
        if j >= |a| {
          assert c[j] == last;
          assert c[i] == a[i];
          assert a[i] in init;
        } else {
          assert c[i] == a[i] && c[j] == a[j];
          assert a[i] != a[j];
        }
      }
    }
  }

  /** The children of genre `g`, in dict order. */
  function Kids(t: Table, g: string): seq<string>
    requires WellFormed(t)
  {
    Select(t, t.order, Str(g))
  }

  /** A child of `node` is a genre of higher rank. */
  lemma KidRank(t: Table, rank: map<string, nat>, node: string, i: nat)
    requires Acyclic(t, rank) && node in t.rows && i < |Kids(t, node)|
    ensures Kids(t, node)[i] in t.rows && rank[node] < rank[Kids(t, node)[i]]
  {
    KidsSpec(t, node);
  }

  /** Looking a genre up in the children map gives its children. */
  lemma ChildrenOfKids(t: Table, m: map<Value, seq<string>>, g: string)
    requires WellFormed(t) && IsChildrenMapOf(t, t.order, m)
    ensures ChildrenOf(m, g) == Kids(t, g)
  {
  }

  /** genre_mass.py:9-13: every genre whose parent attribute names `g` is
      listed under `g`, exactly once; nothing else is. */
  lemma KidsSpec(t: Table, g: string)
    requires WellFormed(t) && g in t.rows
    ensures forall c :: c in Kids(t, g) <==> c in t.rows && ParentKey(t, c) == Some(g)
    ensures Distinct(Kids(t, g))
  {
    SelectMembers(t, t.order, Str(g));
    SelectDistinct(t, t.order, Str(g));
  }

  // ---------------------------------------------------------------------------
  // Ancestry

  /** `a` is reached from `k` by following parent attributes one or more times. */
  ghost predicate IsAncestor(t: Table, rank: map<string, nat>, a: string, k: string)
    requires Acyclic(t, rank) && k in t.rows
    decreases rank[k]
  {
    match ParentKey(t, k)
    case None => false
    case Some(p) => p == a || IsAncestor(t, rank, a, p)
  }

  /** `k` lies in the subtree rooted at `a`. */
  ghost predicate Under(t: Table, rank: map<string, nat>, a: string, k: string)
    requires Acyclic(t, rank) && k in t.rows
  {
    k == a || IsAncestor(t, rank, a, k)
  }

  /** The nodes of the subtree rooted at `a`. */
  ghost function Block(t: Table, rank: map<string, nat>, a: string): set<string>
    requires Acyclic(t, rank)
  {
    set k | k in t.rows && Under(t, rank, a, k)
  }

  /** The proper descendants of `g`. */
  ghost function Descendants(t: Table, rank: map<string, nat>, g: string): set<string>
    requires Acyclic(t, rank)
  {
    set k | k in t.rows && IsAncestor(t, rank, g, k)
  }

  /** The proper ancestors of `k`. */
  ghost function Ancestors(t: Table, rank: map<string, nat>, k: string): set<string>
    requires Acyclic(t, rank) && k in t.rows
  {
    set a | a in t.rows && IsAncestor(t, rank, a, k)
  }

  /** Ancestors are genres of smaller rank; in particular no genre is its own
      ancestor. */
  lemma {:induction false} AncestorRank(t: Table, rank: map<string, nat>, a: string, k: string)
    requires Acyclic(t, rank) && k in t.rows && IsAncestor(t, rank, a, k)
    ensures a in t.rows && rank[a] < rank[k]
    decreases rank[k]
  {
    var p := ParentKey(t, k).value;
    if p != a {
      AncestorRank(t, rank, a, p);
    }
  }

  /** Whatever lies under a child of `n` is a proper descendant of `n`. */
  lemma {:induction false} UnderChild(t: Table, rank: map<string, nat>, n: string, c: string, k: string)
    requires Acyclic(t, rank) && c in t.rows && k in t.rows
    requires ParentKey(t, c) == Some(n) && Under(t, rank, c, k)
    ensures IsAncestor(t, rank, n, k)
    decreases rank[k]
  {
    if k != c {
      var p := ParentKey(t, k).value;
      if p != c {
        UnderChild(t, rank, n, c, p);
      }
    }
  }

  /** Two subtrees that share a node are nested. */
  lemma {:induction false} UnderLinear(t: Table, rank: map<string, nat>, c1: string, c2: string, k: string)
    requires Acyclic(t, rank) && k in t.rows
    requires Under(t, rank, c1, k) && Under(t, rank, c2, k)
    ensures c1 in t.rows && c2 in t.rows
    ensures c1 == c2 || IsAncestor(t, rank, c1, c2) || IsAncestor(t, rank, c2, c1)
    decreases rank[k]
  {
    if k != c1 && k != c2 {
      var p := ParentKey(t, k).value;
      UnderLinear(t, rank, c1, c2, p);
    } else if k == c1 && k != c2 {
      AncestorRank(t, rank, c2, k);
    } else if k == c2 && k != c1 {
      AncestorRank(t, rank, c1, k);
    }
  }

  /** Subtrees of two genres with the same parent (two siblings, or two
      roots) are disjoint unless the genres coincide. */
  lemma SameParentDisjoint(t: Table, rank: map<string, nat>, c1: string, c2: string, k: string)
    requires Acyclic(t, rank) && c1 in t.rows && c2 in t.rows && k in t.rows
    requires ParentKey(t, c1) == ParentKey(t, c2)
    requires Under(t, rank, c1, k) && Under(t, rank, c2, k)
    ensures c1 == c2
  {
    UnderLinear(t, rank, c1, c2, k);
    if IsAncestor(t, rank, c1, c2) {
      var g := ParentKey(t, c2).value;
      if g != c1 {
        AncestorRank(t, rank, c1, g);
      }
    } else if IsAncestor(t, rank, c2, c1) {
      var g := ParentKey(t, c1).value;
      if g != c2 {
        AncestorRank(t, rank, c2, g);
      }
    }
  }

  /** A subtree is its root plus the root's proper descendants. */
  lemma BlockSize(t: Table, rank: map<string, nat>, g: string)
    requires Acyclic(t, rank) && g in t.rows
    ensures Block(t, rank, g) == {g} + Descendants(t, rank, g)
    ensures g !in Descendants(t, rank, g)
    ensures |Block(t, rank, g)| == |Descendants(t, rank, g)| + 1
  {
    if IsAncestor(t, rank, g, g) {
      AncestorRank(t, rank, g, g);
    }
  }

  /** The union of the subtrees rooted at the names in `cs`. */
  ghost function UnionBlocks(t: Table, rank: map<string, nat>, cs: seq<string>): set<string>
    requires Acyclic(t, rank)
  {
    if cs == [] then {}
    else UnionBlocks(t, rank, cs[..|cs| - 1]) + Block(t, rank, cs[|cs| - 1])
  }

  /** The sum of the subtree sizes of the names in `cs`. */
  ghost function BlockTotal(t: Table, rank: map<string, nat>, cs: seq<string>): nat
    requires Acyclic(t, rank)
  {
    if cs == [] then 0
    else BlockTotal(t, rank, cs[..|cs| - 1]) + |Block(t, rank, cs[|cs| - 1])|
  }

  /** The subtrees of one more name of `cs`. */
  lemma BlocksStep(t: Table, rank: map<string, nat>, cs: seq<string>, i: nat, i1: nat)
    requires Acyclic(t, rank) && i < |cs| && i1 == i + 1
    ensures UnionBlocks(t, rank, cs[..i1]) == UnionBlocks(t, rank, cs[..i]) + Block(t, rank, cs[i])
    ensures BlockTotal(t, rank, cs[..i1]) == BlockTotal(t, rank, cs[..i]) + |Block(t, rank, cs[i])|
  {
    var p := cs[..i1];
    assert |p| - 1 == i && p[..|p| - 1] == cs[..i] && p[|p| - 1] == cs[i];
  }

  lemma {:induction false} UnionBlocksWitness(t: Table, rank: map<string, nat>, cs: seq<string>, k: string)
    returns (j: nat)
    requires Acyclic(t, rank) && k in UnionBlocks(t, rank, cs)
    ensures j < |cs| && k in t.rows && Under(t, rank, cs[j], k)
  {
    if k in Block(t, rank, cs[|cs| - 1]) {
      j := |cs| - 1;
    } else {
      j := UnionBlocksWitness(t, rank, cs[..|cs| - 1], k);
    }
  }

  lemma {:induction false} UnionBlocksContains(t: Table, rank: map<string, nat>, cs: seq<string>, j: nat, k: string)
    requires Acyclic(t, rank) && j < |cs| && k in t.rows && Under(t, rank, cs[j], k)
    ensures k in UnionBlocks(t, rank, cs)
  {
    if j < |cs| - 1 {
      UnionBlocksContains(t, rank, cs[..|cs| - 1], j, k);
    }
  }

  /** Sibling subtrees are disjoint, so their union has the sum of their sizes. */
  lemma {:induction false} UnionBlocksSize(t: Table, rank: map<string, nat>, cs: seq<string>, parent: Option<string>)
    requires Acyclic(t, rank)
    requires forall c :: c in cs ==> c in t.rows && ParentKey(t, c) == parent
    requires Distinct(cs)
    ensures |UnionBlocks(t, rank, cs)| == BlockTotal(t, rank, cs)
  {
    if cs != [] {
      var init, last := cs[..|cs| - 1], cs[|cs| - 1];
      UnionBlocksSize(t, rank, init, parent);
      var a, b := UnionBlocks(t, rank, init), Block(t, rank, last);
      forall k | k in a && k in b
        ensures false
      {
        var j := UnionBlocksWitness(t, rank, init, k);
        SameParentDisjoint(t, rank, init[j], last, k);
      }
      assert a * b == {};
    }
  }

  lemma {:induction false} DescendantInKidBlocks(t: Table, rank: map<string, nat>, g: string, k: string)
    requires Acyclic(t, rank) && g in t.rows && k in t.rows && IsAncestor(t, rank, g, k)
    ensures k in UnionBlocks(t, rank, Kids(t, g))
    decreases rank[k]
  {
    KidsSpec(t, g);
    var cs := Kids(t, g);
    var p := ParentKey(t, k).value;
    if p == g {
      var j :| 0 <= j < |cs| && cs[j] == k;
      UnionBlocksContains(t, rank, cs, j, k);
    } else {
      DescendantInKidBlocks(t, rank, g, p);
      var j := UnionBlocksWitness(t, rank, cs, p);
      UnionBlocksContains(t, rank, cs, j, k);
    }
  }

  /** The proper descendants of `g` are exactly the subtrees of its children
      (genre_mass.py:15-21 and solar_layout.py:10-15 recurse along this). */
  lemma DescendantsAreKidBlocks(t: Table, rank: map<string, nat>, g: string)
    requires Acyclic(t, rank) && g in t.rows
    ensures Descendants(t, rank, g) == UnionBlocks(t, rank, Kids(t, g))
    ensures |Descendants(t, rank, g)| == BlockTotal(t, rank, Kids(t, g))
  {
    KidsSpec(t, g);
    var cs := Kids(t, g);
    forall k | k in Descendants(t, rank, g)
      ensures k in UnionBlocks(t, rank, cs)
    {
      DescendantInKidBlocks(t, rank, g, k);
    }
    forall k | k in UnionBlocks(t, rank, cs)
      ensures k in Descendants(t, rank, g)
    {
      var j := UnionBlocksWitness(t, rank, cs, k);
      UnderChild(t, rank, g, cs[j], k);
    }
    UnionBlocksSize(t, rank, cs, Some(g));
  }

  /** Adding the next name of a list of siblings (or of roots) to the union
      of their subtrees adds a block disjoint from the others, which never
      contains their parent. */
  lemma SiblingStep(t: Table, rank: map<string, nat>, cs: seq<string>, parent: Option<string>, i: nat)
    requires Acyclic(t, rank) && Distinct(cs) && i < |cs|
    requires forall c :: c in cs ==> c in t.rows && ParentKey(t, c) == parent
    ensures UnionBlocks(t, rank, cs[..i + 1]) == UnionBlocks(t, rank, cs[..i]) + Block(t, rank, cs[i])
    ensures BlockTotal(t, rank, cs[..i + 1]) == BlockTotal(t, rank, cs[..i]) + |Block(t, rank, cs[i])|
    ensures UnionBlocks(t, rank, cs[..i]) !! Block(t, rank, cs[i])
    ensures parent.Some? ==> parent.value !in Block(t, rank, cs[i])
  {
    assert cs[..i + 1][..i] == cs[..i];
    forall k | k in UnionBlocks(t, rank, cs[..i]) && k in Block(t, rank, cs[i])
      ensures false
    {
      var j := UnionBlocksWitness(t, rank, cs[..i], k);
      SameParentDisjoint(t, rank, cs[j], cs[i], k);
    }
    if parent.Some? && parent.value in Block(t, rank, cs[i]) && parent.value != cs[i] {
      AncestorRank(t, rank, cs[i], parent.value);
    }
  }

  /** genre_mass.py:23-30: a genre without a parent has no ancestors; a genre
      with one has its parent's ancestors plus the parent. */
  lemma AncestorsStep(t: Table, rank: map<string, nat>, k: string)
    requires Acyclic(t, rank) && k in t.rows
    ensures ParentKey(t, k).None? ==> Ancestors(t, rank, k) == {}
    ensures ParentKey(t, k).Some? ==>
      var p := ParentKey(t, k).value;
      && Ancestors(t, rank, k) == {p} + Ancestors(t, rank, p)
      && |Ancestors(t, rank, k)| == |Ancestors(t, rank, p)| + 1
  {
    if ParentKey(t, k).Some? {
      var p := ParentKey(t, k).value;
      if p in Ancestors(t, rank, p) {
        AncestorRank(t, rank, p, p);
      }
    }
  }
}
