/**
 * scripts/solar_layout.py: place every genre on a ring of a solar system.
 * A genre's ring is its depth below its root genre; the angular interval of
 * a genre is split among its children in proportion to the sizes of their
 * subtrees, and each genre sits at the middle of its share.  Genres further
 * out orbit more slowly.
 *
 * Python floats are exact reals here and 2 * math.pi is the parameter
 * `fullCircle`.  The `sizes` dict that compute_subtree_sizes fills in place
 * is threaded through as a map value: it is the only thing the recursion
 * shares.  Termination rests on the ghost `rank` of Forest.Acyclic.
 */
module SolarLayout {
  import opened Util
  import opened Forest

  // ---------------------------------------------------------------------------
  // compute_subtree_sizes (solar_layout.py:10-15)

  /** solar_layout.py:10-15: set `sizes[node]` to 1 plus the sizes of its
      children, after computing theirs: on return every genre of node's
      subtree holds its subtree's node count, and no other entry changed. */
  method ComputeSubtreeSizes(t: Table, tree: map<Value, seq<string>>, ghost rank: map<string, nat>,
                             node: string, sizes: map<string, nat>)
    returns (out: map<string, nat>)
    requires Acyclic(t, rank) && IsChildrenMapOf(t, t.order, tree) && node in t.rows
    ensures out.Keys == sizes.Keys + Block(t, rank, node)
    ensures forall k :: k in Block(t, rank, node) ==> out[k] == |Block(t, rank, k)|
    ensures forall k :: k in sizes && k !in Block(t, rank, node) ==> out[k] == sizes[k]
    decreases |t.order| - rank[node]
  {
    var children := ChildrenOf(tree, node);
    ChildrenOfKids(t, tree, node);
    out := sizes[node := 1];
    ghost var want := SubtreeSizes(t, rank);
    SizesStart(t, rank, sizes, want, node, children, out);
    for i := 0 to |children|
      invariant SizesState(sizes, want, node, UnionBlocks(t, rank, children[..i]),
                           BlockTotal(t, rank, children[..i]), out)
    {
      var child := children[i];
      KidRank(t, rank, node, i);
      var mid := ComputeSubtreeSizes(t, tree, rank, child, out);
      SizesStep(t, rank, sizes, want, node, children, i, i + 1, child, out, mid);
      out := mid[node := mid[node] + mid[child]];
    }
    SizesDone(t, rank, sizes, want, node, children, out);
  }

  /** Every genre's subtree node count. */
  ghost function SubtreeSizes(t: Table, rank: map<string, nat>): (want: map<string, nat>)
    requires Acyclic(t, rank)
    ensures want.Keys == t.rows.Keys
  {
    map k | k in t.rows :: |Block(t, rank, k)|
  }

  /** compute_subtree_sizes's dict once the subtrees `u` of node's first
      children, of `total` genres in all, are done: their genres hold their
      sizes `want`, node counts itself plus them, and every other entry is
      as it was. */
  ghost predicate SizesState(sizes: map<string, nat>, want: map<string, nat>, node: string,
                             u: set<string>, total: nat, out: map<string, nat>)
  {
    && node !in u
    && out.Keys == sizes.Keys + {node} + u
    && out[node] == 1 + total
    && (forall k :: k in u ==> k in want && out[k] == want[k])
    && (forall k :: k in sizes && k != node && k !in u ==> out[k] == sizes[k])
  }

  lemma SizesStart(t: Table, rank: map<string, nat>, sizes: map<string, nat>, want: map<string, nat>,
                   node: string, cs: seq<string>, out: map<string, nat>)
    requires Acyclic(t, rank) && out == sizes[node := 1]
    ensures SizesState(sizes, want, node, UnionBlocks(t, rank, cs[..0]), BlockTotal(t, rank, cs[..0]), out)
  {
    assert cs[..0] == [];
  }

  /** After the last child, node's subtree holds its sizes. */
  lemma SizesDone(t: Table, rank: map<string, nat>, sizes: map<string, nat>, want: map<string, nat>,
                  node: string, cs: seq<string>, out: map<string, nat>)
    requires Acyclic(t, rank) && node in t.rows && cs == Kids(t, node) && want == SubtreeSizes(t, rank)
    requires SizesState(sizes, want, node, UnionBlocks(t, rank, cs[..|cs|]),
                        BlockTotal(t, rank, cs[..|cs|]), out)
    ensures out.Keys == sizes.Keys + Block(t, rank, node)
    ensures forall k :: k in Block(t, rank, node) ==> out[k] == |Block(t, rank, k)|
    ensures forall k :: k in sizes && k !in Block(t, rank, node) ==> out[k] == sizes[k]
  {
    assert cs[..|cs|] == cs;
    var u := UnionBlocks(t, rank, cs);
    var blk := Block(t, rank, node);
    assert blk == {node} + u && 1 + BlockTotal(t, rank, cs) == |blk| by {
      DescendantsAreKidBlocks(t, rank, node);
      BlockSize(t, rank, node);
    }
    SizesDoneValues(sizes, want, node, u, BlockTotal(t, rank, cs), blk, out);
    forall k | k in blk
      ensures out[k] == |Block(t, rank, k)|
    {
      assert out[k] == want[k];
    }
  }

  /** The entries of compute_subtree_sizes's dict once the node's own count
      is its block's size. */
  lemma SizesDoneValues(sizes: map<string, nat>, want: map<string, nat>, node: string,
                        u: set<string>, total: nat, blk: set<string>, out: map<string, nat>)
    requires SizesState(sizes, want, node, u, total, out)
    requires blk == {node} + u
    ensures out.Keys == sizes.Keys + blk
    ensures forall k :: k in u ==> out[k] == want[k]
    ensures out[node] == 1 + total
    ensures forall k :: k in sizes && k !in blk ==> out[k] == sizes[k]
  {
  }

  lemma SizesStep(t: Table, rank: map<string, nat>, sizes: map<string, nat>, want: map<string, nat>,
                  node: string, cs: seq<string>, i: nat, i1: nat, c: string,
                  out: map<string, nat>, mid: map<string, nat>)
    requires Acyclic(t, rank) && node in t.rows && cs == Kids(t, node) && i < |cs| && i1 == i + 1
    requires want == SubtreeSizes(t, rank) && c == cs[i]
    requires SizesState(sizes, want, node, UnionBlocks(t, rank, cs[..i]),
                        BlockTotal(t, rank, cs[..i]), out)
    requires mid.Keys == out.Keys + Block(t, rank, c)
    requires forall k :: k in Block(t, rank, c) ==> mid[k] == |Block(t, rank, k)|
    requires forall k :: k in out && k !in Block(t, rank, c) ==> mid[k] == out[k]
    ensures node in mid && c in mid
    ensures SizesState(sizes, want, node, UnionBlocks(t, rank, cs[..i1]),
                       BlockTotal(t, rank, cs[..i1]), mid[node := mid[node] + mid[c]])
  {
    var u, b := UnionBlocks(t, rank, cs[..i]), Block(t, rank, c);
    assert && UnionBlocks(t, rank, cs[..i1]) == u + b
           && BlockTotal(t, rank, cs[..i1]) == BlockTotal(t, rank, cs[..i]) + |b|
           && u !! b && node !in b && c in b by {
      KidsSpec(t, node);
      SiblingStep(t, rank, cs, Some(node), i);
      BlockSize(t, rank, c);
    }
    WantBlock(t, rank, c, mid);
    SizesStepValues(sizes, want, node, u, b, BlockTotal(t, rank, cs[..i]), out, mid,
                    UnionBlocks(t, rank, cs[..i1]), BlockTotal(t, rank, cs[..i1]), c,
                    mid[node := mid[node] + mid[c]]);
  }

  /** A finished child block holds the sizes SubtreeSizes wants. */
  lemma WantBlock(t: Table, rank: map<string, nat>, c: string, mid: map<string, nat>)
    requires Acyclic(t, rank) && Block(t, rank, c) <= mid.Keys
    requires forall k :: k in Block(t, rank, c) ==> mid[k] == |Block(t, rank, k)|
    ensures forall k :: k in Block(t, rank, c) ==> k in SubtreeSizes(t, rank) && mid[k] == SubtreeSizes(t, rank)[k]
  {
    forall k | k in Block(t, rank, c)
      ensures k in SubtreeSizes(t, rank) && mid[k] == SubtreeSizes(t, rank)[k]
    {
      assert k in t.rows;
    }
  }

  /** The entries of compute_subtree_sizes's dict after the next child:
      the child's block is done, and the node's count grew by its size. */
  lemma SizesStepValues(sizes: map<string, nat>, want: map<string, nat>, node: string,
                        u: set<string>, b: set<string>, total: nat, out: map<string, nat>, mid: map<string, nat>,
                        u1: set<string>, total1: nat, c: string, next: map<string, nat>)
    requires SizesState(sizes, want, node, u, total, out)
    requires node !in b && u !! b && c in b
    requires mid.Keys == out.Keys + b
    requires forall k :: k in b ==> k in want && mid[k] == want[k]
    requires forall k :: k in out && k !in b ==> mid[k] == out[k]
    requires want[c] == |b| && u1 == u + b && total1 == total + |b|
    requires next == mid[node := mid[node] + mid[c]]
    ensures node in mid && c in mid
    ensures SizesState(sizes, want, node, u1, total1, next)
  {
  }

  // ---------------------------------------------------------------------------
  // layout_radial (solar_layout.py:17-31)

  /** `{'r': r, 'theta0': theta, 'depth': depth}` */
  datatype Placement = Placement(r: real, theta0: real, depth: int)

  /** The radius of ring `depth`: the depth times the ring spacing. */
  function RingRadius(depth: int, spacing: real): real {
    depth as real * spacing
  }

  /** Every genre of n's subtree has a positive size, so no share of an
      interval divides by zero. */
  ghost predicate SizesCover(t: Table, rank: map<string, nat>, sizes: map<string, nat>, n: string)
    requires Acyclic(t, rank)
  {
    forall k :: k in Block(t, rank, n) ==> k in sizes && sizes[k] >= 1
  }

  /** `sum(sizes[c] for c in children)` */
  function SizeSum(sizes: map<string, nat>, cs: seq<string>): nat
    requires forall c :: c in cs ==> c in sizes
  {
    if cs == [] then 0 else SizeSum(sizes, cs[..|cs| - 1]) + sizes[cs[|cs| - 1]]
  }

  /** `(theta_end - theta_start) * (sizes[child] / total)` */
  function Share(a: real, b: real, size: nat, total: nat): real
    requires total > 0
  {
    (b - a) * (size as real / total as real)
  }

  /** The share of `[a, b]` given to the j-th child. */
  function Span(sizes: map<string, nat>, cs: seq<string>, a: real, b: real, j: nat): real
    requires forall c :: c in cs ==> c in sizes
    requires j < |cs| && SizeSum(sizes, cs) > 0
  {
    Share(a, b, sizes[cs[j]], SizeSum(sizes, cs))
  }

  /** `angle` when the loop reaches the j-th child: the start of its share. */
  function Angle(sizes: map<string, nat>, cs: seq<string>, a: real, b: real, j: nat): real
    requires forall c :: c in cs ==> c in sizes
    requires j <= |cs| && SizeSum(sizes, cs) > 0
  {
    if j == 0 then a else Angle(sizes, cs, a, b, j - 1) + Span(sizes, cs, a, b, j - 1)
  }

  /** What the recursion needs to know about the i-th child of `n`. */
  lemma KidFacts(t: Table, rank: map<string, nat>, sizes: map<string, nat>, n: string, i: nat)
    requires Acyclic(t, rank) && n in t.rows && SizesCover(t, rank, sizes, n)
    requires i < |Kids(t, n)|
    ensures var cs := Kids(t, n);
      && cs[i] in t.rows && ParentKey(t, cs[i]) == Some(n)
      && rank[n] < rank[cs[i]]
      && SizesCover(t, rank, sizes, cs[i])
      && (forall c :: c in cs ==> c in sizes)
      && SizeSum(sizes, cs) > 0
  {
    KidsSpec(t, n);
    var cs := Kids(t, n);
    forall c | c in cs
      ensures c in Block(t, rank, n) && Block(t, rank, c) <= Block(t, rank, n)
    {
      forall k | k in Block(t, rank, c)
        ensures k in Block(t, rank, n)
      {
        UnderChild(t, rank, n, c, k);
      }
    }
    SizeSumBound(sizes, cs, i);
  }

  lemma {:induction false} SizeSumBound(sizes: map<string, nat>, cs: seq<string>, i: nat)
    requires forall c :: c in cs ==> c in sizes
    requires i < |cs|
    ensures SizeSum(sizes, cs) >= sizes[cs[i]]
  {
    if i < |cs| - 1 {
      SizeSumBound(sizes, cs[..|cs| - 1], i);
    }
  }

  /** The placements layout_radial returns for the subtree of `n` laid out
      in `[a, b]` at depth `depth`. */
  ghost function Layout(t: Table, rank: map<string, nat>, sizes: map<string, nat>, spacing: real,
                        n: string, a: real, b: real, depth: int): map<string, Placement>
    requires Acyclic(t, rank) && n in t.rows && SizesCover(t, rank, sizes, n)
    decreases |t.order| - rank[n], 1, 0
  {
    map[n := Placement(RingRadius(depth, spacing), (a + b) / 2.0, depth)]
      + KidsLayout(t, rank, sizes, spacing, n, a, b, depth, |Kids(t, n)|)
  }

  /** A subtree's placements are its root's and those of its children's subtrees. */
  lemma LayoutTop(t: Table, rank: map<string, nat>, sizes: map<string, nat>, spacing: real,
                  n: string, a: real, b: real, depth: int, top: map<string, Placement>)
    requires Acyclic(t, rank) && n in t.rows && SizesCover(t, rank, sizes, n)
    requires top == map[n := Placement(RingRadius(depth, spacing), (a + b) / 2.0, depth)]
    ensures Layout(t, rank, sizes, spacing, n, a, b, depth)
            == top + KidsLayout(t, rank, sizes, spacing, n, a, b, depth, |Kids(t, n)|)
  {
  }

  /** The placements of the subtrees of the first `i` children of `n`, each
      in its share of `[a, b]` at the next depth. */
  ghost function KidsLayout(t: Table, rank: map<string, nat>, sizes: map<string, nat>, spacing: real,
                            n: string, a: real, b: real, depth: int, i: nat): map<string, Placement>
    requires Acyclic(t, rank) && n in t.rows && SizesCover(t, rank, sizes, n)
    requires i <= |Kids(t, n)|
    decreases |t.order| - rank[n], 0, i
  {
    if i == 0 then map[]
    else
      KidFacts(t, rank, sizes, n, i - 1);
      var cs := Kids(t, n);
      KidsLayout(t, rank, sizes, spacing, n, a, b, depth, i - 1)
        + Layout(t, rank, sizes, spacing, cs[i - 1], Angle(sizes, cs, a, b, i - 1), Angle(sizes, cs, a, b, i), depth + 1)
  }

  /** solar_layout.py:17-31: place `root` at radius `depth * spacing` in the
      middle of `[thetaStart, thetaEnd]`, then lay its children out one after
      another in shares of the interval proportional to their sizes. */
  method LayoutRadial(t: Table, tree: map<Value, seq<string>>, ghost rank: map<string, nat>,
                      root: string, thetaStart: real, thetaEnd: real, sizes: map<string, nat>,
                      depth: int, spacing: real)
    returns (layout: map<string, Placement>)
    requires Acyclic(t, rank) && IsChildrenMapOf(t, t.order, tree) && root in t.rows
    requires SizesCover(t, rank, sizes, root)
    ensures layout == Layout(t, rank, sizes, spacing, root, thetaStart, thetaEnd, depth)
    decreases |t.order| - rank[root], 1
  {
    var r := RingRadius(depth, spacing);
    var theta := (thetaStart + thetaEnd) / 2.0;
    var top := map[root := Placement(r, theta, depth)];
    LayoutTop(t, rank, sizes, spacing, root, thetaStart, thetaEnd, depth, top);
    layout := LayoutChildren(t, tree, rank, root, thetaStart, thetaEnd, sizes, depth, spacing, top);
  }

  /** The `if children:` block of layout_radial: starting from `layout`,
      add the placements of each child's subtree, laid out in its share of
      `[thetaStart, thetaEnd]`, in the order of the children. */
  method LayoutChildren(t: Table, tree: map<Value, seq<string>>, ghost rank: map<string, nat>,
                        root: string, thetaStart: real, thetaEnd: real, sizes: map<string, nat>,
                        depth: int, spacing: real, top: map<string, Placement>)
    returns (layout: map<string, Placement>)
    requires Acyclic(t, rank) && IsChildrenMapOf(t, t.order, tree) && root in t.rows
    requires SizesCover(t, rank, sizes, root)
    ensures layout == top + KidsLayout(t, rank, sizes, spacing, root, thetaStart, thetaEnd, depth, |Kids(t, root)|)
    decreases |t.order| - rank[root], 0
  {
    layout := top;
    var children := ChildrenOf(tree, root);
    ChildrenOfKids(t, tree, root);
    if children != [] {
      KidFacts(t, rank, sizes, root, 0);
      var total := SizeSum(sizes, children);
      var angle := thetaStart;
      UnionEmpty(top, KidsLayout(t, rank, sizes, spacing, root, thetaStart, thetaEnd, depth, 0));
      for i := 0 to |children|
        invariant angle == Angle(sizes, children, thetaStart, thetaEnd, i)
        invariant layout == top + KidsLayout(t, rank, sizes, spacing, root, thetaStart, thetaEnd, depth, i)
      {
        var child := children[i];
        KidFacts(t, rank, sizes, root, i);
        var span := Share(thetaStart, thetaEnd, sizes[child], total);
        var next := angle + span;
        var sublayout := LayoutRadial(t, tree, rank, child, angle, next, sizes, depth + 1, spacing);
        LayoutLoopStep(t, rank, sizes, spacing, root, thetaStart, thetaEnd, depth, children, i,
                       child, top, layout, angle, span, next, sublayout);
        layout := layout + sublayout;
        angle := next;
      }
    } else {
      UnionEmpty(top, KidsLayout(t, rank, sizes, spacing, root, thetaStart, thetaEnd, depth, 0));
    }
  }

  /** Adding no placements leaves a layout as it was. */
  lemma UnionEmpty<K, V>(x: map<K, V>, e: map<K, V>)
    requires e == map[]
    ensures x + e == x
  {
  }

  /** One more child: its subtree's placements join those of the earlier
      children, and the next share starts where its share ends. */
  lemma KidsLayoutStep(t: Table, rank: map<string, nat>, sizes: map<string, nat>, spacing: real,
                       n: string, a: real, b: real, depth: int, cs: seq<string>, i: nat, i1: nat)
    requires Acyclic(t, rank) && n in t.rows && SizesCover(t, rank, sizes, n)
    requires cs == Kids(t, n) && i < |cs| && i1 == i + 1
    ensures (forall c :: c in cs ==> c in sizes) && SizeSum(sizes, cs) > 0
    ensures cs[i] in t.rows && SizesCover(t, rank, sizes, cs[i])
    ensures KidsLayout(t, rank, sizes, spacing, n, a, b, depth, i1) ==
      KidsLayout(t, rank, sizes, spacing, n, a, b, depth, i)
        + Layout(t, rank, sizes, spacing, cs[i], Angle(sizes, cs, a, b, i), Angle(sizes, cs, a, b, i1), depth + 1)
  {
    KidFacts(t, rank, sizes, n, i);
  }

  /** The loop of layout_radial keeps `layout` equal to the root's entry
      plus the placements of the children so far, and `angle` at the start of
      the next share. */
  lemma LayoutLoopStep(t: Table, rank: map<string, nat>, sizes: map<string, nat>, spacing: real,
                       n: string, a: real, b: real, depth: int, cs: seq<string>, i: nat, child: string,
                       top: map<string, Placement>, layout: map<string, Placement>,
                       angle: real, span: real, next: real, sublayout: map<string, Placement>)
    requires Acyclic(t, rank) && n in t.rows && SizesCover(t, rank, sizes, n)
    requires cs == Kids(t, n) && i < |cs|
    requires (forall c :: c in cs ==> c in sizes) && SizeSum(sizes, cs) > 0
    requires layout == top + KidsLayout(t, rank, sizes, spacing, n, a, b, depth, i)
    requires angle == Angle(sizes, cs, a, b, i)
    requires span == Share(a, b, sizes[cs[i]], SizeSum(sizes, cs)) && next == angle + span
    requires child == cs[i] && child in t.rows && SizesCover(t, rank, sizes, child)
    requires sublayout == Layout(t, rank, sizes, spacing, child, angle, next, depth + 1)
    ensures next == Angle(sizes, cs, a, b, i + 1)
    ensures layout + sublayout == top + KidsLayout(t, rank, sizes, spacing, n, a, b, depth, i + 1)
  {
    AngleStep(sizes, cs, a, b, i, angle, span, next);
    KidsLayoutStep(t, rank, sizes, spacing, n, a, b, depth, cs, i, i + 1);
    UnionAssoc(top, KidsLayout(t, rank, sizes, spacing, n, a, b, depth, i), sublayout);
  }

  /** The share of the i-th child, computed from the total, ends where the
      next child's share begins. */
  lemma AngleStep(sizes: map<string, nat>, cs: seq<string>, a: real, b: real, i: nat,
                  angle: real, span: real, next: real)
    requires (forall c :: c in cs ==> c in sizes) && i < |cs| && SizeSum(sizes, cs) > 0
    requires angle == Angle(sizes, cs, a, b, i)
    requires span == Share(a, b, sizes[cs[i]], SizeSum(sizes, cs))
    requires next == angle + span
    ensures next == Angle(sizes, cs, a, b, i + 1)
  {
  }

  /** An entry of `x` that `y` does not override survives in `x + y`. */
  lemma UnionKeeps<K, V>(z: map<K, V>, x: map<K, V>, y: map<K, V>, w: map<K, V>, k: K)
    requires z == x + y && k in x && k in w && x[k] == w[k] && k !in y
    ensures k in z && z[k] == w[k]
  {
  }

  lemma UnionRight<K, V>(x: map<K, V>, y: map<K, V>, k: K)
    requires k in y
    ensures k in x + y && (x + y)[k] == y[k]
  {
  }

  lemma UnionAssoc<K, V>(x: map<K, V>, y: map<K, V>, z: map<K, V>)
    ensures (x + y) + z == x + (y + z)
  {
  }

  // ---------------------------------------------------------------------------
  // The shares of an interval

  /** Shares of the same interval add up like the sizes they stand for. */
  lemma ShareAdd(a: real, b: real, p: nat, q: nat, total: nat)
    requires total > 0
    ensures Share(a, b, p, total) + Share(a, b, q, total) == Share(a, b, p + q, total)
  {
    var n := total as real;
    DivAdd(p as real, q as real, n);
    MulAdd(b - a, p as real / n, q as real / n);
  }

  lemma DivAdd(x: real, y: real, n: real)
    requires n > 0.0
    ensures (x + y) / n == x / n + y / n
  {
  }

  lemma MulAdd(c: real, u: real, v: real)
    ensures c * u + c * v == c * (u + v)
  {
  }

  /** A share of a size between 0 and the total lies between 0 and the
      interval's length, and the whole total gets the whole interval. */
  lemma ShareBounds(a: real, b: real, p: nat, total: nat)
    requires total > 0 && p <= total && a <= b
    ensures 0.0 <= Share(a, b, p, total) <= b - a
    ensures p == total ==> Share(a, b, p, total) == b - a
  {
    FracBounds(p as real, total as real);
    MulBounds(b - a, p as real / total as real);
  }

  lemma FracBounds(x: real, n: real)
    requires 0.0 <= x <= n && n > 0.0
    ensures 0.0 <= x / n <= 1.0
    ensures x == n ==> x / n == 1.0
  {
  }

  lemma MulBounds(c: real, f: real)
    requires c >= 0.0 && 0.0 <= f <= 1.0
    ensures 0.0 <= c * f <= c
    ensures f == 1.0 ==> c * f == c
  {
  }

  lemma {:induction false} SizeSumPrefix(sizes: map<string, nat>, cs: seq<string>, j: nat, j1: nat)
    requires forall c :: c in cs ==> c in sizes
    requires j < |cs| && j1 == j + 1
    ensures SizeSum(sizes, cs[..j1]) == SizeSum(sizes, cs[..j]) + sizes[cs[j]]
    ensures SizeSum(sizes, cs[..j1]) <= SizeSum(sizes, cs)
  {
    assert cs[..j1][..j] == cs[..j];
    if j1 < |cs| {
      SizeSumPrefix(sizes, cs[..|cs| - 1], j, j1);
      assert cs[..|cs| - 1][..j1] == cs[..j1];
    } else {
      assert cs[..j1] == cs;
    }
  }

  /** The j-th child's share starts after the shares of the children before
      it: `angle` is `a` plus the share of their summed sizes. */
  lemma {:induction false} AngleFormula(sizes: map<string, nat>, cs: seq<string>, a: real, b: real, j: nat)
    requires (forall c :: c in cs ==> c in sizes) && j <= |cs| && SizeSum(sizes, cs) > 0
    ensures Angle(sizes, cs, a, b, j) == a + Share(a, b, SizeSum(sizes, cs[..j]), SizeSum(sizes, cs))
  {
    var total := SizeSum(sizes, cs);
    if j == 0 {
      assert cs[..0] == [];
      assert Share(a, b, 0, total) == 0.0;
    } else {
      AngleFormula(sizes, cs, a, b, j - 1);
      SizeSumPrefix(sizes, cs, j - 1, j);
      ShareAdd(a, b, SizeSum(sizes, cs[..j - 1]), sizes[cs[j - 1]], total);
    }
  }

  /** layout_radial's shares tile `[a, b]` in order: they start at `a`, each
      ends where the next begins, none runs backwards, and the last ends at
      `b` (the sizes sum to `total`). */
  lemma SharesTile(sizes: map<string, nat>, cs: seq<string>, a: real, b: real, j: nat, j1: nat)
    requires (forall c :: c in cs ==> c in sizes) && j < |cs| && j1 == j + 1 && SizeSum(sizes, cs) > 0
    requires a <= b
    ensures Angle(sizes, cs, a, b, 0) == a
    ensures a <= Angle(sizes, cs, a, b, j) <= Angle(sizes, cs, a, b, j1) <= b
    ensures Angle(sizes, cs, a, b, |cs|) == b
  {
    var total := SizeSum(sizes, cs);
    var p, q := SizeSum(sizes, cs[..j]), SizeSum(sizes, cs[..j1]);
    AngleFormula(sizes, cs, a, b, j);
    AngleFormula(sizes, cs, a, b, j1);
    AngleFormula(sizes, cs, a, b, |cs|);
    SizeSumPrefix(sizes, cs, j, j1);
    assert cs[..|cs|] == cs;
    ShareBounds(a, b, p, total);
    ShareBounds(a, b, q, total);
    ShareBounds(a, b, q - p, total);
    ShareAdd(a, b, p, q - p, total);
    ShareBounds(a, b, total, total);
  }

  // ---------------------------------------------------------------------------
  // What layout_radial returns

  /** Exactly the genres of n's subtree are placed. */
  lemma {:induction false} LayoutKeys(t: Table, rank: map<string, nat>, sizes: map<string, nat>, spacing: real,
                                      n: string, a: real, b: real, depth: int)
    requires Acyclic(t, rank) && n in t.rows && SizesCover(t, rank, sizes, n)
    ensures Layout(t, rank, sizes, spacing, n, a, b, depth).Keys == Block(t, rank, n)
    decreases |t.order| - rank[n], 1, 0
  {
    var cs := Kids(t, n);
    KidsLayoutKeys(t, rank, sizes, spacing, n, a, b, depth, |cs|);
    assert cs[..|cs|] == cs;
    DescendantsAreKidBlocks(t, rank, n);
    BlockSize(t, rank, n);
  }

  /** The first `i` children's placements cover exactly their subtrees. */
  lemma {:induction false} KidsLayoutKeys(t: Table, rank: map<string, nat>, sizes: map<string, nat>, spacing: real,
                                          n: string, a: real, b: real, depth: int, i: nat)
    requires Acyclic(t, rank) && n in t.rows && SizesCover(t, rank, sizes, n)
    requires i <= |Kids(t, n)|
    ensures KidsLayout(t, rank, sizes, spacing, n, a, b, depth, i).Keys == UnionBlocks(t, rank, Kids(t, n)[..i])
    decreases |t.order| - rank[n], 0, i
  {
    if i > 0 {
      var cs := Kids(t, n);
      KidFacts(t, rank, sizes, n, i - 1);
      KidsLayoutKeys(t, rank, sizes, spacing, n, a, b, depth, i - 1);
      LayoutKeys(t, rank, sizes, spacing, cs[i - 1], Angle(sizes, cs, a, b, i - 1), Angle(sizes, cs, a, b, i), depth + 1);
      KidsKeysStep(t, rank, sizes, spacing, n, a, b, depth, cs, i - 1, i);
    }
  }

  /** One more child adds exactly its subtree to the placed genres. */
  lemma KidsKeysStep(t: Table, rank: map<string, nat>, sizes: map<string, nat>, spacing: real,
                     n: string, a: real, b: real, depth: int, cs: seq<string>, i: nat, i1: nat)
    requires Acyclic(t, rank) && n in t.rows && SizesCover(t, rank, sizes, n)
    requires cs == Kids(t, n) && i < |cs| && i1 == i + 1
    requires cs[i] in t.rows && SizesCover(t, rank, sizes, cs[i])
    requires (forall c :: c in cs ==> c in sizes) && SizeSum(sizes, cs) > 0
    requires KidsLayout(t, rank, sizes, spacing, n, a, b, depth, i).Keys == UnionBlocks(t, rank, cs[..i])
    requires Layout(t, rank, sizes, spacing, cs[i], Angle(sizes, cs, a, b, i), Angle(sizes, cs, a, b, i1), depth + 1).Keys
             == Block(t, rank, cs[i])
    ensures KidsLayout(t, rank, sizes, spacing, n, a, b, depth, i1).Keys == UnionBlocks(t, rank, cs[..i1])
  {
    KidsLayoutStep(t, rank, sizes, spacing, n, a, b, depth, cs, i, i1);
    BlocksStep(t, rank, cs, i, i1);
    KeysJoin(KidsLayout(t, rank, sizes, spacing, n, a, b, depth, i),
             Layout(t, rank, sizes, spacing, cs[i], Angle(sizes, cs, a, b, i), Angle(sizes, cs, a, b, i1), depth + 1),
             UnionBlocks(t, rank, cs[..i]), Block(t, rank, cs[i]));
  }

  lemma KeysJoin<K, V>(x: map<K, V>, y: map<K, V>, u: set<K>, v: set<K>)
    requires x.Keys == u && y.Keys == v
    ensures (x + y).Keys == u + v
  {
  }

  /** The root of the subtree sits at radius `depth * spacing`, in the middle
      of `[a, b]`: no child's placement overrides its entry. */
  lemma LayoutRoot(t: Table, rank: map<string, nat>, sizes: map<string, nat>, spacing: real,
                   n: string, a: real, b: real, depth: int)
    requires Acyclic(t, rank) && n in t.rows && SizesCover(t, rank, sizes, n)
    ensures n in Layout(t, rank, sizes, spacing, n, a, b, depth)
    ensures Layout(t, rank, sizes, spacing, n, a, b, depth)[n] == Placement(RingRadius(depth, spacing), (a + b) / 2.0, depth)
  {
    var cs := Kids(t, n);
    KidsLayoutKeys(t, rank, sizes, spacing, n, a, b, depth, |cs|);
    assert cs[..|cs|] == cs;
    DescendantsAreKidBlocks(t, rank, n);
    BlockSize(t, rank, n);
  }

  /** Every genre under the i-th child is placed as layout_radial places it
      within that child's share `[Angle(i), Angle(i + 1)]` one level deeper:
      later siblings' placements never override it. */
  lemma LayoutChild(t: Table, rank: map<string, nat>, sizes: map<string, nat>, spacing: real,
                    n: string, a: real, b: real, depth: int, i: nat, k: string)
    requires Acyclic(t, rank) && n in t.rows && SizesCover(t, rank, sizes, n)
    requires i < |Kids(t, n)| && k in Block(t, rank, Kids(t, n)[i])
    ensures (forall c :: c in Kids(t, n) ==> c in sizes) && SizeSum(sizes, Kids(t, n)) > 0
    ensures Kids(t, n)[i] in t.rows && SizesCover(t, rank, sizes, Kids(t, n)[i])
    ensures var cs := Kids(t, n);
      var sub := Layout(t, rank, sizes, spacing, cs[i], Angle(sizes, cs, a, b, i), Angle(sizes, cs, a, b, i + 1), depth + 1);
      && k in sub && k in Layout(t, rank, sizes, spacing, n, a, b, depth)
      && Layout(t, rank, sizes, spacing, n, a, b, depth)[k] == sub[k]
  {
    var cs := Kids(t, n);
    KidFacts(t, rank, sizes, n, i);
    var sub := Layout(t, rank, sizes, spacing, cs[i], Angle(sizes, cs, a, b, i), Angle(sizes, cs, a, b, i + 1), depth + 1);
    LayoutKeys(t, rank, sizes, spacing, cs[i], Angle(sizes, cs, a, b, i), Angle(sizes, cs, a, b, i + 1), depth + 1);
    KidsLayoutStep(t, rank, sizes, spacing, n, a, b, depth, cs, i, i + 1);
    UnionRight(KidsLayout(t, rank, sizes, spacing, n, a, b, depth, i), sub, k);
    KidsLayoutChild(t, rank, sizes, spacing, n, a, b, depth, cs, |cs|, i, i + 1, k);
  }

  lemma {:induction false} KidsLayoutChild(t: Table, rank: map<string, nat>, sizes: map<string, nat>, spacing: real,
                                           n: string, a: real, b: real, depth: int, cs: seq<string>,
                                           j: nat, i: nat, i1: nat, k: string)
    requires Acyclic(t, rank) && n in t.rows && SizesCover(t, rank, sizes, n)
    requires cs == Kids(t, n) && i1 == i + 1 && i1 <= j <= |cs| && k in Block(t, rank, cs[i])
    requires k in KidsLayout(t, rank, sizes, spacing, n, a, b, depth, i1)
    ensures k in KidsLayout(t, rank, sizes, spacing, n, a, b, depth, j)
    ensures KidsLayout(t, rank, sizes, spacing, n, a, b, depth, j)[k] == KidsLayout(t, rank, sizes, spacing, n, a, b, depth, i1)[k]
    decreases j
  {
    if j != i1 {
      var j0 := j - 1;
      KidsLayoutStep(t, rank, sizes, spacing, n, a, b, depth, cs, j0, j);
      var lo, hi := Angle(sizes, cs, a, b, j0), Angle(sizes, cs, a, b, j);
      var prev := KidsLayout(t, rank, sizes, spacing, n, a, b, depth, j0);
      var other := Layout(t, rank, sizes, spacing, cs[j0], lo, hi, depth + 1);
      KidsLayoutChild(t, rank, sizes, spacing, n, a, b, depth, cs, j0, i, i1, k);
      LaterKidMisses(t, rank, sizes, spacing, n, cs, i, j0, k, lo, hi, depth + 1);
      UnionKeeps(KidsLayout(t, rank, sizes, spacing, n, a, b, depth, j), prev, other,
                 KidsLayout(t, rank, sizes, spacing, n, a, b, depth, i1), k);
    }
  }

  /** A genre under one child is not placed by a later child's layout. */
  lemma LaterKidMisses(t: Table, rank: map<string, nat>, sizes: map<string, nat>, spacing: real,
                       n: string, cs: seq<string>, i: nat, j: nat, k: string, lo: real, hi: real, depth: int)
    requires Acyclic(t, rank) && n in t.rows && SizesCover(t, rank, sizes, n)
    requires cs == Kids(t, n) && i < j < |cs| && k in Block(t, rank, cs[i])
    ensures cs[j] in t.rows && SizesCover(t, rank, sizes, cs[j])
    ensures k !in Layout(t, rank, sizes, spacing, cs[j], lo, hi, depth)
  {
    KidFacts(t, rank, sizes, n, j);
    KidsSpec(t, n);
    LayoutKeys(t, rank, sizes, spacing, cs[j], lo, hi, depth);
    if k in Block(t, rank, cs[j]) {
      SameParentDisjoint(t, rank, cs[i], cs[j], k);
    }
  }

  /** Placements whose ring is `off` plus the number of the genre's ancestors. */
  ghost predicate OnRings(t: Table, rank: map<string, nat>, spacing: real, m: map<string, Placement>, off: int)
    requires Acyclic(t, rank)
  {
    forall k :: k in m ==>
      && k in t.rows
      && m[k].depth == off + |Ancestors(t, rank, k)|
  }

  /** Placements at radius ring times `spacing`. */
  ghost predicate RadiusByRing(m: map<string, Placement>, spacing: real) {
    forall k :: k in m ==> m[k].r == RingRadius(m[k].depth, spacing)
  }

  lemma RadiusByRingUnion(x: map<string, Placement>, y: map<string, Placement>, spacing: real)
    requires RadiusByRing(x, spacing) && RadiusByRing(y, spacing)
    ensures RadiusByRing(x + y, spacing)
  {
  }

  lemma OnRingsUnion(t: Table, rank: map<string, nat>, spacing: real, x: map<string, Placement>,
                     y: map<string, Placement>, off: int)
    requires Acyclic(t, rank) && OnRings(t, rank, spacing, x, off) && OnRings(t, rank, spacing, y, off)
    ensures OnRings(t, rank, spacing, x + y, off)
  {
  }

  /** Each genre's ring is one more than its parent's: within a subtree laid
      out from ring `depth`, a genre's ring is `depth` plus the number of
      steps up to the subtree's root. */
  lemma {:induction false} LayoutOnRings(t: Table, rank: map<string, nat>, sizes: map<string, nat>, spacing: real,
                                         n: string, a: real, b: real, depth: int, off: int)
    requires Acyclic(t, rank) && n in t.rows && SizesCover(t, rank, sizes, n)
    requires off == depth - |Ancestors(t, rank, n)|
    ensures OnRings(t, rank, spacing, Layout(t, rank, sizes, spacing, n, a, b, depth), off)
    decreases |t.order| - rank[n], 1, 0
  {
    var cs := Kids(t, n);
    KidsLayoutOnRings(t, rank, sizes, spacing, n, a, b, depth, |cs|, off);
    var top := map[n := Placement(RingRadius(depth, spacing), (a + b) / 2.0, depth)];
    OnRingsUnion(t, rank, spacing, top, KidsLayout(t, rank, sizes, spacing, n, a, b, depth, |cs|), off);
  }

  lemma {:induction false} KidsLayoutOnRings(t: Table, rank: map<string, nat>, sizes: map<string, nat>, spacing: real,
                                             n: string, a: real, b: real, depth: int, i: nat, off: int)
    requires Acyclic(t, rank) && n in t.rows && SizesCover(t, rank, sizes, n)
    requires i <= |Kids(t, n)| && off == depth - |Ancestors(t, rank, n)|
    ensures OnRings(t, rank, spacing, KidsLayout(t, rank, sizes, spacing, n, a, b, depth, i), off)
    decreases |t.order| - rank[n], 0, i
  {
    if i != 0 {
      var cs, i0 := Kids(t, n), i - 1;
      KidFacts(t, rank, sizes, n, i0);
      KidsLayoutStep(t, rank, sizes, spacing, n, a, b, depth, cs, i0, i);
      KidsLayoutOnRings(t, rank, sizes, spacing, n, a, b, depth, i0, off);
      AncestorsStep(t, rank, cs[i0]);
      LayoutOnRings(t, rank, sizes, spacing, cs[i0], Angle(sizes, cs, a, b, i0), Angle(sizes, cs, a, b, i), depth + 1, off);
      OnRingsUnion(t, rank, spacing, KidsLayout(t, rank, sizes, spacing, n, a, b, depth, i0),
                   Layout(t, rank, sizes, spacing, cs[i0], Angle(sizes, cs, a, b, i0), Angle(sizes, cs, a, b, i), depth + 1), off);
    }
  }

  /** Placements whose starting angle lies in `[lo, hi]`. */
  ghost predicate InSector(m: map<string, Placement>, lo: real, hi: real) {
    forall k :: k in m ==> lo <= m[k].theta0 <= hi
  }

  lemma InSectorUnion(x: map<string, Placement>, y: map<string, Placement>, lo: real, hi: real)
    requires InSector(x, lo, hi) && InSector(y, lo, hi)
    ensures InSector(x + y, lo, hi)
  {
  }

  lemma InSectorWiden(m: map<string, Placement>, lo: real, hi: real, lo': real, hi': real)
    requires InSector(m, lo, hi) && lo' <= lo && hi <= hi'
    ensures InSector(m, lo', hi')
  {
  }

  /** Every genre of a subtree laid out in `[a, b]` starts its orbit inside
      `[a, b]`: a child's share never leaves its parent's. */
  lemma {:induction false} LayoutInSector(t: Table, rank: map<string, nat>, sizes: map<string, nat>, spacing: real,
                                          n: string, a: real, b: real, depth: int)
    requires Acyclic(t, rank) && n in t.rows && SizesCover(t, rank, sizes, n) && a <= b
    ensures InSector(Layout(t, rank, sizes, spacing, n, a, b, depth), a, b)
    decreases |t.order| - rank[n], 1, 0
  {
    var cs := Kids(t, n);
    KidsLayoutInSector(t, rank, sizes, spacing, n, a, b, depth, |cs|);
    var top := map[n := Placement(RingRadius(depth, spacing), (a + b) / 2.0, depth)];
    InSectorUnion(top, KidsLayout(t, rank, sizes, spacing, n, a, b, depth, |cs|), a, b);
  }

  lemma {:induction false} KidsLayoutInSector(t: Table, rank: map<string, nat>, sizes: map<string, nat>, spacing: real,
                                              n: string, a: real, b: real, depth: int, i: nat)
    requires Acyclic(t, rank) && n in t.rows && SizesCover(t, rank, sizes, n) && a <= b
    requires i <= |Kids(t, n)|
    ensures InSector(KidsLayout(t, rank, sizes, spacing, n, a, b, depth, i), a, b)
    decreases |t.order| - rank[n], 0, i
  {
    if i != 0 {
      var cs, i0 := Kids(t, n), i - 1;
      KidsLayoutStep(t, rank, sizes, spacing, n, a, b, depth, cs, i0, i);
      KidsLayoutInSector(t, rank, sizes, spacing, n, a, b, depth, i0);
      var lo, hi := Angle(sizes, cs, a, b, i0), Angle(sizes, cs, a, b, i);
      SharesTile(sizes, cs, a, b, i0, i);
      KidFacts(t, rank, sizes, n, i0);
      LayoutInSector(t, rank, sizes, spacing, cs[i0], lo, hi, depth + 1);
      var other := Layout(t, rank, sizes, spacing, cs[i0], lo, hi, depth + 1);
      InSectorWiden(other, lo, hi, a, b);
      InSectorUnion(KidsLayout(t, rank, sizes, spacing, n, a, b, depth, i0), other, a, b);
    }
  }

  /** Every placement's radius is its ring times the spacing. */
  lemma {:induction false} LayoutRadiusByRing(t: Table, rank: map<string, nat>, sizes: map<string, nat>, spacing: real,
                                              n: string, a: real, b: real, depth: int)
    requires Acyclic(t, rank) && n in t.rows && SizesCover(t, rank, sizes, n)
    ensures RadiusByRing(Layout(t, rank, sizes, spacing, n, a, b, depth), spacing)
    decreases |t.order| - rank[n], 1, 0
  {
    var cs := Kids(t, n);
    KidsLayoutRadiusByRing(t, rank, sizes, spacing, n, a, b, depth, |cs|);
    var top := map[n := Placement(RingRadius(depth, spacing), (a + b) / 2.0, depth)];
    RadiusByRingUnion(top, KidsLayout(t, rank, sizes, spacing, n, a, b, depth, |cs|), spacing);
  }

  lemma {:induction false} KidsLayoutRadiusByRing(t: Table, rank: map<string, nat>, sizes: map<string, nat>, spacing: real,
                                                  n: string, a: real, b: real, depth: int, i: nat)
    requires Acyclic(t, rank) && n in t.rows && SizesCover(t, rank, sizes, n)
    requires i <= |Kids(t, n)|
    ensures RadiusByRing(KidsLayout(t, rank, sizes, spacing, n, a, b, depth, i), spacing)
    decreases |t.order| - rank[n], 0, i
  {
    if i != 0 {
      var cs, i0 := Kids(t, n), i - 1;
      KidFacts(t, rank, sizes, n, i0);
      KidsLayoutStep(t, rank, sizes, spacing, n, a, b, depth, cs, i0, i);
      KidsLayoutRadiusByRing(t, rank, sizes, spacing, n, a, b, depth, i0);
      var other := Layout(t, rank, sizes, spacing, cs[i0], Angle(sizes, cs, a, b, i0), Angle(sizes, cs, a, b, i), depth + 1);
      LayoutRadiusByRing(t, rank, sizes, spacing, cs[i0], Angle(sizes, cs, a, b, i0), Angle(sizes, cs, a, b, i), depth + 1);
      RadiusByRingUnion(KidsLayout(t, rank, sizes, spacing, n, a, b, depth, i0), other, spacing);
    }
  }
}
