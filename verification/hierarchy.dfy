/**
 * scripts/preprocess_tree.py, lines 10-26 and 54: discover the genre
 * hierarchy from names alone.  A genre's parent is the first genre, in list
 * order, whose name occurs inside its own name without being equal to it;
 * the parent's `children` list (reached through the name -> genre dict)
 * collects the child's name.
 *
 * The list of genre dicts is an array updated in place.  The name -> genre
 * dict holds, for each name, the LAST genre of the list carrying it (a dict
 * comprehension keeps the last binding), so with repeated names the children
 * go to that one.
 */
module Hierarchy {
  import opened Util

  /** A genre dict as far as this script's hierarchy step touches it. */
  datatype Genre = Genre(name: string, parent: Option<string>, children: seq<string>)

  function Names(gs: seq<Genre>): (ns: seq<string>)
    ensures |ns| == |gs| && forall i :: 0 <= i < |gs| ==> ns[i] == gs[i].name
  {
    seq(|gs|, i requires 0 <= i < |gs| => gs[i].name)
  }

  // ---------------------------------------------------------------------------
  // Python's `p in s` on strings

  predicate IsPrefix(p: string, s: string) {
    |p| <= |s| && s[..|p|] == p
  }

  /** `p in s`, scanning the start positions of `s` from the left. */
  predicate IsSubstring(p: string, s: string)
    decreases |s|
  {
    IsPrefix(p, s) || (|s| > 0 && IsSubstring(p, s[1..]))
  }

  /** `p` occurs in `s` starting at position `i`. */
  ghost predicate OccursAt(p: string, s: string, i: int) {
    0 <= i && i + |p| <= |s| && s[i..i + |p|] == p
  }

  /** The scan finds an occurrence exactly when there is one. */
  lemma {:induction false} IsSubstringSpec(p: string, s: string)
    ensures IsSubstring(p, s) <==> exists i :: OccursAt(p, s, i)
    decreases |s|
  {
    if IsPrefix(p, s) {
      assert OccursAt(p, s, 0);
    } else if |s| > 0 {
      IsSubstringSpec(p, s[1..]);
      if IsSubstring(p, s[1..]) {
        var i :| OccursAt(p, s[1..], i);
        assert s[1..][i..i + |p|] == s[i + 1..i + 1 + |p|];
        assert OccursAt(p, s, i + 1);
      }
      if i :| OccursAt(p, s, i) {
        assert i != 0;
        assert s[1..][i - 1..i - 1 + |p|] == s[i..i + |p|];
        assert OccursAt(p, s[1..], i - 1);
      }
    }
  }

  /** `potential_parent["name"] in name and potential_parent["name"] != name` */
  predicate ProperSubstring(p: string, s: string) {
    IsSubstring(p, s) && p != s
  }

  /** A proper substring is strictly shorter. */
  lemma ProperSubstringShorter(p: string, s: string)
    requires ProperSubstring(p, s)
    ensures |p| < |s|
  {
    IsSubstringSpec(p, s);
    var i :| OccursAt(p, s, i);
  }

  // ---------------------------------------------------------------------------
  // The parent search (preprocess_tree.py:20-26)

  /** The first index from `j` on whose name is a proper substring of `s`. */
  function FirstParentFrom(names: seq<string>, s: string, j: nat): (r: Option<nat>)
    requires j <= |names|
    ensures r.Some? ==>
      && j <= r.value < |names|
      && ProperSubstring(names[r.value], s)
      && forall q {:trigger ProperSubstring(names[q], s)} :: j <= q < r.value ==> !ProperSubstring(names[q], s)
    ensures r.None? ==> forall q {:trigger ProperSubstring(names[q], s)} :: j <= q < |names| ==> !ProperSubstring(names[q], s)
    decreases |names| - j
  {
    if j == |names| then None
    else if ProperSubstring(names[j], s) then Some(j)
    else FirstParentFrom(names, s, j + 1)
  }

  /** The index of the parent of a genre named `s`. */
  function ParentIndex(names: seq<string>, s: string): Option<nat> {
    FirstParentFrom(names, s, 0)
  }

  /** `genre["parent"]` after the search: the parent's name, or None. */
  function ParentName(names: seq<string>, s: string): (r: Option<string>)
    ensures r.Some? <==> exists q :: 0 <= q < |names| && ProperSubstring(names[q], s)
    ensures r.Some? ==> r.value in names && ProperSubstring(r.value, s)
  {
    match ParentIndex(names, s)
    case None => None
    case Some(p) => Some(names[p])
  }

  /** `genre_map[n]`: the last genre of the list named `n`. */
  function LastIndex(names: seq<string>, n: string): (r: nat)
    requires n in names
    ensures r < |names| && names[r] == n
    ensures forall q :: r < q < |names| ==> names[q] != n
  {
    if names[|names| - 1] == n then |names| - 1
    else LastIndex(names[..|names| - 1], n)
  }

  /** The genre whose `children` list receives genre `i`, if it has a parent. */
  function Slot(names: seq<string>, i: nat): Option<nat>
    requires i < |names|
  {
    match ParentIndex(names, names[i])
    case None => None
    case Some(p) => Some(LastIndex(names, names[p]))
  }

  /** The genres among the first `i` appended to genre k's `children`, in
      outer-loop order. */
  function ChildIndices(names: seq<string>, k: nat, i: nat): (r: seq<nat>)
    requires i <= |names|
    ensures forall m :: 0 <= m < |r| ==> r[m] < i
  {
    if i == 0 then []
    else ChildIndices(names, k, i - 1) + (if Slot(names, i - 1) == Some(k) then [i - 1] else [])
  }

  /** Genre k collects exactly the genres whose parent search ends on it. */
  lemma {:induction false} ChildIndicesMembers(names: seq<string>, k: nat, i: nat, x: nat)
    requires i <= |names|
    ensures x in ChildIndices(names, k, i) <==> x < i && Slot(names, x) == Some(k)
  {
    if i > 0 {
      ChildIndicesMembers(names, k, i - 1, x);
      var r' := ChildIndices(names, k, i - 1);
      if Slot(names, i - 1) == Some(k) {
        assert ChildIndices(names, k, i) == r' + [i - 1];
        if x == i - 1 {
          assert (r' + [i - 1])[|r'|] == x;
        } else {
          assert x in r' + [i - 1] <==> x in r';
        }
      } else {
        assert ChildIndices(names, k, i) == r';
      }
    }
  }

  predicate Increasing(r: seq<nat>) {
    forall a, b :: 0 <= a < b < |r| ==> r[a] < r[b]
  }

  /** ... each once and in list order. */
  lemma {:induction false} ChildIndicesIncreasing(names: seq<string>, k: nat, i: nat)
    requires i <= |names|
    ensures Increasing(ChildIndices(names, k, i))
  {
    if i > 0 {
      ChildIndicesIncreasing(names, k, i - 1);
      var r' := ChildIndices(names, k, i - 1);
      var r := ChildIndices(names, k, i);
      assert r == r' + (if Slot(names, i - 1) == Some(k) then [i - 1] else []);
      forall a, b | 0 <= a < b < |r|
        ensures r[a] < r[b]
      {
        if b < |r'| {
          assert r[a] == r'[a] && r[b] == r'[b];
        } else {
          assert r[a] == r'[a] && r[b] == i - 1;
        }
      }
    }
  }

  /** Genre k's `children` list after the first `i` genres were searched. */
  function ChildNames(names: seq<string>, k: nat, i: nat): seq<string>
    requires i <= |names|
  {
    if i == 0 then []
    else ChildNames(names, k, i - 1) + (if Slot(names, i - 1) == Some(k) then [names[i - 1]] else [])
  }

  /** The `children` list names, in order, exactly the genres of ChildIndices. */
  lemma {:induction false} ChildNamesAreIndices(names: seq<string>, k: nat, i: nat)
    requires i <= |names|
    ensures var ci := ChildIndices(names, k, i);
      && |ChildNames(names, k, i)| == |ci|
      && forall m :: 0 <= m < |ci| ==> ChildNames(names, k, i)[m] == names[ci[m]]
  {
    if i > 0 {
      ChildNamesAreIndices(names, k, i - 1);
      var ci', cn' := ChildIndices(names, k, i - 1), ChildNames(names, k, i - 1);
      var ci, cn := ChildIndices(names, k, i), ChildNames(names, k, i);
      forall m | 0 <= m < |ci|
        ensures cn[m] == names[ci[m]]
      {
        if m < |ci'| {
          assert ci[m] == ci'[m] && cn[m] == cn'[m];
        }
      }
    }
  }

  /** The genre list after lines 15-26 ran on genres named `names`. */
  function Linked(names: seq<string>): (gs: seq<Genre>)
    ensures |gs| == |names|
  {
    seq(|names|, i requires 0 <= i < |names| =>
      Genre(names[i], ParentName(names, names[i]), ChildNames(names, i, |names|)))
  }

  /** `genre_map`: each name maps to the last genre carrying it. */
  function GenreMap(names: seq<string>): (m: map<string, nat>)
    ensures forall nm :: nm in m <==> nm in names
    ensures forall nm :: nm in m ==>
      && m[nm] < |names| && names[m[nm]] == nm
      && forall q :: m[nm] < q < |names| ==> names[q] != nm
  {
    map nm | nm in names :: LastIndex(names, nm)
  }

  /** The genre list once the parent search has run for the first `i` genres. */
  ghost predicate LinkedUpTo(gs: seq<Genre>, names: seq<string>, i: nat)
    requires i <= |names|
  {
    && |gs| == |names|
    && forall k :: 0 <= k < |gs| ==>
         gs[k] == Genre(names[k],
                        if k < i then ParentName(names, names[k]) else None,
                        ChildNames(names, k, i))
  }

  /** preprocess_tree.py:15-17: every genre starts with no parent and no
      children. */
  method ResetLinks(genres: array<Genre>)
    modifies genres
    ensures forall k :: 0 <= k < genres.Length ==>
      genres[k] == old(genres[k]).(parent := None, children := [])
  {
    for i := 0 to genres.Length
      invariant forall k :: 0 <= k < i ==>
        genres[k] == old(genres[k]).(parent := None, children := [])
      invariant forall k :: i <= k < genres.Length ==> genres[k] == old(genres[k])
    {
      genres[i] := genres[i].(children := [], parent := None);
    }
  }

  /** The outer loop's step when genre i has no parent: only its (already
      None) parent is now final. */
  lemma LinkNone(gs: seq<Genre>, names: seq<string>, i: nat)
    requires i < |names| && LinkedUpTo(gs, names, i) && Slot(names, i).None?
    ensures LinkedUpTo(gs, names, i + 1)
  {
    ChildNamesUnchanged(names, i, i + 1);
    assert ParentName(names, names[i]).None? by {
      assert ParentIndex(names, names[i]).None?;
    }
    forall k | 0 <= k < |gs|
      ensures gs[k] == Genre(names[k], if k < i + 1 then ParentName(names, names[k]) else None, ChildNames(names, k, i + 1))
    {
      assert gs[k] == Genre(names[k], if k < i then ParentName(names, names[k]) else None, ChildNames(names, k, i));
      if k == i {
        assert ParentName(names, names[k]).None?;
      }
    }
  }

  lemma ChildNamesUnchanged(names: seq<string>, i: nat, i1: nat)
    requires i < |names| && i1 == i + 1 && Slot(names, i).None?
    ensures forall k :: ChildNames(names, k, i1) == ChildNames(names, k, i)
  {
    assert i1 - 1 == i;
  }

  /** The outer loop's step when genre i's parent is at index p: genre i's
      parent is set and its name is appended to the children of the last
      genre named like the parent. */
  lemma LinkFound(gs: seq<Genre>, names: seq<string>, i: nat, p: nat, slot: nat)
    requires i < |names| && LinkedUpTo(gs, names, i)
    requires ParentIndex(names, names[i]) == Some(p) && slot == LastIndex(names, names[p])
    ensures slot != i
    ensures LinkedUpTo(gs[i := gs[i].(parent := Some(names[p]))]
                         [slot := gs[slot].(children := gs[slot].children + [names[i]])],
                       names, i + 1)
  {
    SlotFound(names, i, p, slot);
    ChildNamesGrow(names, i, i + 1, slot);
    var gs' := gs[i := gs[i].(parent := Some(names[p]))]
                 [slot := gs[slot].(children := gs[slot].children + [names[i]])];
    forall k | 0 <= k < |gs'|
      ensures gs'[k] == Genre(names[k], if k < i + 1 then ParentName(names, names[k]) else None,
                              ChildNames(names, k, i + 1))
    {
      assert gs[k] == Genre(names[k], if k < i then ParentName(names, names[k]) else None,
                            ChildNames(names, k, i));
      if k == slot {
        assert gs'[k] == gs[k].(children := gs[k].children + [names[i]]);
      } else if k == i {
        assert gs'[k] == gs[k].(parent := Some(names[p]));
      } else {
        assert gs'[k] == gs[k];
      }
    }
  }

  /** Genre i's parent search ends on genre p, whose last namesake takes the
      child; that genre is not i itself. */
  lemma SlotFound(names: seq<string>, i: nat, p: nat, slot: nat)
    requires i < |names|
    requires ParentIndex(names, names[i]) == Some(p) && slot == LastIndex(names, names[p])
    ensures Slot(names, i) == Some(slot) && slot != i
    ensures ParentName(names, names[i]) == Some(names[p])
  {
  }

  /** Searching genre i appends its name to the children of its slot only. */
  lemma ChildNamesGrow(names: seq<string>, i: nat, i1: nat, slot: nat)
    requires i < |names| && i1 == i + 1 && Slot(names, i) == Some(slot)
    ensures forall k ::
      ChildNames(names, k, i1) == ChildNames(names, k, i) + (if k == slot then [names[i]] else [])
  {
    assert i1 - 1 == i;
  }

  /** The list's genres keep their names. */
  lemma NameAt(gs: seq<Genre>, names: seq<string>, i: nat, j: nat)
    requires i <= |names| && LinkedUpTo(gs, names, i) && j < |gs|
    ensures gs[j].name == names[j]
  {
  }

  /** preprocess_tree.py:21-26, one turn of the outer loop: scan the list for
      the first proper-substring name, record it as genre i's parent, append
      genre i's name to that parent's `children` and stop scanning. */
  method LinkToParent(genres: array<Genre>, genreMap: map<string, nat>, ghost names: seq<string>, i: nat)
    requires i < |names| && genreMap == GenreMap(names)
    requires LinkedUpTo(genres[..], names, i)
    modifies genres
    ensures LinkedUpTo(genres[..], names, i + 1)
  {
    ghost var gs := genres[..];
    NameAt(gs, names, i, i);
    var name := genres[i].name;
    var n := genres.Length;
    var j := 0;
    while j < n
      invariant 0 <= j <= n
      invariant ParentIndex(names, name) == FirstParentFrom(names, name, j)
      invariant genres[..] == gs
    {
      NameAt(gs, names, i, j);
      var candidate := genres[j].name;
      if IsSubstring(candidate, name) && candidate != name {
        var slot := genreMap[candidate];
        Attach(genres, names, i, j, slot);
        return;
      }
      j := j + 1;
    }
    LinkNone(gs, names, i);
  }

  /** preprocess_tree.py:24-25: genre i takes genre p's name as its parent
      and its name is appended to the `children` of genre `slot`, the entry
      the name dict holds for that parent name. */
  method Attach(genres: array<Genre>, ghost names: seq<string>, i: nat, p: nat, slot: nat)
    requires i < |names| && LinkedUpTo(genres[..], names, i)
    requires ParentIndex(names, names[i]) == Some(p) && slot == LastIndex(names, names[p])
    modifies genres
    ensures LinkedUpTo(genres[..], names, i + 1)
  {
    ghost var gs := genres[..];
    LinkFound(gs, names, i, p, slot);
    NameAt(gs, names, i, i);
    NameAt(gs, names, i, p);
    genres[i] := genres[i].(parent := Some(genres[p].name));
    genres[slot] := genres[slot].(children := genres[slot].children + [genres[i].name]);
    assert genres[..] == gs[i := gs[i].(parent := Some(names[p]))]
                           [slot := gs[slot].(children := gs[slot].children + [names[i]])];
  }

  /** preprocess_tree.py:11-26: reset every genre's `parent` and `children`,
      then give each genre the first proper-substring genre as its parent and
      append its name to that parent's `children` (through the name dict). */
  method BuildHierarchy(genres: array<Genre>)
    modifies genres
    ensures genres[..] == Linked(Names(old(genres[..])))
  {
    var names := Names(genres[..]);
    var genreMap := GenreMap(names);
    ResetLinks(genres);
    for i := 0 to genres.Length
      invariant LinkedUpTo(genres[..], names, i)
    {
      LinkToParent(genres, genreMap, names, i);
    }
    assert forall k :: 0 <= k < genres.Length ==> genres[..][k] == Linked(names)[k];
  }

  // ---------------------------------------------------------------------------
  // What the hierarchy guarantees

  /** Every assigned parent is a genre of the list whose name is a proper
      substring, hence strictly shorter; no earlier genre qualified. */
  lemma ParentIsFirstShorter(names: seq<string>, i: nat)
    requires i < |names|
    ensures var g := Linked(names)[i];
      g.parent.Some? ==>
        && ProperSubstring(g.parent.value, g.name)
        && |g.parent.value| < |g.name|
        && var p := ParentIndex(names, names[i]).value;
           names[p] == g.parent.value &&
           forall q :: 0 <= q < p ==> !ProperSubstring(names[q], g.name)
  {
    var g := Linked(names)[i];
    if g.parent.Some? {
      ProperSubstringShorter(g.parent.value, g.name);
    }
  }

  /** Following parents from a genre named `s`: the chain of ancestor names.
      Names strictly shrink along it, so no genre is its own ancestor and
      every chain ends at a genre without a parent: the hierarchy is a forest. */
  function Lineage(names: seq<string>, s: string): (chain: seq<string>)
    ensures forall m :: 0 <= m < |chain| ==> |chain[m]| < |s|
    ensures s !in chain
    ensures forall m :: 0 < m < |chain| ==> |chain[m]| < |chain[m - 1]|
    ensures chain == [] <==> ParentName(names, s).None?
    ensures chain != [] ==> chain[0] == ParentName(names, s).value
    ensures chain != [] ==> ParentName(names, chain[|chain| - 1]).None?
    decreases |s|
  {
    match ParentName(names, s)
    case None => []
    case Some(p) =>
      ProperSubstringShorter(p, s);
      [p] + Lineage(names, p)
  }

  /** preprocess_tree.py:54: `[g for g in genres_list if g["parent"] is None]` */
  function MainGenres(gs: seq<Genre>): (mains: seq<Genre>)
    ensures forall g :: g in mains <==> g in gs && g.parent.None?
  {
    if gs == [] then []
    else (if gs[0].parent.None? then [gs[0]] else []) + MainGenres(gs[1..])
  }

  /** The indices from `i` on of the genres with no parent, in list order. */
  function MainIndicesFrom(gs: seq<Genre>, i: nat): seq<nat>
    decreases |gs| - i
  {
    if i >= |gs| then []
    else (if gs[i].parent.None? then [i] else []) + MainIndicesFrom(gs, i + 1)
  }

  /** The set of indices from `i` on of the genres with no parent. */
  function ParentlessFrom(gs: seq<Genre>, i: nat): set<nat>
  {
    set k: nat | i <= k < |gs| && gs[k].parent.None?
  }

  /** The parentless indices from `i` on are listed once each, so there
      are as many of them as there are genres from `i` on with no parent. */
  lemma {:induction false} MainIndicesCount(gs: seq<Genre>, i: nat)
    requires i <= |gs|
    ensures |MainIndicesFrom(gs, i)| == |ParentlessFrom(gs, i)|
    decreases |gs| - i
  {
    if i == |gs| {
      assert ParentlessFrom(gs, i) == {};
    } else {
      MainIndicesCount(gs, i + 1);
      if gs[i].parent.None? {
        assert ParentlessFrom(gs, i) == {i} + ParentlessFrom(gs, i + 1);
        assert i !in ParentlessFrom(gs, i + 1);
      } else {
        assert ParentlessFrom(gs, i) == ParentlessFrom(gs, i + 1);
      }
    }
  }

  /** The parentless indices from `i` on are listed in increasing order,
      each parentless genre's index once. */
  lemma {:induction false} MainIndicesSpec(gs: seq<Genre>, i: nat)
    requires i <= |gs|
    ensures var ix := MainIndicesFrom(gs, i);
      && (forall j :: 0 <= j < |ix| ==> i <= ix[j] < |gs|)
      && Increasing(ix)
      && (forall k :: i <= k < |gs| ==> (k in ix <==> gs[k].parent.None?))
    decreases |gs| - i
  {
    if i < |gs| {
      MainIndicesSpec(gs, i + 1);
      var ix, rest := MainIndicesFrom(gs, i), MainIndicesFrom(gs, i + 1);
      if gs[i].parent.None? {
        assert ix == [i] + rest;
        forall a, b | 0 <= a < b < |ix|
          ensures ix[a] < ix[b]
        {
          assert ix[b] == rest[b - 1];
        }
      } else {
        assert ix == rest;
      }
    }
  }

  /** The comprehension of line 54 keeps the list order: the main genres
      of `gs[i..]` are the genres at the parentless indices, in order. */
  lemma {:induction false} MainGenresAt(gs: seq<Genre>, i: nat)
    requires i <= |gs|
    ensures var ix := MainIndicesFrom(gs, i);
      && |MainGenres(gs[i..])| == |ix|
      && forall j :: 0 <= j < |ix| ==> ix[j] < |gs| && MainGenres(gs[i..])[j] == gs[ix[j]]
    decreases |gs| - i
  {
    MainIndicesSpec(gs, i);
    if i < |gs| {
      MainGenresAt(gs, i + 1);
      var ix, rest := MainIndicesFrom(gs, i), MainIndicesFrom(gs, i + 1);
      var m, m' := MainGenres(gs[i..]), MainGenres(gs[i + 1..]);
      assert gs[i..][1..] == gs[i + 1..];
      if gs[i].parent.None? {
        assert ix == [i] + rest && m == [gs[i]] + m';
        forall j | 0 < j < |ix|
          ensures m[j] == gs[ix[j]]
        {
          assert m[j] == m'[j - 1] && ix[j] == rest[j - 1];
        }
      } else {
        assert ix == rest && m == m';
      }
    }
  }

  /** The main genres are the parentless genres in list order, one entry
      per parentless genre, so their number (the divisor at line 55) is the
      number of genres with no parent. */
  lemma MainGenresOrder(gs: seq<Genre>)
    ensures var ix := MainIndicesFrom(gs, 0);
      && |MainGenres(gs)| == |ix| == |ParentlessFrom(gs, 0)|
      && (forall j :: 0 <= j < |ix| ==> ix[j] < |gs| && MainGenres(gs)[j] == gs[ix[j]])
      && Increasing(ix)
      && (forall k :: 0 <= k < |gs| ==> (k in ix <==> gs[k].parent.None?))
  {
    MainIndicesSpec(gs, 0);
    MainGenresAt(gs, 0);
    MainIndicesCount(gs, 0);
    assert gs[0..] == gs;
  }

  /** A genre is a main genre exactly when no genre's name is a proper
      substring of its name. */
  lemma MainGenreIff(names: seq<string>, i: nat)
    requires i < |names|
    ensures Linked(names)[i] in MainGenres(Linked(names)) <==>
      forall q :: 0 <= q < |names| ==> !ProperSubstring(names[q], names[i])
  {
  }

  /** An index of a shortest name. */
  function Shortest(names: seq<string>): (m: nat)
    requires |names| > 0
    ensures m < |names| && forall q :: 0 <= q < |names| ==> |names[m]| <= |names[q]|
  {
    if |names| == 1 then 0
    else
      var m := Shortest(names[1..]) + 1;
      if |names[0]| <= |names[m]| then 0 else m
  }

  /** A non-empty list has a main genre (a shortest name has no parent), so
      `(2 * math.pi) / len(main_genres)` at line 55 never divides by zero. */
  lemma MainGenresNonEmpty(names: seq<string>)
    requires |names| > 0
    ensures |MainGenres(Linked(names))| > 0
  {
    var m := Shortest(names);
    var g := Linked(names)[m];
    if g.parent.Some? {
      ProperSubstringShorter(g.parent.value, names[m]);
      assert false;
    }
    assert g in MainGenres(Linked(names));
  }

  /** Each genre with a parent sits exactly once in exactly one `children`
      list: that of the last genre carrying the parent's name. */
  lemma ChildListedOnce(names: seq<string>, i: nat, k: nat)
    requires i < |names| && k < |names|
    ensures var ci := ChildIndices(names, k, |names|);
      && (i in ci <==> Slot(names, i) == Some(k))
      && (Slot(names, i) == Some(k) ==>
            names[k] == ParentName(names, names[i]).value &&
            forall q :: k < q < |names| ==> names[q] != names[k])
      && Increasing(ci)
  {
    ChildIndicesMembers(names, k, |names|, i);
    ChildIndicesIncreasing(names, k, |names|);
  }
}
