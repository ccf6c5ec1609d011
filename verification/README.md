# spotiflight core, modelled in Dafny

spotiflight is a fly-through of a music-genre space.

- The browser scene (`src/ThreeScene.tsx`) moves a camera through the genre points.
  - Each frame, friction damps the camera's velocity, and the Space key pushes it forward.
  - After moving, the scene looks up the genre nearest to the camera.
  - When that genre changes, the HUD shows its name and its preview song replaces the one playing.
- Three offline scripts prepare the genre data:
  - `scripts/preprocess_tree.py` links every genre to a parent: the first genre whose name is a proper substring of its own name.
  - `scripts/genre_mass.py` gives every genre a mass. The mass is its number of ancestors plus its number of descendants.
  - `scripts/solar_layout.py` lays the genre forest out as a solar system.
    - Every root gets an equal sector of the circle.
    - Each subtree is spread over its sector in proportion to subtree sizes.
    - Each genre sits on ring "depth" at radius depth × spacing.
    - Its angular speed is inversely proportional to that radius.

The project has six modules:

| File | Module | Contents |
|---|---|---|
| `util.dfy` | `Util` | `Option` and `Result` |
| `forest.dfy` | `Forest` | JSON genre tables as ordered maps of records, the children map both scripts build, and the parent/descendant/ancestor relations |
| `scene.dfy` | `Scene` | The scene's per-frame state as a class `Session`, with `KeyDown`, `PlaySong` and `Animate` methods, and the nearest-genre scan |
| `hierarchy.dfy` | `Hierarchy` | The parent search of `preprocess_tree.py`, in place on an array of genres |
| `genre_mass.dfy` | `GenreMass` | `count_descendants`, `count_ancestors` and the mass loop |
| `solar_layout.dfy` | `SolarLayout` | `compute_subtree_sizes` and `layout_radial` |
| `solar_system.dfy` | `SolarSystem` | `main` of `solar_layout.py`: roots, the sector split, `assign_angular_speeds` and the planet records |

Most loops of the source are `method`s with a `while` or `for` loop. The exception is the `for` loop of `assign_angular_speeds`, which builds a dict and is modelled as the map comprehension `SolarSystem.AssignAngularSpeeds`. Each method's `ensures` ties its result or new state to an independent statement, in one of four ways:

- Equality with a specification function: `BuildHierarchy` (`Linked`), `LayoutRadial` (the recursive `Layout`), `LayoutChildren` (`KidsLayout`), `LayoutRoots` and `PlaceRoot` (the recursive `RootsLayout`), `MassOf` (`Mass`), `MakePlanet` (`PlanetRecord`), `BuildPlanets` (the map comprehension `PlanetRows`) and `GeneratePlanets` (`SystemPlanets`). Further properties are lemmas about those functions.
- A characterising predicate: `FindClosestGenre` is specified by `IsClosest`, `BuildChildrenMap` by `HashableParents` and `IsChildrenMapOf`, and the loop steps `LinkToParent` and `Attach` by the prefix predicate `LinkedUpTo`.
- A count of a ghost set: `CountDescendants`, `CountAncestors`, `ComputeSubtreeSizes` and `RootSizes` are specified by the sizes of the descendant, ancestor and subtree sets.
- The new state written out: `ResetLinks`, `AssignMass`, and the `Session` methods `KeyDown`, `PlaySong` and `Animate`, with the invariant `Valid` and lemmas about the functions they use.

- Acyclicity of the parent relation is witnessed by a ghost `rank` map: a parent has a smaller rank than its child.
- The descendants, ancestors and subtree ("block") of a genre are ghost sets defined through that rank.

Two behaviours of the scene's code are worth stating plainly:

- Friction multiplies the velocity by `1 - friction*delta` with no clamp at 0 (`Scene.DecayOvershoot`).
- `findClosestGenre` returns `null` for an empty genre list (`Scene.FindClosestGenre`).

## Model

| member | source | states |
|---|---|---|
| Scene.FindClosestGenre | src/ThreeScene.tsx:145-160 | No genre exactly when the list is empty. Otherwise the returned genre is at least as close to the camera as every genre and strictly closer than every earlier one (ties go to the first in list order). |
| Scene.ClosestUnique | src/ThreeScene.tsx:153-156 | With that tie-break, the nearest genre is unique. |
| Scene.AnnouncedChanges | src/ThreeScene.tsx:131-140 | Over any run of frames, consecutive announced genres differ, and the first differs from the genre remembered before the run. |
| Scene.SteadyAnnouncesOnce | src/ThreeScene.tsx:131-140 | Staying nearest to one genre for any number of frames announces it at most once, and never if it was the remembered genre. |
| Scene.FirstFrameFires | src/ThreeScene.tsx:132 | With nothing remembered yet, a frame announces exactly when some genre is nearest. |
| Scene.Pause | src/ThreeScene.tsx:53 | Only the current handle stops playing; every other handle is unchanged. |
| Scene.Session.constructor | src/ThreeScene.tsx:20-22 | The initial state: zero velocity, camera at z = 30 (set by `startGame` at line 164), nothing remembered, playing or shown. It satisfies the session invariant. |
| Scene.Session.KeyDown | src/ThreeScene.tsx:35-39 | Space lowers the z velocity by the acceleration 3. Any other key changes nothing. |
| Scene.Session.PlaySong | src/ThreeScene.tsx:51-56 | A new handle for the URL is appended and plays. The previous current handle is paused. Afterwards the new handle is the only one playing. |
| Scene.Session.Animate | src/ThreeScene.tsx:111-141 | The velocity decays, then the camera moves along it for `delta`. The nearest genre is found. A transition fires iff that genre exists and differs from the remembered one. On a transition the HUD label, the playing song and the remembered genre switch to it. Otherwise the audio and HUD state are unchanged. The session invariant is preserved. |
| Scene.ValidOnePlaying | src/ThreeScene.tsx:51-56 | Under the session invariant, at most one song plays at any time. |
| Scene.DecayZero | src/ThreeScene.tsx:118 | A zero-length frame leaves the velocity unchanged. |
| Scene.DecayShrinks | src/ThreeScene.tsx:118 | For frames of at most one second, each velocity component moves towards zero without changing sign. |
| Scene.DecayOvershoot | src/ThreeScene.tsx:118 | The factor is not clamped: a two-second frame negates the velocity. |
| Hierarchy.GenreMap | scripts/preprocess_tree.py:11 | Its keys are exactly the genre names. Each name maps to the last genre carrying it. |
| Hierarchy.ResetLinks | scripts/preprocess_tree.py:15-17 | Every genre keeps its name, with no parent and no children. |
| Hierarchy.IsSubstringSpec | scripts/preprocess_tree.py:23 | The substring test holds iff the name occurs at some offset. |
| Hierarchy.ProperSubstringShorter | scripts/preprocess_tree.py:23 | A parent candidate is strictly shorter than the child's name. |
| Hierarchy.FirstParentFrom | scripts/preprocess_tree.py:22-26 | The search returns the first index from `j` whose name is a proper substring, or none when no such index exists. |
| Hierarchy.ParentName | scripts/preprocess_tree.py:20-26 | A parent exists iff some genre's name is a proper substring of the name, and the parent is such a name. |
| Hierarchy.LastIndex | scripts/preprocess_tree.py:11 | Returns the last index holding the name. |
| Hierarchy.ChildIndicesMembers | scripts/preprocess_tree.py:24-25 | A genre is listed as a child of slot `k` iff it comes earlier and its parent's last namesake is `k`. |
| Hierarchy.ChildIndicesIncreasing | scripts/preprocess_tree.py:20-25 | Children are listed in list order. |
| Hierarchy.ChildNamesAreIndices | scripts/preprocess_tree.py:25 | The children list holds the names of those children, in that order. |
| Hierarchy.LinkToParent | scripts/preprocess_tree.py:21-26 | One pass of the outer loop extends the linked prefix of the array by one genre. |
| Hierarchy.Attach | scripts/preprocess_tree.py:24-25 | Setting the parent and appending to the parent's children list extends the linked prefix by one. |
| Hierarchy.BuildHierarchy | scripts/preprocess_tree.py:11-26 | The array ends up equal to the hierarchy specified by the genre names. |
| Hierarchy.ParentIsFirstShorter | scripts/preprocess_tree.py:22-24 | A linked parent is a proper substring of the name and strictly shorter. It is the first such genre in list order. |
| Hierarchy.Lineage | scripts/preprocess_tree.py:23-24 | Following parents strictly shortens the names, never returns to the start, and ends at a genre with no parent. |
| Hierarchy.ChildListedOnce | scripts/preprocess_tree.py:20-26 | A genre is a child of `k` exactly when its parent's last namesake is `k`, and it is then listed there. |
| Hierarchy.MainGenres | scripts/preprocess_tree.py:54 | The main genres are exactly the genres with no parent. |
| Hierarchy.MainGenresOrder | scripts/preprocess_tree.py:54-55 | The main genres are the parentless genres in list order, one entry each, so their number, the divisor at line 55, is the number of genres with no parent. |
| Hierarchy.MainIndicesSpec | scripts/preprocess_tree.py:54 | The comprehension visits the genres in list order: the kept indices increase and are exactly the parentless ones. |
| Hierarchy.MainGenresAt | scripts/preprocess_tree.py:54 | Each kept entry is the genre at the corresponding kept index. |
| Hierarchy.MainIndicesCount | scripts/preprocess_tree.py:55 | There are as many kept indices as genres with no parent. |
| Hierarchy.MainGenreIff | scripts/preprocess_tree.py:54 | A genre is main iff no genre name is a proper substring of its name. |
| Hierarchy.MainGenresNonEmpty | scripts/preprocess_tree.py:54-55 | A non-empty genre list has a main genre, so the angle step never divides by zero. |
| Forest.ParentKey | scripts/genre_mass.py:11-13 | A parent key found is a genre of the table and comes from a truthy `parent` attribute. |
| Forest.BuildChildrenMap | scripts/genre_mass.py:9-13 | Fails (the script's `TypeError`) iff some truthy parent is a list or a dict, which Python cannot use as a key. Otherwise the map lists, under each truthy parent value, exactly the genres naming it, in table order. |
| Forest.SelectMembers | scripts/genre_mass.py:9-13 | A genre is in a parent's list iff it is in the table and its `parent` attribute is that value. |
| Forest.SelectDistinct | scripts/genre_mass.py:9-13 | No genre appears twice in a children list. |
| Forest.KidsSpec | scripts/genre_mass.py:9-13 | The children of `g` are exactly the genres whose parent key is `g`, each listed once. |
| Forest.DescendantsAreKidBlocks | scripts/genre_mass.py:15-21 | The descendants of a genre are the union of its children's subtrees, and their count is the sum of the subtree sizes. |
| Forest.SameParentDisjoint | scripts/solar_layout.py:10-15 | Subtrees of siblings do not overlap. |
| Forest.AncestorRank | scripts/genre_mass.py:27-29 | Every ancestor is a genre of strictly smaller rank, so the parent walk ends. |
| Forest.AncestorsStep | scripts/genre_mass.py:23-30 | A genre with no parent has no ancestors. Otherwise its ancestors are its parent plus the parent's ancestors, one more than the parent has. |
| GenreMass.CountDescendants | scripts/genre_mass.py:15-21 | Returns the number of strict descendants, which is the subtree size minus one. |
| GenreMass.CountAncestors | scripts/genre_mass.py:23-30 | Returns the number of ancestors. |
| GenreMass.MassOf | scripts/genre_mass.py:34-36 | Returns the number of ancestors plus the number of strict descendants. |
| GenreMass.AssignMass | scripts/genre_mass.py:32-37 | Every genre keeps its attributes and gains `mass` = ancestors + descendants. No genre is added or removed, and the order is kept. |
| GenreMass.MassStep | scripts/genre_mass.py:32-37 | Each pass writes the mass of the next genre and leaves the others alone. |
| GenreMass.LeafHasNoDescendants | scripts/genre_mass.py:17-21 | A genre with no children has no descendants. |
| GenreMass.IsolatedRootHasNoMass | scripts/genre_mass.py:33-37 | A root with no children has mass 0. |
| GenreMass.MassAlongEdge | scripts/genre_mass.py:15-30 | A child has exactly one more ancestor than its parent. Its whole subtree lies among the parent's descendants, so the parent has at least one more descendant. |
| SolarLayout.ComputeSubtreeSizes | scripts/solar_layout.py:10-15 | Every genre of the subtree is recorded with its subtree's node count. All other entries are kept. |
| SolarLayout.LayoutRadial | scripts/solar_layout.py:17-31 | The result equals the recursive layout specification. |
| SolarLayout.LayoutChildren | scripts/solar_layout.py:22-30 | The children loop adds exactly the children's layouts to the root's placement. |
| SolarLayout.AngleFormula | scripts/solar_layout.py:24-30 | The running angle before child `j` equals start + (end - start) × (sizes before `j`) / (total size). |
| SolarLayout.SharesTile | scripts/solar_layout.py:24-30 | The children's sub-sectors start at the start angle, never decrease, stay inside the sector and end exactly at the end angle. |
| SolarLayout.ShareBounds | scripts/solar_layout.py:27 | A child's span lies between 0 and the sector's width, and the whole total spans the sector. |
| SolarLayout.LayoutKeys | scripts/solar_layout.py:17-31 | The layout places exactly the subtree of the root. |
| SolarLayout.LayoutRoot | scripts/solar_layout.py:19-21 | The root sits at its ring's radius, at the midpoint of its sector. |
| SolarLayout.LayoutChild | scripts/solar_layout.py:26-29 | Each genre of the i-th child's subtree gets the placement that the recursive call for that child gives it. That call is one ring further out, over the child's own sub-sector. |
| SolarLayout.LayoutOnRings | scripts/solar_layout.py:19-28 | Each genre is placed on the root's ring plus its depth below the root. |
| SolarLayout.LayoutRadiusByRing | scripts/solar_layout.py:19 | Each placed radius is its ring times the spacing. |
| SolarLayout.LayoutInSector | scripts/solar_layout.py:20-28 | Every starting angle in a subtree lies inside the subtree's sector. |
| SolarSystem.RootsSpec | scripts/solar_layout.py:83 | The roots are exactly the genres with a falsy `parent`, listed once each, with no parent key. |
| SolarSystem.RootsMembers | scripts/solar_layout.py:83 | The same for any sub-list of the genre order. |
| SolarSystem.RootSizes | scripts/solar_layout.py:88-90 | The sizes map holds every genre under some root, with its subtree's node count. |
| SolarSystem.SizesPositive | scripts/solar_layout.py:88-90 | Each subtree below a root has positive sizes recorded, so the share division is defined. |
| SolarSystem.RootSectorsTile | scripts/solar_layout.py:93-98 | The roots' sectors start at 0, follow each other without gap or overlap, and end at the full circle. |
| SolarSystem.LayoutRoots | scripts/solar_layout.py:93-104 | The combined layout equals the specification over all roots. |
| SolarSystem.PlaceRoot | scripts/solar_layout.py:97-104 | One pass lays out the next root in its sector at ring 1 and merges the result. |
| SolarSystem.RootsLayoutKeys | scripts/solar_layout.py:96-104 | After `i` roots, exactly their subtrees are placed. |
| SolarSystem.RootsLayoutAt | scripts/solar_layout.py:96-104 | A genre under the i-th root keeps the placement that root's layout gives it. |
| SolarSystem.AssignAngularSpeeds | scripts/solar_layout.py:33-39 | Fails with ZeroDivision iff some radius plus epsilon is 0. Otherwise every placed genre gets ω with ω × (r + ε) = base speed. |
| SolarSystem.OuterPlanetsSlower | scripts/solar_layout.py:38 | For a positive base speed, a larger radius gives a smaller, still positive, speed. |
| SolarSystem.PlanetRecord | scripts/solar_layout.py:115-122 | The record has `r`, `theta0`, `depth`, `omega` and `mass`, and no `x`, `y` or `z`. |
| SolarSystem.PlanetRecordKeeps | scripts/solar_layout.py:115-122 | All other attributes are copied unchanged. |
| SolarSystem.MakePlanet | scripts/solar_layout.py:113-122 | Builds one planet record from the genre's layout, speed and size, each possibly missing. |
| SolarSystem.BuildPlanets | scripts/solar_layout.py:112-123 | Every genre, in input order, gets its planet record. |
| SolarSystem.SystemPlanets | scripts/solar_layout.py:75-123 | Fails with Unhashable (the `TypeError` at line 80) iff some truthy parent is a list or a dict. Otherwise it fails with NoRoots iff no genre has a falsy parent. On success it keeps the genre order and the set of genres. |
| SolarSystem.GeneratePlanets | scripts/solar_layout.py:75-123 | `main` without I/O computes exactly that specification, including its errors. |
| SolarSystem.SystemLayoutRings | scripts/solar_layout.py:93-104 | The genres under some root are exactly those placed. Each is on ring 1 + its ancestor count, at that ring's radius. |
| SolarSystem.PlacedLayout | scripts/solar_layout.py:96-104 | A genre under the i-th root is placed on ring 1 + its ancestor count, at that radius, inside the i-th sector. |
| SolarSystem.ChildOneRingOut | scripts/solar_layout.py:28 | A placed genre's parent is placed one ring further in, exactly one spacing closer to the centre. |
| SolarSystem.PlanetOf | scripts/solar_layout.py:112-123 | On success, every genre's output record is its planet record. |
| SolarSystem.PlanetsRaise | scripts/solar_layout.py:107-109 | `main` fails with ZeroDivision iff every truthy parent hashes, there are roots, and some placed genre's ring radius plus epsilon is 0. |
| SolarSystem.PlacedPlanet | scripts/solar_layout.py:112-123 | On success, a genre under the i-th root is written with: depth = 1 + its ancestor count, r = depth × spacing, theta0 inside the i-th sector, ω × (r + ε) = base speed, and its own mass or else its subtree size. |
| SolarSystem.UnplacedPlanet | scripts/solar_layout.py:116-122 | On success, a genre under no root is written with `r`, `theta0`, `depth` and `omega` all null, and its own mass or else 1. |

## Left out

- Rendering is not modelled: the Three.js scene, the point cloud, the bloom pass and `console.log`.
- The point sizes and colours in the scene are random or presentational, so they are not modelled.
- In `preprocess_tree.py:28-75` only the main-genre list and the angle step's divisor (lines 54-55) are modelled. The rest is random positions, colours and the JSON written, which are not modelled.
- The angle step's value at `preprocess_tree.py:55` is not computed. Only its divisor is shown non-zero.
- File and JSON I/O, `argparse` and `print` in all three scripts are left out.
- The genre list the scene imports is a constructor parameter.
- The frame clock is the `delta` parameter.
- Pointer-lock camera orientation is an opaque rotation matrix parameter of `Animate`.
- `translateOnAxis` is modelled as "add the rotated velocity times `delta`".
- Audio elements are handles with a `playing` flag. Loading, the asynchronous `play()` promise and playback failures are not modelled.
- A missing HUD context is the constant `hasHud`.
- Numbers are exact reals, not IEEE doubles: rounding, NaN and infinities are not modelled. `Infinity` as the initial distance is "no candidate yet".
- Distances are compared squared, since the square root is monotone on non-negative numbers.
- 2π is the parameter `fullCircle`.
- Default argument values (depth 0, spacing 200, base speed 0.8, epsilon 0.001) are explicit parameters.
- Genre identity in the scene is the index in the constant genre list, which is what the source's reference comparison amounts to.
- Duplicate genre names are kept as the source keeps them: `genre_map` keeps the last namesake, and a child is appended to that one.
- GenreMass.CountAncestors, GenreMass.MassOf, GenreMass.AssignMass: require every truthy `parent` to name a genre of the table (`Closed`). Otherwise the script raises, and that error is not modelled:
  - a list or dict parent raises `TypeError` while building the children map;
  - any other missing parent raises `KeyError` in `count_ancestors`.

  `Forest.BuildChildrenMap` does model the `TypeError`, and `AssignMass` rules it out through `Closed`.
- GenreMass.CountDescendants, GenreMass.AssignMass, SolarLayout.ComputeSubtreeSizes, SolarLayout.LayoutRadial, SolarSystem.SystemPlanets, SolarSystem.GeneratePlanets: require the whole parent relation to be acyclic, witnessed by `rank`.
  - On a cycle, `genre_mass.py` loops forever in `count_ancestors`, which the mass loop calls first for every genre.
  - `solar_layout.py` never diverges on a cycle. A genre on a cycle never reaches a genre with a falsy parent, so the recursion from the roots never enters a cycle, and `main` simply leaves those genres unplaced. Requiring `Acyclic` excludes every such table, although `main` handles them all. This is an accepted gap of the model.
- SolarLayout.LayoutRadial: requires recorded positive sizes for the whole subtree (`SizesCover`). `main` always provides them, so the `ZeroDivisionError`/`KeyError` a direct caller could provoke is not modelled.
- The `ValueError` for a JSON top level that is not an object (`solar_layout.py:72-73`) is not modelled: the input is already a table of records.
- A `parent` attribute is compared as a JSON value. Python's equal hashing of `1`, `1.0` and `True` as dictionary keys is not modelled.
- The key order of the intermediate `sizes`, layout and `omega` dictionaries is not modelled (maps are unordered). The order of the written planets, which follows the input, is kept.
- A genre record (`Forest.Record`) is a map, so the order of its attributes is not modelled. In the written JSON a planet keeps the input attributes in their order and appends those of `r`, `theta0`, `depth`, `omega` and `mass` it did not already have; the model keeps only which attributes there are and their values.
- The children loop of `layout_radial` is its own method (`LayoutChildren`), and the body of `main`'s root loop is `PlaceRoot`. The recursion and iteration order are unchanged.
