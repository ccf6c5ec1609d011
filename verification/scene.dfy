/**
 * src/ThreeScene.tsx: the per-frame logic of the fly-through scene.  The
 * camera drifts with a velocity that friction decays every frame and the
 * Space key pushes forward; after each move the genre nearest to the camera
 * is looked up, and when it changes the HUD shows its name and its preview
 * song replaces the one playing.
 *
 * Coordinates are exact reals.  Distances are compared squared: the square
 * root is monotone on non-negative numbers, so the comparisons of
 * `distanceTo` come out the same.  A genre is identified by its index in the
 * (constant) genre list, as the source compares references into that list.
 * Audio elements are handles (indices into the list of every element ever
 * created) carrying a `playing` flag.
 */
module Scene {
  import opened Util

  datatype Vec3 = Vec3(x: real, y: real, z: real)

  function Add(a: Vec3, b: Vec3): Vec3 {
    Vec3(a.x + b.x, a.y + b.y, a.z + b.z)
  }

  function Scale(v: Vec3, k: real): Vec3 {
    Vec3(v.x * k, v.y * k, v.z * k)
  }

  function Dot(a: Vec3, b: Vec3): real {
    a.x * b.x + a.y * b.y + a.z * b.z
  }

  /** The camera's orientation, as a rotation matrix given by its rows. */
  datatype Mat3 = Mat3(r0: Vec3, r1: Vec3, r2: Vec3)

  function Apply(m: Mat3, v: Vec3): Vec3 {
    Vec3(Dot(m.r0, v), Dot(m.r1, v), Dot(m.r2, v))
  }

  const Identity: Mat3 := Mat3(Vec3(1.0, 0.0, 0.0), Vec3(0.0, 1.0, 0.0), Vec3(0.0, 0.0, 1.0))

  /** ThreeScene.tsx:17, 18, 49 */
  const Acceleration: real := 3.0
  const Friction: real := 1.0
  const Spread: real := 400.0

  /** An entry of genres.json. */
  datatype Genre = Genre(name: string, coordinates: Vec3, previewUrl: string)

  /** Where a genre's point sits in the scene (ThreeScene.tsx:150). */
  function PointPosition(g: Genre): Vec3 {
    Scale(g.coordinates, Spread)
  }

  function SqDist(a: Vec3, b: Vec3): (d: real)
    ensures d >= 0.0
  {
    (a.x - b.x) * (a.x - b.x) + (a.y - b.y) * (a.y - b.y) + (a.z - b.z) * (a.z - b.z)
  }

  function Dist(genres: seq<Genre>, cam: Vec3, j: nat): real
    requires j < |genres|
  {
    SqDist(cam, PointPosition(genres[j]))
  }

  /** Genre k is nearest to the camera, and every genre before it is
      strictly farther (the scan only replaces on a strictly smaller
      distance, so ties go to the earliest). */
  ghost predicate IsClosest(genres: seq<Genre>, cam: Vec3, k: nat) {
    && k < |genres|
    && (forall j :: 0 <= j < |genres| ==> Dist(genres, cam, k) <= Dist(genres, cam, j))
    && (forall j :: 0 <= j < k ==> Dist(genres, cam, k) < Dist(genres, cam, j))
  }

  /** ThreeScene.tsx:145-160: scan the genres keeping the nearest seen so
      far; `null` for an empty list.  The running distance starts at
      Infinity, here "no candidate yet". */
  method FindClosestGenre(genres: seq<Genre>, cam: Vec3) returns (closest: Option<nat>)
    ensures closest.None? <==> |genres| == 0
    ensures closest.Some? ==> IsClosest(genres, cam, closest.value)
  {
    var closestDistance: Option<real> := None;
    closest := None;
    for i := 0 to |genres|
      invariant closest.None? <==> i == 0
      invariant closestDistance.None? <==> closest.None?
      invariant closest.Some? ==>
        && closest.value < i
        && closestDistance.value == Dist(genres, cam, closest.value)
        && (forall j :: 0 <= j < i ==> closestDistance.value <= Dist(genres, cam, j))
        && (forall j :: 0 <= j < closest.value ==> closestDistance.value < Dist(genres, cam, j))
    {
      var distance := SqDist(cam, PointPosition(genres[i]));
      if closestDistance.None? || distance < closestDistance.value {
        closestDistance := Some(distance);
        closest := Some(i);
      }
    }
  }

  /** The nearest genre is unique once ties go to the earliest. */
  lemma ClosestUnique(genres: seq<Genre>, cam: Vec3, k1: nat, k2: nat)
    requires IsClosest(genres, cam, k1) && IsClosest(genres, cam, k2)
    ensures k1 == k2
  {
    assert Dist(genres, cam, k1) == Dist(genres, cam, k2);
  }

  // ---------------------------------------------------------------------------
  // The transition check (ThreeScene.tsx:131-140)

  /** `closestGenre && previousClosestGenre != closestGenre` */
  predicate Fires(previous: Option<nat>, closest: Option<nat>) {
    closest.Some? && previous != closest
  }

  /** `previousClosestGenre` after a frame. */
  function Step(previous: Option<nat>, closest: Option<nat>): Option<nat> {
    if Fires(previous, closest) then closest else previous
  }

  /** The genres announced over a run of frames whose nearest genres are
      `frames`, starting from `previous`. */
  function Announced(previous: Option<nat>, frames: seq<Option<nat>>): seq<nat>
    decreases |frames|
  {
    if frames == [] then []
    else
      var head := if Fires(previous, frames[0]) then [frames[0].value] else [];
      head + Announced(Step(previous, frames[0]), frames[1..])
  }

  /** Once a genre is announced the same genre is not announced again until
      another one has been: consecutive announcements differ, and the first
      differs from the genre announced before the run. */
  lemma {:induction false} AnnouncedChanges(previous: Option<nat>, frames: seq<Option<nat>>)
    ensures var a := Announced(previous, frames);
      && (a != [] ==> previous != Some(a[0]))
      && forall m :: 0 < m < |a| ==> a[m] != a[m - 1]
    decreases |frames|
  {
    if frames != [] {
      var next := Step(previous, frames[0]);
      AnnouncedChanges(next, frames[1..]);
      var rest := Announced(next, frames[1..]);
      var a := Announced(previous, frames);
      if Fires(previous, frames[0]) {
        assert a == [frames[0].value] + rest;
        forall m | 0 < m < |a|
          ensures a[m] != a[m - 1]
        {
          if m == 1 {
            assert a[0] == frames[0].value && a[1] == rest[0];
          } else {
            assert a[m] == rest[m - 1] && a[m - 1] == rest[m - 2];
          }
        }
      } else {
        assert a == rest;
      }
    }
  }

  /** Staying near the same genre for any number of frames announces it at
      most once. */
  lemma {:induction false} SteadyAnnouncesOnce(previous: Option<nat>, g: nat, n: nat)
    ensures |Announced(previous, seq(n, _ => Some(g)))| <= 1
    ensures Announced(Some(g), seq(n, _ => Some(g))) == []
    decreases n
  {
    if n > 0 {
      var frames := seq(n, _ => Some(g));
      assert frames[1..] == seq(n - 1, _ => Some(g));
      SteadyAnnouncesOnce(Some(g), g, n - 1);
    }
  }

  /** Before any transition `previousClosestGenre` is undefined, so the first
      frame with a nearest genre announces it. */
  lemma FirstFrameFires(closest: Option<nat>)
    ensures Fires(None, closest) <==> closest.Some?
  {
  }

  // ---------------------------------------------------------------------------
  // Audio handles and the per-frame session state

  /** An `HTMLAudioElement`, reduced to its source and whether it plays. */
  datatype Audio = Audio(url: string, playing: bool)

  /** Pause the handle `current`, if there is one. */
  function Pause(audios: seq<Audio>, current: Option<nat>): (r: seq<Audio>)
    requires current.Some? ==> current.value < |audios|
    ensures |r| == |audios|
    ensures forall h :: 0 <= h < |r| ==>
      r[h] == if current == Some(h) then audios[h].(playing := false) else audios[h]
  {
    if current.Some? then audios[current.value := audios[current.value].(playing := false)]
    else audios
  }

  /** No two handles play at once. */
  ghost predicate AtMostOnePlaying(audios: seq<Audio>) {
    forall h1, h2 ::
      (0 <= h1 < |audios| && 0 <= h2 < |audios| && audios[h1].playing && audios[h2].playing)
      ==> h1 == h2
  }

  /** The closure state of the scene's effect: `velocity`,
      `previousClosestGenre`, `currentPlayingSong`, the camera position and
      what the HUD shows. */
  class Session {
    const genres: seq<Genre>
    /** Whether a HUD context is available (`hudContext?.`). */
    const hasHud: bool
    var velocity: Vec3
    var position: Vec3
    var previousClosest: Option<nat>
    var currentSong: Option<nat>
    var audios: seq<Audio>
    var hudLabel: Option<string>

    /** Only the current handle can be playing. */
    ghost predicate Valid()
      reads this
    {
      && (currentSong.Some? ==> currentSong.value < |audios|)
      && (forall h :: 0 <= h < |audios| && audios[h].playing ==> currentSong == Some(h))
      && (previousClosest.Some? ==> previousClosest.value < |genres|)
    }

    /** ThreeScene.tsx:20-22 and 164: nothing announced or playing yet, the
        camera at rest at z = 30. */
    constructor (genres: seq<Genre>, hasHud: bool)
      ensures Valid()
      ensures this.genres == genres && this.hasHud == hasHud
      ensures velocity == Vec3(0.0, 0.0, 0.0) && position == Vec3(0.0, 0.0, 30.0)
      ensures previousClosest == None && currentSong == None
      ensures audios == [] && hudLabel == None
    {
      this.genres := genres;
      this.hasHud := hasHud;
      velocity := Vec3(0.0, 0.0, 0.0);
      position := Vec3(0.0, 0.0, 30.0);
      previousClosest := None;
      currentSong := None;
      audios := [];
      hudLabel := None;
    }

    /** ThreeScene.tsx:35-39: Space pushes the camera forward (negative z);
        every other key is ignored. */
    method KeyDown(code: string)
      modifies this`velocity
      ensures code == "Space" ==>
        velocity == Vec3(old(velocity).x, old(velocity).y, old(velocity).z - Acceleration)
      ensures code != "Space" ==> velocity == old(velocity)
    {
      if code == "Space" {
        velocity := velocity.(z := velocity.z - Acceleration);
      }
    }

    /** ThreeScene.tsx:51-56: create a handle for `url`, pause the current
        one and start the new one.  The caller records it as current. */
    method PlaySong(url: string) returns (audio: nat)
      requires Valid()
      modifies this`audios
      ensures audio == |old(audios)|
      ensures audios == Pause(old(audios), currentSong) + [Audio(url, true)]
      ensures forall h :: 0 <= h < |audios| ==> (audios[h].playing <==> h == audio)
    {
      audio := |audios|;
      if currentSong.Some? {
        audios := Pause(audios, currentSong);
      }
      audios := audios + [Audio(url, true)];
    }

    /** ThreeScene.tsx:111-141 without the rendering: decay the velocity,
        move the camera along it (turned by the camera's orientation) for
        `delta` seconds, find the nearest genre and, when it is a new one,
        show its name, switch to its preview and remember it. */
    method Animate(delta: real, orientation: Mat3) returns (closest: Option<nat>, fired: bool)
      requires Valid()
      modifies this`velocity, this`position, this`previousClosest, this`currentSong,
               this`audios, this`hudLabel
      ensures Valid()
      ensures velocity == Decay(old(velocity), delta)
      ensures position == Add(old(position), Scale(Apply(orientation, velocity), delta))
      ensures closest.None? <==> |genres| == 0
      ensures closest.Some? ==> IsClosest(genres, position, closest.value)
      ensures fired <==> Fires(old(previousClosest), closest)
      ensures previousClosest == Step(old(previousClosest), closest)
      ensures fired ==>
        && currentSong == Some(|old(audios)|)
        && audios == Pause(old(audios), old(currentSong))
                     + [Audio(genres[closest.value].previewUrl, true)]
        && hudLabel == (if hasHud then Some(genres[closest.value].name) else old(hudLabel))
      ensures !fired ==>
        currentSong == old(currentSong) && audios == old(audios) && hudLabel == old(hudLabel)
    {
      velocity := Decay(velocity, delta);
      position := Add(position, Scale(Apply(orientation, velocity), delta));
      closest := FindClosestGenre(genres, position);
      fired := closest.Some? && previousClosest != closest;
      if fired {
        var genre := genres[closest.value];
        if hasHud {
          hudLabel := Some(genre.name);
        }
        var audio := PlaySong(genre.previewUrl);
        currentSong := Some(audio);
        previousClosest := closest;
      }
    }
  }

  /** The session invariant keeps at most one song playing. */
  lemma ValidOnePlaying(s: Session)
    requires s.Valid()
    ensures AtMostOnePlaying(s.audios)
  {
  }

  // ---------------------------------------------------------------------------
  // The friction decay (ThreeScene.tsx:118)

  function Decay(v: Vec3, delta: real): Vec3 {
    Scale(v, 1.0 - Friction * delta)
  }

  /** A zero-length frame leaves the velocity as it was. */
  lemma DecayZero(v: Vec3)
    ensures Decay(v, 0.0) == v
  {
  }

  /** For frames no longer than a second every component shrinks towards
      zero without changing sign. */
  lemma DecayShrinks(v: Vec3, delta: real)
    requires 0.0 <= delta <= 1.0
    ensures var w := Decay(v, delta);
      && Shrunk(v.x, w.x) && Shrunk(v.y, w.y) && Shrunk(v.z, w.z)
  {
    var k := 1.0 - Friction * delta;
    assert 0.0 <= k <= 1.0;
    ShrinkFactor(v.x, k);
    ShrinkFactor(v.y, k);
    ShrinkFactor(v.z, k);
  }

  /** `b` lies between 0 and `a`. */
  predicate Shrunk(a: real, b: real) {
    if a >= 0.0 then 0.0 <= b <= a else a <= b <= 0.0
  }

  lemma ShrinkFactor(a: real, k: real)
    requires 0.0 <= k <= 1.0
    ensures Shrunk(a, a * k)
  {
    if a >= 0.0 {
      assert a * k <= a * 1.0;
    } else {
      assert a * k >= a * 1.0;
    }
  }

  /** The factor is not clamped: a frame longer than a second reverses the
      velocity (a two-second frame exactly negates it). */
  lemma DecayOvershoot(v: Vec3)
    ensures Decay(v, 2.0) == Vec3(-v.x, -v.y, -v.z)
  {
  }
}
