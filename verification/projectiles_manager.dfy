/** The list of live projectiles (game/projectile/projectiles_manager.js), together with the
    projectile's `hit` (game/projectile/projectile.js), whose `onDestroyed` hook the manager wires
    to its own `removeProjectile`. The module-level array becomes the `projectiles` field of one
    `ProjectileList` object, which the methods reassign. */
module ProjectilesManager {

  import opened Wrappers
  import opened Scene
  import opened Arrays
  import opened Projectile

  /** Every projectile in the list has a sprite: the source dereferences it without a check. */
  ghost predicate AllHaveSprites(ps: seq<Projectile>)
    reads ps
  {
    forall i :: 0 <= i < |ps| ==> ps[i].animSprite.Some?
  }

  /** Between two states, the fields set up when the projectile was made did not change. */
  twostate predicate SetupUnchanged(q: Projectile)
    reads q
  {
    && q.animation == old(q.animation)
    && q.verticalDirection == old(q.verticalDirection)
    && q.fromPlayer == old(q.fromPlayer)
    && q.onHit == old(q.onHit)
    && q.outOfBounds == old(q.outOfBounds)
  }

  /** The verdict the tick's callback passes on a projectile whose sprite is `s` and direction
      `direction`: splice it out iff `move` reports it out of bounds. */
  function VerdictOf(s: Sprite, direction: int, dt: real): (v: Verdict)
    ensures v != DropAll
    ensures v == Drop <==> OutOfField(Advanced(s, direction, dt))
  {
    if LeavesField(s, direction, dt) then Drop else Stay
  }

  /** The heap while a tick is under way, the first `j` original projectiles decided. `cs` and `sh`
      are the sprites and locks the projectiles had before the tick, `vs` the verdicts and `fs`
      the fates: a visited projectile has been moved and, if it was dropped with a releasing
      callback, unlocked; every other projectile is as it was. */
  ghost predicate TickedUpTo(ps0: seq<Projectile>, cs: seq<Sprite>, sh: seq<bool>, vs: seq<Verdict>,
                             fs: seq<Fate>, j: nat, dt: real)
    requires |ps0| == |cs| == |sh| == |vs| == |fs|
    reads ps0
  {
    && (forall i :: 0 <= i < |ps0| ==> vs[i] == VerdictOf(cs[i], ps0[i].verticalDirection, dt))
    && (forall i :: 0 <= i < |ps0| ==>
          ps0[i].animSprite == Some(if i < j && fs[i].Visited?
            then Advanced(cs[i], ps0[i].verticalDirection, dt) else cs[i]))
    && (forall i :: 0 <= i < |ps0| ==>
          ps0[i].shot == if i < j && fs[i] == Visited(Drop) && ps0[i].outOfBounds == Release
            then false else sh[i])
  }

  /** Records the sprite and lock of each projectile of `ps` and the verdict the tick will pass on
      it: the state in which no projectile has been decided. */
  ghost method Snapshot(ps: seq<Projectile>, dt: real) returns (vs: seq<Verdict>, cs: seq<Sprite>, sh: seq<bool>)
    requires AllHaveSprites(ps)
    ensures |vs| == |ps| == |cs| == |sh|
    ensures forall i :: 0 <= i < |ps| ==> ps[i].animSprite == Some(cs[i]) && ps[i].shot == sh[i]
    ensures forall i :: 0 <= i < |ps| ==>
      vs[i] == VerdictOf(ps[i].animSprite.value, ps[i].verticalDirection, dt)
    ensures TickedUpTo(ps, cs, sh, vs, Fates(vs), 0, dt)
  {
    vs, cs, sh := [], [], [];
    while |vs| < |ps|
      invariant |vs| <= |ps| && |cs| == |sh| == |vs|
      invariant forall i :: 0 <= i < |vs| ==> ps[i].animSprite == Some(cs[i]) && ps[i].shot == sh[i]
      invariant forall i :: 0 <= i < |vs| ==> vs[i] == VerdictOf(cs[i], ps[i].verticalDirection, dt)
    {
      var q := ps[|vs|];
      vs, cs, sh := vs + [VerdictOf(q.animSprite.value, q.verticalDirection, dt)],
        cs + [q.animSprite.value], sh + [q.shot];
    }
  }

  /** A projectile the pass skips is decided without being touched. */
  lemma {:induction false} SkipDecides(ps0: seq<Projectile>, cs: seq<Sprite>, sh: seq<bool>,
      vs: seq<Verdict>, fs: seq<Fate>, j: nat, dt: real)
    requires |ps0| == |cs| == |sh| == |vs| == |fs| && j < |ps0| && fs[j] == Skipped
    requires TickedUpTo(ps0, cs, sh, vs, fs, j, dt)
    ensures TickedUpTo(ps0, cs, sh, vs, fs, j + 1, dt)
  {
  }

  /** `Math.floor(Math.random() * 3 + 1)`: the enemy projectile's animation variant. */
  function EnemyVariant(random: real): (n: int)
    requires 0.0 <= random < 1.0
    ensures 1 <= n <= 3
    ensures n == 1 <==> random < 1.0 / 3.0
    ensures n == 3 <==> 2.0 / 3.0 <= random
  {
    (random * 3.0 + 1.0).Floor
  }

  /** A projectile spliced out by a pass over a list without repeats is no longer in the list. */
  lemma {:induction false} DroppedIsGone(s: seq<Projectile>, fs: seq<Fate>, i: nat)
    requires |s| == |fs| && Distinct(s) && i < |s| && !Survives(fs[i])
    ensures s[i] !in Keep(s, fs)
  {
    KeepMembers(s, fs, s[i]);
    forall m | 0 <= m < |s| && s[m] == s[i] ensures m == i {
      if m != i { DistinctAt(s, m, i); }
    }
  }

  class ProjectileList {
    var projectiles: seq<Projectile>

    /** The module's initial state: no projectiles. */
    constructor ()
      ensures projectiles == []
    {
      projectiles := [];
    }

    /** `addProjectile`: appends; earlier projectiles are unchanged. */
    method AddProjectile(p: Projectile)
      modifies this`projectiles
      ensures projectiles == old(projectiles) + [p]
      ensures Distinct(old(projectiles)) && p !in old(projectiles) ==> Distinct(projectiles)
    {
      ghost var ps := projectiles;
      projectiles := projectiles + [p];
      if Distinct(ps) && p !in ps {
        forall i, j | 0 <= i < j < |projectiles| ensures Apart(projectiles, i, j) {
          if j < |ps| { assert Apart(ps, i, j); } else { assert projectiles[i] in ps; }
        }
      }
    }

    /** `removeProjectile`: `splice(findIndex(v => v === p), 1)`. A present `p` loses exactly its
        first occurrence; for an absent one the index is -1 and the LAST projectile goes. */
    method RemoveProjectile(p: Projectile)
      modifies this`projectiles
      ensures projectiles == SpliceOne(old(projectiles), FindIndex(old(projectiles), p))
      ensures p in old(projectiles) ==>
        var i := FindIndex(old(projectiles), p);
        && projectiles == old(projectiles)[..i] + old(projectiles)[i + 1..]
        && multiset(projectiles) == multiset(old(projectiles)) - multiset{p}
      ensures p !in old(projectiles) && old(projectiles) != [] ==>
        projectiles == old(projectiles)[..|old(projectiles)| - 1]
    {
      var id := FindIndex(projectiles, p);
      RemoveByIdentity(projectiles, p);
      projectiles := SpliceOne(projectiles, id);
    }

    /** `reset`: releases the lock of every player projectile in the list, then empties it. */
    method Reset()
      modifies this`projectiles, projectiles
      ensures projectiles == []
      ensures forall q :: q in old(projectiles) ==>
        q.shot == (if old(q.fromPlayer) then false else old(q.shot))
      ensures forall q :: q in old(projectiles) ==> q.animSprite == old(q.animSprite) && SetupUnchanged(q)
    {
      var k := 0;
      while k < |projectiles|
        invariant 0 <= k <= |projectiles| && projectiles == old(projectiles)
        invariant forall q :: q in projectiles[..k] ==> q.shot == (if q.fromPlayer then false else old(q.shot))
        invariant forall q :: q in projectiles && q !in projectiles[..k] ==> q.shot == old(q.shot)
        invariant forall q :: q in projectiles ==> q.animSprite == old(q.animSprite) && SetupUnchanged(q)
      {
        var p := projectiles[k];
        if p.fromPlayer {
          p.shot := false;
        }
        assert projectiles[..k + 1] == projectiles[..k] + [p];
        k := k + 1;
      }
      projectiles := [];
    }

    /** `instantiateProjectile`: appends one fresh enemy projectile (downwards, not the player's,
        no callbacks) of animation variant 1..3, placed exactly at `initialPosition`. `random` is
        the value `Math.random()` returned; `width` and `height` are the size of its texture. */
    method InstantiateProjectile(initialPosition: Point, random: real, width: real, height: real)
      requires 0.0 <= random < 1.0
      modifies this`projectiles
      ensures |projectiles| == |old(projectiles)| + 1
      ensures projectiles[..|old(projectiles)|] == old(projectiles)
      ensures var p := projectiles[|old(projectiles)|];
        && fresh(p)
        && p.verticalDirection == 1 && !p.fromPlayer && !p.shot
        && p.onHit == NoOnHit && p.outOfBounds == NoOutOfBounds
        && p.animation == EnemyProjectile(EnemyVariant(random))
        && p.animSprite == Some(Sprite(initialPosition.x, initialPosition.y, width, height))
      ensures Distinct(old(projectiles)) ==> Distinct(projectiles)
    {
      var anim := EnemyVariant(random);
      var p := new Projectile.Create();
      p.animSprite := Some(NewSprite(width, height));
      p.animation := EnemyProjectile(anim);
      p.verticalDirection := 1;
      p.Ready(initialPosition);
      AddProjectile(p);
    }

    /** `hit` of projectile.js: the projectile's `onHit` runs first (the player's releases the
        lock and hands back the points it awards), then `onDestroyed`, i.e. `removeProjectile`. */
    method HitProjectile(p: Projectile) returns (points: nat)
      modifies this`projectiles, p`shot
      ensures points == (if old(p.onHit).AwardAndRelease? then old(p.onHit).points else 0)
      ensures p.shot == (if old(p.onHit).AwardAndRelease? then false else old(p.shot))
      ensures projectiles == SpliceOne(old(projectiles), FindIndex(old(projectiles), p))
    {
      points := 0;
      if p.onHit.AwardAndRelease? {
        points := p.onHit.points;
        p.shot := false;
      }
      RemoveProjectile(p);
    }

    /** One visit of `physicsTick`'s callback to `p`, the projectile at index `k`: `move`, and when
        it reports the projectile out of bounds, `removeProjectile` and the `outOfBounds` callback
        (the player's releases its lock). */
    method Visit(p: Projectile, dt: real, ghost k: nat) returns (removed: bool)
      requires p.animSprite.Some? && k < |projectiles| && projectiles[k] == p && p !in projectiles[..k]
      modifies this`projectiles, p`animSprite, p`shot
      ensures p.animSprite == Some(Advanced(old(p.animSprite.value), p.verticalDirection, dt))
      ensures removed == LeavesField(old(p.animSprite.value), p.verticalDirection, dt)
      ensures projectiles == if removed then old(projectiles)[..k] + old(projectiles)[k + 1..] else old(projectiles)
      ensures p.shot == if removed && p.outOfBounds == Release then false else old(p.shot)
    {
      removed := p.Move(dt);
      if removed {
        FindIndexFirst(projectiles, p, k);
        RemoveProjectile(p);
        if p.outOfBounds == Release {
          p.shot := false;
        }
      }
    }

    /** The visit to original projectile `j`, sitting at index `k`: the heap goes from "first `j`
        decided" to "first `j + 1` decided". */
    method VisitOriginal(p: Projectile, dt: real, k: nat, ghost ps0: seq<Projectile>, ghost cs: seq<Sprite>,
                         ghost sh: seq<bool>, ghost vs: seq<Verdict>, ghost j: nat) returns (removed: bool)
      requires k < |projectiles| && projectiles[k] == p && p !in projectiles[..k]
      requires |ps0| == |cs| == |sh| == |vs| && j < |ps0| && ps0[j] == p && Distinct(ps0)
      requires Fates(vs)[j] == Visited(vs[j])
      requires TickedUpTo(ps0, cs, sh, vs, Fates(vs), j, dt)
      modifies this`projectiles, ps0`animSprite, ps0`shot
      ensures removed <==> vs[j] == Drop
      ensures projectiles == if removed then old(projectiles)[..k] + old(projectiles)[k + 1..] else old(projectiles)
      ensures TickedUpTo(ps0, cs, sh, vs, Fates(vs), j + 1, dt)
    {
      removed := Visit(p, dt, k);
      forall i | 0 <= i < |ps0|
        ensures vs[i] == VerdictOf(cs[i], ps0[i].verticalDirection, dt)
        ensures ps0[i].animSprite == Some(if i < j + 1 && Fates(vs)[i].Visited?
          then Advanced(cs[i], ps0[i].verticalDirection, dt) else cs[i])
        ensures ps0[i].shot == if i < j + 1 && Fates(vs)[i] == Visited(Drop) && ps0[i].outOfBounds == Release
          then false else sh[i]
      {
        if i != j {
          DistinctAt(ps0, i, j);
        }
      }
    }

    /** The `forEach` from index `k` on, with the first `j` original projectiles decided. The
        bound `n` is the length the array had when the pass began, as `forEach` fixes it. */
    method TickFrom(dt: real, n: nat, k: nat, ghost ps0: seq<Projectile>, ghost cs: seq<Sprite>,
                    ghost sh: seq<bool>, ghost vs: seq<Verdict>, ghost done: seq<Fate>, ghost j: nat)
      requires n == |ps0| == |cs| == |sh| == |vs| && k <= n && Distinct(ps0)
      requires PassInvariant(ps0, vs, done, j, projectiles, k)
      requires TickedUpTo(ps0, cs, sh, vs, Fates(vs), j, dt)
      modifies this`projectiles, ps0`animSprite, ps0`shot
      ensures projectiles == Keep(ps0, Fates(vs))
      ensures TickedUpTo(ps0, cs, sh, vs, Fates(vs), |ps0|, dt)
      decreases n - k
    {
      if k == n {
        PassEnd(ps0, vs, done, j, projectiles);
        return;
      }
      if k < |projectiles| {
        var p := projectiles[k];
        PassVisit(ps0, vs, done, j, projectiles, k);
        ghost var cur := projectiles;
        var removed := VisitOriginal(p, dt, k, ps0, cs, sh, vs, j);
        ghost var done', j';
        if removed {
          done', j' := PassDrop(ps0, vs, done, j, cur, k);
          if j' == j + 2 {
            SkipDecides(ps0, cs, sh, vs, Fates(vs), j + 1, dt);
          }
        } else {
          PassStay(ps0, vs, done, j, cur, k);
          done', j' := done + [Visited(Stay)], j + 1;
        }
        TickFrom(dt, n, k + 1, ps0, cs, sh, vs, done', j');
      } else {
        PassNoVisit(ps0, vs, done, j, projectiles, k);
        TickFrom(dt, n, k + 1, ps0, cs, sh, vs, done, j);
      }
    }

    /** `physicsTick`: a `forEach` over the list that moves each visited projectile and splices out
        the ones `move` reports out of bounds, firing their `outOfBounds` callback afterwards.
        `vs` holds the verdict `move` gives each projectile; which projectiles are visited is
        `Fates(vs)`: the one that shifts into the slot of a removed projectile is neither moved
        nor checked during this tick. Only sprites and locks change, and only of projectiles that
        were in the list. */
    method PhysicsTick(dt: real) returns (ghost vs: seq<Verdict>, ghost before: seq<Sprite>, ghost locks: seq<bool>)
      requires AllHaveSprites(projectiles) && Distinct(projectiles)
      modifies this`projectiles, projectiles`animSprite, projectiles`shot
      ensures |vs| == |before| == |locks| == |old(projectiles)|
      ensures forall i :: 0 <= i < |vs| ==>
        old(projectiles[i].animSprite) == Some(before[i]) && old(projectiles[i].shot) == locks[i]
      ensures projectiles == Keep(old(projectiles), Fates(vs)) && Distinct(projectiles)
      ensures var ps0 := old(projectiles); var fs := Fates(vs);
        && (forall i :: 0 <= i < |ps0| ==> vs[i] == VerdictOf(before[i], ps0[i].verticalDirection, dt))
        && (forall i :: 0 <= i < |ps0| ==>
              ps0[i].animSprite == Some(if fs[i].Visited?
                then Advanced(before[i], ps0[i].verticalDirection, dt) else before[i]))
        && (forall i :: 0 <= i < |ps0| ==>
              ps0[i].shot == if fs[i] == Visited(Drop) && ps0[i].outOfBounds == Release
                then false else locks[i])
    {
      ghost var ps0 := projectiles;
      vs, before, locks := Snapshot(ps0, dt);
      assert forall i :: 0 <= i < |vs| ==>
        old(projectiles[i].animSprite) == Some(before[i]) && old(projectiles[i].shot) == locks[i];
      PassStart(ps0, vs);
      TickFrom(dt, |projectiles|, 0, ps0, before, locks, vs, [], 0);
      KeepDistinct(ps0, Fates(vs));
    }
  }

}
