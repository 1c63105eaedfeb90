/** The player (game/player/player.js). The module-level `lives`, `score`, `moveInput`, the key
    map and the sprite become the fields of one `Player` object. The player's projectile is a
    separate object, shared with the projectile list while it is in flight; its `shot` field is
    the single-shot lock. Callbacks the source calls (`onDied`, the restart hook) become results
    the methods hand back to their caller. */
module Player {

  import opened Wrappers
  import opened Scene
  import opened Arrays
  import opened Projectile
  import opened ProjectilesManager
  import opened Globals

  /** `MOVE_SPEED`: distance per unit of `dt` while a move key is held. */
  const MOVE_SPEED: real := 2.5

  /** Where the player stands after `ready`, `reset` and `onLevelReset`. */
  const START: Point := Point(50.0, 380.0)

  /** The horizontal range `physicsTick` keeps the player in. */
  const MIN_X: real := 50.0
  const MAX_X: real := 540.0

  const START_LIVES: int := 3

  /** What the player's projectile awards when it hits. */
  const POINTS_PER_HIT: nat := 10

  /** The key codes of `inputMap`. */
  predicate IsLeftKey(code: string) { code == "KeyA" || code == "ArrowLeft" }
  predicate IsRightKey(code: string) { code == "KeyD" || code == "ArrowRight" }
  predicate IsShootKey(code: string) { code == "KeyW" || code == "ArrowUp" || code == "Space" }

  /** The key map after one event: the event's code is held iff the event is a keydown, and no
      other code changes. (The source writes the code into all three maps; a map is only ever
      read at its own codes, so one set of held codes says the same.) */
  function HeldAfter(held: set<string>, code: string, isKeydown: bool): (h: set<string>)
    ensures code in h <==> isKeydown
    ensures forall c :: c != code ==> (c in h <==> c in held)
  {
    if isKeydown then held + {code} else held - {code}
  }

  /** `right - left`, each side true when one of its two keys is held. */
  function MoveIntent(held: set<string>): (m: int)
    ensures -1 <= m <= 1
    ensures m == 1 <==> ("KeyD" in held || "ArrowRight" in held) && !("KeyA" in held || "ArrowLeft" in held)
    ensures m == -1 <==> ("KeyA" in held || "ArrowLeft" in held) && !("KeyD" in held || "ArrowRight" in held)
  {
    (if "KeyD" in held || "ArrowRight" in held then 1 else 0)
      - (if "KeyA" in held || "ArrowLeft" in held then 1 else 0)
  }

  /** `physicsTick`'s clamp of a horizontal position. */
  function Clamped(x: real): (r: real)
    ensures MIN_X <= r <= MAX_X
    ensures MIN_X <= x <= MAX_X ==> r == x
    ensures x < MIN_X ==> r == MIN_X
    ensures MAX_X < x ==> r == MAX_X
  {
    if x < MIN_X then MIN_X else if x > MAX_X then MAX_X else x
  }

  /** Clamping twice is clamping once, and clamping keeps the order of positions. */
  lemma ClampIdempotentMonotone(x: real, y: real)
    ensures Clamped(Clamped(x)) == Clamped(x)
    ensures x <= y ==> Clamped(x) <= Clamped(y)
  {
  }

  /** Where `shoot` places the projectile: two units left of the player's horizontal centre,
      half its height above its position. */
  function Muzzle(s: Sprite): (p: Point)
    ensures p.x + 2.0 == s.x + s.width / 2.0
    ensures p.y == s.y - s.height / 2.0
  {
    Point(s.x + s.width / 2.0 - 2.0, s.y - s.height / 2.0)
  }

  /** The box `getBounds` reports (its corners `ax, ay` and `bx, by`). */
  datatype Bounds = Bounds(minX: real, minY: real, maxX: real, maxY: real)

  /** The player's sprite: idle, or playing its destroy animation. */
  datatype Look = Idle | Destroy

  class Player {
    var lives: int
    var score: nat
    var moveInput: int
    /** The codes whose last event was a keydown. */
    var held: set<string>
    var animSprite: Sprite
    var look: Look
    const projectile: Projectile

    /** What holds between the player's operations: its projectile is the one `loadProjectile`
        configured, the move intent matches the keys, the position is inside the clamp. */
    ghost predicate Valid()
      reads this, projectile
    {
      && projectile.animSprite.Some?
      && projectile.verticalDirection == -1 && projectile.fromPlayer
      && projectile.animation == PlayerProjectile
      && projectile.onHit == AwardAndRelease(POINTS_PER_HIT) && projectile.outOfBounds == Release
      && moveInput == MoveIntent(held)
      && MIN_X <= animSprite.x <= MAX_X
      && lives <= START_LIVES
    }

    /** The single-shot lock agrees with the projectile list: the player's projectile is listed
        (once) exactly while it is locked, and it is the only player projectile there. */
    ghost predicate InFlight(pm: ProjectileList)
      reads this, projectile, pm, pm.projectiles
    {
      && Distinct(pm.projectiles)
      && (projectile.shot <==> projectile in pm.projectiles)
      && (forall q :: q in pm.projectiles && q.fromPlayer ==> q == projectile)
    }

    /** The module's initial counters, `load` (a sprite of the given size) and `ready` (the start
        position and `loadProjectile`: a projectile going up, owned by the player, that awards
        `POINTS_PER_HIT` and releases the lock on a hit and releases it when it leaves the field). */
    constructor (width: real, height: real, projectileWidth: real, projectileHeight: real)
      ensures Valid() && fresh(projectile)
      ensures lives == START_LIVES && score == 0 && moveInput == 0 && held == {} && look == Idle
      ensures animSprite == Sprite(START.x, START.y, width, height)
      ensures !projectile.shot
      ensures projectile.animSprite == Some(NewSprite(projectileWidth, projectileHeight))
    {
      lives := START_LIVES;
      score := 0;
      moveInput := 0;
      held := {};
      animSprite := NewSprite(width, height).At(START);
      look := Idle;
      var p := new Projectile.Create();
      p.animSprite := Some(NewSprite(projectileWidth, projectileHeight));
      p.animation := PlayerProjectile;
      p.verticalDirection := -1;
      p.fromPlayer := true;
      p.onHit := AwardAndRelease(POINTS_PER_HIT);
      p.outOfBounds := Release;
      p.shot := false;
      projectile := p;
    }

    /** A player with no projectile in flight is consistent with an empty list. */
    lemma EmptyListInFlight(pm: ProjectileList)
      requires pm.projectiles == [] && !projectile.shot
      ensures InFlight(pm)
    {
    }

    /** At most one player projectile is in flight. */
    lemma {:induction false} AtMostOneInFlight(pm: ProjectileList)
      requires InFlight(pm)
      ensures |set i | 0 <= i < |pm.projectiles| && pm.projectiles[i].fromPlayer| <= 1
    {
      var ps := pm.projectiles;
      var mine := set i | 0 <= i < |ps| && ps[i].fromPlayer;
      if i :| i in mine {
        forall j | j in mine ensures j == i {
          if j != i { DistinctAt(ps, i, j); }
        }
        assert mine == {i};
      } else {
        assert mine == {};
      }
    }

    /** The list's `physicsTick` keeps the lock in step with the list: the player's projectile is
        dropped from the list exactly when its `outOfBounds` callback releases the lock. The
        requirements are what that tick promises about a list `ps0` of projectiles whose locks
        were `locks` before it; `lockBefore` is the lock before the tick. */
    lemma {:induction false} TickKeepsInFlight(pm: ProjectileList, ps0: seq<Projectile>, vs: seq<Verdict>,
                                               locks: seq<bool>, lockBefore: bool)
      requires Valid() && |ps0| == |vs| == |locks| && Distinct(ps0)
      requires forall i :: 0 <= i < |vs| ==> vs[i] != DropAll
      requires pm.projectiles == Keep(ps0, Fates(vs))
      requires forall i :: 0 <= i < |ps0| ==>
        ps0[i].shot == (if Fates(vs)[i] == Visited(Drop) && ps0[i].outOfBounds == Release then false else locks[i])
      requires lockBefore <==> projectile in ps0
      requires forall i :: 0 <= i < |ps0| && ps0[i] == projectile ==> locks[i]
      requires projectile !in ps0 ==> projectile.shot == lockBefore
      requires forall q :: q in ps0 && q.fromPlayer ==> q == projectile
      ensures InFlight(pm)
    {
      var fs := Fates(vs);
      KeepDistinct(ps0, fs);
      forall q | q in pm.projectiles && q.fromPlayer ensures q == projectile {
        KeepMembers(ps0, fs, q);
      }
      KeepMembers(ps0, fs, projectile);
      if projectile in ps0 {
        var i :| 0 <= i < |ps0| && ps0[i] == projectile;
        forall m | 0 <= m < |ps0| && ps0[m] == projectile ensures m == i {
          if m != i { DistinctAt(ps0, m, i); }
        }
        if fs[i].Visited? { VisitedWithOwnVerdict(vs, i); }
      }
    }

    /** `shoot`: a no-op while the lock is set; otherwise it sets the lock, places the projectile
        at the muzzle and adds it to the list once. */
    method Shoot(pm: ProjectileList)
      requires Valid()
      modifies pm`projectiles, projectile`animSprite, projectile`shot
      ensures Valid()
      ensures old(projectile.shot) ==>
        projectile.shot && pm.projectiles == old(pm.projectiles) && projectile.animSprite == old(projectile.animSprite)
      ensures !old(projectile.shot) ==>
        && projectile.shot
        && pm.projectiles == old(pm.projectiles) + [projectile]
        && projectile.animSprite == Some(old(projectile.animSprite.value).At(Muzzle(animSprite)))
      ensures old(InFlight(pm)) ==> InFlight(pm)
    {
      if projectile.shot {
        return;
      }
      ghost var wasInFlight := InFlight(pm);
      projectile.shot := true;
      projectile.Ready(Muzzle(animSprite));
      pm.AddProjectile(projectile);
      if wasInFlight {
        assert forall q :: q in pm.projectiles ==> q in old(pm.projectiles) || q == projectile;
      }
    }

    /** `input`: records the key, recomputes the move intent, and on a shoot-key keydown either
        signals a restart (in `GameOver`, without shooting) or shoots. */
    method Input(code: string, isKeydown: bool, g: GlobalState, pm: ProjectileList) returns (restart: bool)
      requires Valid()
      modifies this`held, this`moveInput, pm`projectiles, projectile`animSprite, projectile`shot
      ensures Valid()
      ensures held == HeldAfter(old(held), code, isKeydown)
      ensures moveInput == MoveIntent(held)
      ensures restart <==> isKeydown && IsShootKey(code) && g.curGameState == GameOver
      ensures var fires := isKeydown && IsShootKey(code) && g.curGameState != GameOver && !old(projectile.shot);
        && (fires ==> projectile.shot && pm.projectiles == old(pm.projectiles) + [projectile]
                      && projectile.animSprite == Some(old(projectile.animSprite.value).At(Muzzle(animSprite))))
        && (!fires ==> projectile.shot == old(projectile.shot) && pm.projectiles == old(pm.projectiles)
                       && projectile.animSprite == old(projectile.animSprite))
      ensures old(InFlight(pm)) ==> InFlight(pm)
    {
      held := HeldAfter(held, code, isKeydown);
      moveInput := MoveIntent(held);
      restart := false;
      if IsShootKey(code) && isKeydown {
        if g.curGameState == GameOver {
          restart := true;
          return;
        }
        Shoot(pm);
      }
    }

    /** `physicsTick`: moves by `moveInput * MOVE_SPEED * dt` and clamps into [50, 540]; only the
        horizontal position changes. */
    method PhysicsTick(dt: real)
      requires Valid()
      modifies this`animSprite
      ensures Valid()
      ensures animSprite == old(animSprite).(x := Clamped(old(animSprite.x) + moveInput as real * MOVE_SPEED * dt))
      ensures MIN_X <= animSprite.x <= MAX_X
    {
      animSprite := animSprite.(x := animSprite.x + moveInput as real * MOVE_SPEED * dt);
      if animSprite.x < MIN_X {
        animSprite := animSprite.(x := MIN_X);
      } else if animSprite.x > MAX_X {
        animSprite := animSprite.(x := MAX_X);
      }
    }

    /** `getBounds`: the box from the sprite's position spanning its size. (The sprite's vertical
        anchor is one half, so this box starts at its vertical centre.) */
    function GetBounds(): (b: Bounds)
      reads this
      ensures b.minX == animSprite.x && b.minY == animSprite.y
      ensures b.maxX - b.minX == animSprite.width && b.maxY - b.minY == animSprite.height
    {
      Bounds(animSprite.x, animSprite.y, animSprite.x + animSprite.width, animSprite.y + animSprite.height)
    }

    /** The player's projectile hit something: `hit` runs the `onHit` callback that
        `loadProjectile` installed (10 points, lock released), then removes it from the list. */
    method OnProjectileHit(pm: ProjectileList)
      requires Valid()
      modifies this`score, pm`projectiles, projectile`shot
      ensures Valid()
      ensures score == old(score) + POINTS_PER_HIT && !projectile.shot
      ensures pm.projectiles == SpliceOne(old(pm.projectiles), FindIndex(old(pm.projectiles), projectile))
      ensures old(InFlight(pm)) && old(projectile.shot) ==> InFlight(pm) && projectile !in pm.projectiles
    {
      ghost var before := pm.projectiles;
      ghost var wasInFlight := InFlight(pm) && projectile.shot;
      var points := pm.HitProjectile(projectile);
      score := score + points;
      if wasInFlight {
        var i := FindIndex(before, projectile);
        DistinctWithout(before, i);
        assert forall q :: q in pm.projectiles ==> q in before;
      }
    }

    /** `hit`: the state becomes `PlayerDestroyed`, a life is lost, the projectile list is reset
        (which releases the lock) and the destroy animation starts. */
    method Hit(g: GlobalState, pm: ProjectileList)
      requires Valid()
      modifies g`curGameState, this`lives, this`look, pm`projectiles, pm.projectiles
      ensures Valid()
      ensures g.curGameState == PlayerDestroyed
      ensures lives == old(lives) - 1 && look == Destroy
      ensures pm.projectiles == []
      ensures old(InFlight(pm)) ==> InFlight(pm) && !projectile.shot
      ensures forall q :: q in old(pm.projectiles) ==>
        && q.shot == (if old(q.fromPlayer) then false else old(q.shot))
        && q.animSprite == old(q.animSprite) && SetupUnchanged(q)
    {
      g.SetCurGameState(PlayerDestroyed);
      lives := lives - 1;
      pm.Reset();
      look := Destroy;
    }

    /** The destroy animation completed: with no lives left the player died (the `onDied`
        callback, reported to the caller); otherwise it is idle again and the state is `Ok`. */
    method CompleteDestroyAnimation(g: GlobalState) returns (died: bool)
      modifies g`curGameState, this`look
      ensures died <==> lives == 0
      ensures died ==> look == old(look) && g.curGameState == old(g.curGameState)
      ensures !died ==> look == Idle && g.curGameState == Ok
    {
      if lives == 0 {
        return true;
      }
      look := Idle;
      g.SetCurGameState(Ok);
      died := false;
    }

    /** `onLevelReset`: back to the start position; nothing else changes. */
    method OnLevelReset()
      requires Valid()
      modifies this`animSprite
      ensures Valid()
      ensures animSprite == old(animSprite).At(START)
    {
      animSprite := animSprite.At(START);
    }

    /** `reset`: start position, no score, full lives, idle. On a player already in that state
        it changes nothing. */
    method Reset()
      requires Valid()
      modifies this`animSprite, this`score, this`lives, this`look
      ensures Valid()
      ensures animSprite == old(animSprite).At(START)
      ensures score == 0 && lives == START_LIVES && look == Idle
      ensures old(animSprite.x == START.x && animSprite.y == START.y && score == 0
                  && lives == START_LIVES && look == Idle) ==>
        animSprite == old(animSprite) && score == old(score) && lives == old(lives) && look == old(look)
    {
      animSprite := animSprite.At(START);
      score := 0;
      lives := START_LIVES;
      look := Idle;
    }
  }

  /** Removing one element of a list without repeats leaves a list without repeats that no
      longer holds it. */
  lemma {:induction false} DistinctWithout<T>(s: seq<T>, i: int)
    requires Distinct(s) && 0 <= i < |s|
    ensures Distinct(SpliceOne(s, i)) && s[i] !in SpliceOne(s, i)
  {
    RemovePresent(s, s[i], i);
    var r := s[..i] + s[i + 1..];
    forall a, b | 0 <= a < b < |r| ensures Apart(r, a, b) {
      var a' := if a < i then a else a + 1;
      var b' := if b < i then b else b + 1;
      DistinctAt(s, a', b');
    }
    forall a | 0 <= a < |r| ensures r[a] != s[i] {
      var a' := if a < i then a else a + 1;
      DistinctAt(s, a', i);
    }
  }

}
