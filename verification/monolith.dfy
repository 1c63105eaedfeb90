/** The earlier all-in-one version of the game (game/index.js): one module holding the player,
    the enemy group and the projectile array, and a `mainLoop` that moves them and resolves
    collisions. Its global records become the fields of one `Game` object. The array
    `projectiles` holds the player's one projectile object (here the token `PlayerShot`; its
    sprite and `active` flag live in the game) and bare enemy projectile sprites. Behaviour is
    modelled as written, including two defects the contracts below exhibit: the player clamp
    writes a property the sprite never reads, and clearing the array on a player hit leaves the
    player's `active` flag set. */
module Monolith {

  import opened Wrappers
  import opened Scene
  import opened Arrays
  import ProjectilesManager
  import Enemies

  /** The four game states (`OK = 0`, `PLAYER_DESTROYED = 1`, `PLAYER_FAIL = 2`,
      `PLAYER_WIN = 3`); this version never enters `PlayerWin`. */
  datatype GameState = Ok | PlayerDestroyed | PlayerFail | PlayerWin

  const PLAYER_MOVE_SPEED: real := 2.0
  const START_LIVES: int := 3
  /** The player starts centred on the 640-wide view, 25 above the floor line. */
  const PLAYER_START: Point := Point(320.0, 400.0)
  /** The player's projectile starts 24 right of the player's position. */
  const MUZZLE_OFFSET: real := 24.0
  const POINTS_PER_HIT: int := 10

  const H_STEP_DISTANCE: real := 48.0
  const V_STEP_DISTANCE: real := 24.0
  const MAX_MOVE_ELAPSED_TIME: real := 75.0
  const FIRST_SHOT_TIME: real := 2.5
  const LEFT_EDGE: real := 50.0
  const RIGHT_EDGE: real := 540.0
  /** The grid `setup` builds: ten enemies, five to a row, 50 apart. */
  const N_ENEMIES: nat := 10
  const GRID_SPACING: real := 50.0

  /** `projectile.max_speed`, and the floor line that bounds the field. */
  const SPEED: real := 3.0
  const FLOOR_Y: real := 425.0

  datatype Textures = IdleTextures | DestroyTextures

  /** One child of the enemy container: position in the container, size, what it shows. */
  datatype Alien = Alien(pos: Point, width: real, height: real, textures: Textures, frame: nat)

  /** An element of `projectiles`: the player's projectile, or an enemy projectile sprite with
      its animation variant. */
  datatype Shot = PlayerShot | EnemyShot(sprite: Sprite, variant: int)

  /** An axis-aligned box: left, top, right, bottom. */
  datatype Box = Box(left: real, top: real, right: real, bottom: real)

  /** The collision test: the point lies strictly inside the box. */
  predicate StrictlyInside(x: real, y: real, b: Box)
  {
    b.left < x < b.right && b.top < y < b.bottom
  }

  /** An enemy's box in the scene: the container's position plus its own, spanning its size. */
  function AlienBox(cx: real, cy: real, e: Alien): (b: Box)
  {
    Box(cx + e.pos.x, cy + e.pos.y, cx + e.pos.x + e.width, cy + e.pos.y + e.height)
  }

  function Boxes(cx: real, cy: real, es: seq<Alien>): (bs: seq<Box>)
    ensures |bs| == |es|
  {
    seq(|es|, i requires 0 <= i < |es| => AlienBox(cx, cy, es[i]))
  }

  /** The player's box (from its position, spanning its size). */
  function PlayerBox(s: Sprite): (b: Box)
  {
    Box(s.x, s.y, s.x + s.width, s.y + s.height)
  }

  /** The enemy a point hits: the first one in container order whose box strictly contains it. */
  function FirstHit(bs: seq<Box>, x: real, y: real): (r: Option<nat>)
    ensures r.Some? ==> r.value < |bs| && StrictlyInside(x, y, bs[r.value])
    ensures r.Some? ==> forall j :: 0 <= j < r.value ==> !StrictlyInside(x, y, bs[j])
    ensures r.None? ==> forall j :: 0 <= j < |bs| ==> !StrictlyInside(x, y, bs[j])
    decreases |bs|
  {
    if |bs| == 0 then None
    else if StrictlyInside(x, y, bs[0]) then Some(0)
    else match FirstHit(bs[1..], x, y)
      case None => None
      case Some(j) => Some(j + 1)
  }

  /** The out-of-bounds tests: the player's projectile by its top, an enemy's by its bottom. */
  predicate PlayerShotOut(p: Sprite) { p.y < 0.0 || p.y > FLOOR_Y }
  predicate EnemyShotOut(s: Sprite) { s.y < 0.0 || s.y + s.height > FLOOR_Y }

  /** What the collision callback does with one element: the player's projectile is spliced out
      when it is out of bounds or hits an enemy; an enemy projectile is spliced out when it is
      out of bounds, and empties the array when it hits the player. */
  function ShotVerdict(shot: Shot, proj: Sprite, bs: seq<Box>, player: Sprite): (v: Verdict)
    ensures v == DropAll ==> shot.EnemyShot?
    ensures shot == PlayerShot ==> (v == Drop <==> PlayerShotOut(proj) || FirstHit(bs, proj.x, proj.y).Some?)
    ensures shot.EnemyShot? ==> (v == Drop <==> EnemyShotOut(shot.sprite))
    ensures shot.EnemyShot? ==>
      (v == DropAll <==> !EnemyShotOut(shot.sprite) && StrictlyInside(shot.sprite.x, shot.sprite.y, PlayerBox(player)))
  {
    match shot
    case PlayerShot =>
      if PlayerShotOut(proj) || FirstHit(bs, proj.x, proj.y).Some? then Drop else Stay
    case EnemyShot(s, _) =>
      if EnemyShotOut(s) then Drop
      else if StrictlyInside(s.x, s.y, PlayerBox(player)) then DropAll
      else Stay
  }

  function Verdicts(ps: seq<Shot>, proj: Sprite, bs: seq<Box>, player: Sprite): (vs: seq<Verdict>)
    ensures |vs| == |ps|
  {
    seq(|ps|, i requires 0 <= i < |ps| => ShotVerdict(ps[i], proj, bs, player))
  }

  /** The array holds the player's projectile at most once. */
  predicate AtMostOnePlayerShot(ps: seq<Shot>)
  {
    multiset(ps)[PlayerShot] <= 1
  }

  /** With at most one player projectile, the one at `j` is the first. */
  lemma {:induction false} OnlyPlayerShot(ps: seq<Shot>, j: nat)
    requires AtMostOnePlayerShot(ps) && j < |ps| && ps[j] == PlayerShot
    ensures FindIndex(ps, PlayerShot) == j
  {
    assert ps == ps[..j] + ps[j..];
    assert ps[j..] == [PlayerShot] + ps[j + 1..];
    assert multiset(ps[..j])[PlayerShot] == 0;
    FindIndexFirst(ps, PlayerShot, j);
  }

  /** Among the fates decided so far, the player's projectile was visited and spliced out. */
  ghost predicate PlayerShotDropped(ps: seq<Shot>, fs: seq<Fate>)
  {
    var ip := FindIndex(ps, PlayerShot);
    0 <= ip < |fs| && fs[ip] == Visited(Drop)
  }

  /** Deciding the fates of the elements from `j` on with a verdict other than splicing out the
      player's projectile does not change whether it was spliced out. */
  lemma {:induction false} VisitKeepsDropped(ps: seq<Shot>, done: seq<Fate>, j: nat, f: Fate, rest: seq<Fate>)
    requires |done| == j < |ps| && (ps[j] == PlayerShot ==> f != Visited(Drop))
    requires forall i :: 0 <= i < |rest| ==> rest[i] != Visited(Drop)
    ensures PlayerShotDropped(ps, done + [f] + rest) == PlayerShotDropped(ps, done)
  {
    var ip := FindIndex(ps, PlayerShot);
    var fs := done + [f] + rest;
    if 0 <= ip < |done| {
      assert fs[ip] == done[ip];
    } else if ip == j {
      assert fs[ip] == f;
    } else if j < ip < |fs| {
      assert fs[ip] == rest[ip - j - 1];
    }
  }

  /** The survivors of a pass hold the player's projectile at most once, and only if it was not
      spliced out. */
  lemma {:induction false} SurvivorsKeepFlag(ps: seq<Shot>, fs: seq<Fate>)
    requires |ps| == |fs| && AtMostOnePlayerShot(ps)
    ensures AtMostOnePlayerShot(Keep(ps, fs))
    ensures PlayerShot in Keep(ps, fs) ==> PlayerShot in ps && !PlayerShotDropped(ps, fs)
  {
    KeepSubMultiset(ps, fs);
    KeepMembers(ps, fs, PlayerShot);
    if PlayerShot in Keep(ps, fs) {
      var i :| 0 <= i < |ps| && ps[i] == PlayerShot && Survives(fs[i]);
      OnlyPlayerShot(ps, i);
    }
  }

  /** The collision pass has decided the fates `done` of the first `j` original elements `ps0`
      (with verdicts `vs`) and is about to visit index `k`: the array `cur` is as those fates
      leave it, nothing emptied it, the flag is cleared exactly when the player's projectile was
      spliced out, and the score and the enemies `es` changed (by the hit `hit`) exactly when it
      was spliced out in bounds (`out` is whether it is out of bounds). */
  ghost predicate Decided(ps0: seq<Shot>, vs: seq<Verdict>, a0: seq<Alien>, active0: bool, score0: int,
                          hit: Option<nat>, out: bool, done: seq<Fate>, j: nat, k: nat,
                          cur: seq<Shot>, active: bool, score: int, es: seq<Alien>)
  {
    var dropped := PlayerShotDropped(ps0, done);
    && PassInvariant(ps0, vs, done, j, cur, k)
    && Visited(DropAll) !in done
    && active == (active0 && !dropped)
    && (dropped && !out ==>
          (hit.Some? && hit.value < |a0| && score == score0 + POINTS_PER_HIT
           && es == a0[hit.value := Destroyed(a0[hit.value])]))
    && (!dropped || out ==> score == score0 && es == a0)
  }

  /** A visit that leaves its element. */
  lemma DecidedStay(ps0: seq<Shot>, vs: seq<Verdict>, a0: seq<Alien>, active0: bool, score0: int,
                    hit: Option<nat>, out: bool, done: seq<Fate>, j: nat, k: nat,
                    cur: seq<Shot>, active: bool, score: int, es: seq<Alien>)
    requires Decided(ps0, vs, a0, active0, score0, hit, out, done, j, k, cur, active, score, es)
    requires k < |cur| && j < |ps0| && vs[j] == Stay
    ensures Decided(ps0, vs, a0, active0, score0, hit, out, done + [Visited(Stay)], j + 1, k + 1, cur, active, score, es)
  {
    PassStay(ps0, vs, done, j, cur, k);
    VisitKeepsDropped(ps0, done, j, Visited(Stay), []);
    assert done + [Visited(Stay)] + [] == done + [Visited(Stay)];
  }

  /** A visit that splices out an enemy projectile. */
  lemma DecidedDropEnemy(ps0: seq<Shot>, vs: seq<Verdict>, a0: seq<Alien>, active0: bool, score0: int,
                         hit: Option<nat>, out: bool, done: seq<Fate>, j: nat, k: nat,
                         cur: seq<Shot>, active: bool, score: int, es: seq<Alien>)
    returns (done': seq<Fate>, j': nat)
    requires Decided(ps0, vs, a0, active0, score0, hit, out, done, j, k, cur, active, score, es)
    requires k < |cur| && j < |ps0| && vs[j] == Drop && ps0[j] != PlayerShot
    ensures Decided(ps0, vs, a0, active0, score0, hit, out, done', j', k + 1, cur[..k] + cur[k + 1..], active, score, es)
  {
    done', j' := PassDrop(ps0, vs, done, j, cur, k);
    assert done' == done + [Visited(Drop)] + done'[j + 1..];
    VisitKeepsDropped(ps0, done, j, Visited(Drop), done'[j + 1..]);
  }

  /** A visit that splices out the player's projectile: the flag is cleared and, in bounds, the
      hit enemy is destroyed and the score rises. */
  lemma DecidedDropPlayer(ps0: seq<Shot>, vs: seq<Verdict>, a0: seq<Alien>, active0: bool, score0: int,
                          hit: Option<nat>, out: bool, done: seq<Fate>, j: nat, k: nat,
                          cur: seq<Shot>, active: bool, score: int, es: seq<Alien>)
    returns (done': seq<Fate>, j': nat)
    requires Decided(ps0, vs, a0, active0, score0, hit, out, done, j, k, cur, active, score, es)
    requires AtMostOnePlayerShot(ps0)
    requires k < |cur| && j < |ps0| && vs[j] == Drop && ps0[j] == PlayerShot
    ensures !out ==> hit.Some? ==> hit.value < |es| ==>
      Decided(ps0, vs, a0, active0, score0, hit, out, done', j', k + 1, cur[..k] + cur[k + 1..], false,
              score + POINTS_PER_HIT, es[hit.value := Destroyed(es[hit.value])])
    ensures out ==> Decided(ps0, vs, a0, active0, score0, hit, out, done', j', k + 1, cur[..k] + cur[k + 1..], false, score, es)
    ensures !PlayerShotDropped(ps0, done) && score == score0 && es == a0
  {
    done', j' := PassDrop(ps0, vs, done, j, cur, k);
    OnlyPlayerShot(ps0, j);
    assert done'[j] == Visited(Drop);
  }

  /** A visit that empties the array: the fates of the elements after it are all `Skipped`. */
  lemma DecidedDropAll(ps0: seq<Shot>, vs: seq<Verdict>, a0: seq<Alien>, active0: bool, score0: int,
                       hit: Option<nat>, out: bool, done: seq<Fate>, j: nat, k: nat,
                       cur: seq<Shot>, active: bool, score: int, es: seq<Alien>)
    requires Decided(ps0, vs, a0, active0, score0, hit, out, done, j, k, cur, active, score, es)
    requires k < |cur| && j < |ps0| && vs[j] == DropAll
    ensures Fates(vs) == done + [Visited(DropAll)] + Unvisited(|ps0| - j - 1)
    ensures PlayerShotDropped(ps0, Fates(vs)) == PlayerShotDropped(ps0, done)
  {
    PassDropAll(ps0, vs, done, j, cur, k);
    VisitKeepsDropped(ps0, done, j, Visited(DropAll), Unvisited(|ps0| - j - 1));
  }

  /** An enemy after `onHit`: it shows the destroy animation from its first frame. */
  function Destroyed(e: Alien): (r: Alien)
    ensures AlienBox(0.0, 0.0, r) == AlienBox(0.0, 0.0, e)
  {
    e.(textures := DestroyTextures, frame := 0)
  }

  /** The move step's `map`: every child switches frame (this version has no `alive` flag). */
  function Toggled(es: seq<Alien>): (r: seq<Alien>)
    ensures |r| == |es|
  {
    seq(|es|, i requires 0 <= i < |es| => es[i].(frame := Enemies.OtherFrame(es[i].frame)))
  }

  /** Toggling moves no box. */
  lemma {:induction false} ToggleKeepsBoxes(cx: real, cy: real, es: seq<Alien>)
    ensures Boxes(cx, cy, Toggled(es)) == Boxes(cx, cy, es)
  {
    assert forall i :: 0 <= i < |es| ==> Boxes(cx, cy, Toggled(es))[i] == Boxes(cx, cy, es)[i];
  }

  /** The projectile step's `map` for enemy projectiles: each falls by `SPEED * dt`. */
  function Fallen(ps: seq<Shot>, dt: real): (r: seq<Shot>)
    ensures |r| == |ps|
  {
    seq(|ps|, i requires 0 <= i < |ps| =>
      match ps[i]
      case PlayerShot => PlayerShot
      case EnemyShot(s, v) => EnemyShot(s.(y := s.y + 1.0 * SPEED * dt), v))
  }

  /** Moving the projectiles keeps which slots hold the player's projectile. */
  lemma {:induction false} FallenKeepsPlayerShots(ps: seq<Shot>, dt: real)
    ensures multiset(Fallen(ps, dt))[PlayerShot] == multiset(ps)[PlayerShot]
    ensures PlayerShot in Fallen(ps, dt) <==> PlayerShot in ps
    decreases |ps|
  {
    if |ps| > 0 {
      var n := |ps| - 1;
      FallenKeepsPlayerShots(ps[..n], dt);
      assert Fallen(ps, dt) == Fallen(ps[..n], dt) + [Fallen(ps, dt)[n]];
      assert ps == ps[..n] + [ps[n]];
    }
  }

  /** `right - left` as numbers. */
  function Intent(right: bool, left: bool): (m: int)
    ensures -1 <= m <= 1
    ensures m == 0 <==> right == left
    ensures m == 1 <==> right && !left
  {
    (if right then 1 else 0) - (if left then 1 else 0)
  }

  /** The player's sprite after the player step of `mainLoop`: it moves by `(right - left) * 2 * dt`
      horizontally and nothing else changes. */
  function PlayerMoved(s: Sprite, right: bool, left: bool, dt: real): (r: Sprite)
    ensures r.(x := s.x) == s
    ensures r.x - s.x == Intent(right, left) as real * PLAYER_MOVE_SPEED * dt
  {
    s.(x := s.x + Intent(right, left) as real * PLAYER_MOVE_SPEED * dt)
  }

  /** The player step as written does not keep the sprite in [50, 540]: a sprite at most one
      step inside an edge, moving towards it, ends past it, and holding both keys or neither
      leaves it where it is. */
  lemma PlayerLeavesBand(s: Sprite, dt: real)
    requires 0.0 < dt
    ensures LEFT_EDGE <= s.x < LEFT_EDGE + PLAYER_MOVE_SPEED * dt ==> PlayerMoved(s, false, true, dt).x < LEFT_EDGE
    ensures RIGHT_EDGE - PLAYER_MOVE_SPEED * dt < s.x <= RIGHT_EDGE ==> PlayerMoved(s, true, false, dt).x > RIGHT_EDGE
    ensures PlayerMoved(s, true, true, dt) == s && PlayerMoved(s, false, false, dt) == s
  {
  }

  /** The edge rule of the formation step applied to a container at horizontal position `x1`,
      row `y0` and direction `dir0`, ending at `x`, `y`, `dir`: left of the left edge it is put
      on it, turns right and drops a row; past the right edge it is put flush with it, turns left
      and drops a row; otherwise nothing changes. */
  predicate EdgeRule(x1: real, y0: real, dir0: int, width: real, x: real, y: real, dir: int)
  {
    && (x1 < LEFT_EDGE ==> x == LEFT_EDGE && dir == 1 && y == y0 + V_STEP_DISTANCE)
    && (LEFT_EDGE <= x1 && x1 + width > RIGHT_EDGE ==> x == RIGHT_EDGE - width && dir == -1 && y == y0 + V_STEP_DISTANCE)
    && (LEFT_EDGE <= x1 && x1 + width <= RIGHT_EDGE ==> x == x1 && y == y0 && dir == dir0)
  }

  /** After the edge rule a container no wider than the band lies inside it; the container
      drops a row exactly when it was outside the band, and then faces back into it. */
  lemma EdgeRuleInBand(x1: real, y0: real, dir0: int, width: real, x: real, y: real, dir: int)
    requires EdgeRule(x1, y0, dir0, width, x, y, dir)
    ensures width <= RIGHT_EDGE - LEFT_EDGE ==> LEFT_EDGE <= x && x + width <= RIGHT_EDGE
    ensures y == y0 + V_STEP_DISTANCE <==> x1 < LEFT_EDGE || x1 + width > RIGHT_EDGE
    ensures y == y0 + V_STEP_DISTANCE ==> (dir == 1 <==> x1 < LEFT_EDGE)
  {
  }

  /** The projectile `enemies_group.shoot` adds: it starts horizontally centred on the enemy
      `pick` selects, at that enemy's bottom edge, with the texture's size and variant 1..3. */
  function EnemyShotFrom(cx: real, cy: real, es: seq<Alien>, pick: real, variant: real,
                         width: real, height: real): (s: Shot)
    requires |es| > 0 && 0.0 <= pick < 1.0 && 0.0 <= variant < 1.0
    ensures s.EnemyShot? && 1 <= s.variant <= 3
    ensures s.sprite.width == width && s.sprite.height == height
    ensures var b := AlienBox(cx, cy, es[Enemies.PickIndex(pick, |es|)]);
      s.sprite.x - b.left == b.right - s.sprite.x && s.sprite.y == b.bottom
  {
    var e := es[Enemies.PickIndex(pick, |es|)];
    EnemyShot(Sprite(cx + e.pos.x + e.width / 2.0, cy + e.pos.y + e.height, width, height),
              ProjectilesManager.EnemyVariant(variant))
  }

  /** The part of the game's state that the enemy step and the projectile step of a frame
      read and write: the formation's timers, position, direction and children, the array, and
      the player's projectile sprite. */
  datatype EnemyState = EnemyState(moveElapsedTime: real, cx: real, cy: real, moveDir: int,
                                   aliens: seq<Alien>, shotElapsedTime: real, projectiles: seq<Shot>,
                                   projectileSprite: Sprite)

  /** What the enemy step and the projectile step of `mainLoop` make of `s0`, for a container
      `cwidth` wide. The move timer runs down by `dt`; when it runs out it restarts at 75, the
      children toggle and the container steps sideways by 48; then the edge rule places it.
      The shot timer runs down by `dt`; when it runs out it restarts after `delay` and the
      child `pick` selects fires. Then every projectile in the array moves by 3 × dt. */
  ghost predicate EnemyPhase(dt: real, pick: real, variant: real, delay: real, width: real, height: real,
                             cwidth: real, s0: EnemyState, s: EnemyState)
    requires s0.aliens != []
    requires 0.0 <= pick < 1.0 && 0.0 <= variant < 1.0 && 0.0 <= delay < 1.0
  {
    var moved := s0.moveElapsedTime - dt < 0.0;
    var fired := s0.shotElapsedTime - dt < 0.0;
    && s.moveElapsedTime == (if moved then MAX_MOVE_ELAPSED_TIME else s0.moveElapsedTime - dt)
    && s.aliens == (if moved then Toggled(s0.aliens) else s0.aliens)
    && EdgeRule(if moved then s0.cx + s0.moveDir as real * H_STEP_DISTANCE else s0.cx,
                s0.cy, s0.moveDir, cwidth, s.cx, s.cy, s.moveDir)
    && s.shotElapsedTime == (if fired then Enemies.ShotDelay(delay) else s0.shotElapsedTime - dt)
    && |s.aliens| == |s0.aliens|
    && s.projectiles == Fallen(s0.projectiles +
         (if fired then [EnemyShotFrom(s.cx, s.cy, s.aliens, pick, variant, width, height)] else []), dt)
    && s.projectileSprite == (if PlayerShot in s0.projectiles
         then s0.projectileSprite.(y := s0.projectileSprite.y - SPEED * dt) else s0.projectileSprite)
  }

  /** The enemy grid of `setup`: enemy `i` sits at column `i % 5`, row `i / 5`, 50 apart,
      idle on its first frame. */
  method BuildAliens(width: real, height: real) returns (es: seq<Alien>)
    ensures |es| == N_ENEMIES
    ensures forall i :: 0 <= i < N_ENEMIES ==>
      es[i] == Alien(Point(GRID_SPACING * (i % 5) as real, GRID_SPACING * (i / 5) as real), width, height, IdleTextures, 0)
  {
    es := [];
    var curL, curC := 0, 0;
    for i := 0 to N_ENEMIES
      invariant |es| == i
      invariant curL == i % 5 && curC == i / 5
      invariant forall m :: 0 <= m < i ==>
        es[m] == Alien(Point(GRID_SPACING * (m % 5) as real, GRID_SPACING * (m / 5) as real), width, height, IdleTextures, 0)
    {
      es := es + [Alien(Point(GRID_SPACING * curL as real, GRID_SPACING * curC as real), width, height, IdleTextures, 0)];
      curL := curL + 1;
      if curL >= N_ENEMIES / 2 {
        curL := 0;
        curC := curC + 1;
      }
    }
  }

  class Game {
    var state: GameState
    var playerSprite: Sprite
    /** `player.x`, which the clamp reads and writes and nothing else sets (undefined at first). */
    var playerX: Option<real>
    var right: bool
    var left: bool
    var lives: int
    var score: int
    var playerTextures: Textures
    /** `player.projectile`: its sprite and its `active` flag. */
    var projectileSprite: Sprite
    var active: bool
    /** `enemies_group`: the container's position and measured size, its children, the step
        direction and the two timers. */
    var cx: real
    var cy: real
    var cwidth: real
    var cheight: real
    var aliens: seq<Alien>
    var moveDir: int
    var moveElapsedTime: real
    var shotElapsedTime: real
    var projectiles: seq<Shot>

    /** What holds between operations: the array holds the player's projectile at most once and
        only while `active` is set, and the step direction is 1 or -1. */
    ghost predicate Valid()
      reads this
    {
      && AtMostOnePlayerShot(projectiles)
      && (PlayerShot in projectiles ==> active)
      && (moveDir == 1 || moveDir == -1)
    }

    /** The player can no longer shoot: `active` is set but the projectile is not in the array,
        so no collision pass will ever clear it. */
    ghost predicate Stuck()
      reads this
    {
      active && PlayerShot !in projectiles
    }

    /** The enemy side of the state, as `EnemyPhase` relates it across a frame. */
    ghost function EnemyStateOf(): EnemyState
      reads this`moveElapsedTime, this`cx, this`cy, this`moveDir, this`aliens, this`shotElapsedTime,
            this`projectiles, this`projectileSprite
    {
      EnemyState(moveElapsedTime, cx, cy, moveDir, aliens, shotElapsedTime, projectiles, projectileSprite)
    }

    /** The timers, the container's position and direction and the player's projectile sprite
        are those of `mid`: the collision pass does not change them. */
    ghost predicate Settled(mid: EnemyState)
      reads this`moveElapsedTime, this`cx, this`cy, this`moveDir, this`shotElapsedTime, this`projectileSprite
    {
      && moveElapsedTime == mid.moveElapsedTime && cx == mid.cx && cy == mid.cy && moveDir == mid.moveDir
      && shotElapsedTime == mid.shotElapsedTime && projectileSprite == mid.projectileSprite
    }

    /** The initial values of the global records and the placements `setup` makes (asset
        loading aside): the player centred above the floor, ten enemies in two rows of five, an
        empty array. Sizes are those of the loaded textures and of the measured container. */
    constructor (playerWidth: real, playerHeight: real, projectileWidth: real, projectileHeight: real,
                 alienWidth: real, alienHeight: real, width: real, height: real)
      ensures Valid() && state == Ok && lives == START_LIVES && score == 0
      ensures playerSprite == Sprite(PLAYER_START.x, PLAYER_START.y, playerWidth, playerHeight)
      ensures !active && projectiles == [] && playerX == None
      ensures !right && !left && playerTextures == IdleTextures
      ensures projectileSprite == NewSprite(projectileWidth, projectileHeight)
      ensures cx == 0.0 && cy == 0.0 && cwidth == width && cheight == height
      ensures moveDir == 1 && moveElapsedTime == MAX_MOVE_ELAPSED_TIME && shotElapsedTime == FIRST_SHOT_TIME
      ensures |aliens| == N_ENEMIES
      ensures forall i :: 0 <= i < N_ENEMIES ==>
        aliens[i] == Alien(Point(GRID_SPACING * (i % 5) as real, GRID_SPACING * (i / 5) as real),
                           alienWidth, alienHeight, IdleTextures, 0)
    {
      state := Ok;
      playerSprite := Sprite(PLAYER_START.x, PLAYER_START.y, playerWidth, playerHeight);
      playerX := None;
      right, left := false, false;
      lives := START_LIVES;
      score := 0;
      playerTextures := IdleTextures;
      projectileSprite := NewSprite(projectileWidth, projectileHeight);
      active := false;
      cx, cy := 0.0, 0.0;
      cwidth, cheight := width, height;
      var es := BuildAliens(alienWidth, alienHeight);
      aliens := es;
      moveDir := 1;
      moveElapsedTime := MAX_MOVE_ELAPSED_TIME;
      shotElapsedTime := FIRST_SHOT_TIME;
      projectiles := [];
    }

    /** `player.input`: a move key sets its side to whether it is held; a shoot-key keydown with
        no projectile active places the projectile at the player, pushes it once and sets
        `active`. Keyups and an active projectile make shooting a no-op. */
    method Input(code: string, isKeydown: bool)
      requires Valid()
      modifies this`right, this`left, this`projectileSprite, this`projectiles, this`active
      ensures Valid()
      ensures right == if code == "KeyD" || code == "ArrowRight" then isKeydown else old(right)
      ensures left == if code == "KeyA" || code == "ArrowLeft" then isKeydown else old(left)
      ensures var fires := (code == "KeyW" || code == "ArrowUp" || code == "Space") && isKeydown && !old(active);
        && (fires ==> active && projectiles == old(projectiles) + [PlayerShot]
                      && projectileSprite == old(projectileSprite).At(Point(playerSprite.x + MUZZLE_OFFSET, playerSprite.y)))
        && (!fires ==> active == old(active) && projectiles == old(projectiles)
                       && projectileSprite == old(projectileSprite))
      ensures old(Stuck()) ==> Stuck()
    {
      if code == "KeyD" || code == "ArrowRight" {
        right := isKeydown;
      } else if code == "KeyA" || code == "ArrowLeft" {
        left := isKeydown;
      } else if code == "KeyW" || code == "ArrowUp" || code == "Space" {
        if !isKeydown || active {
          return;
        }
        projectileSprite := projectileSprite.At(Point(playerSprite.x + MUZZLE_OFFSET, playerSprite.y));
        projectiles := projectiles + [PlayerShot];
        active := true;
      }
    }

    /** `player.onHit`: state `PlayerDestroyed`, one life fewer, the array cleared, the destroy
        animation. `active` is left as it was: a projectile in flight at the hit leaves the
        player `Stuck`. */
    method PlayerOnHit()
      modifies this`state, this`lives, this`projectiles, this`playerTextures
      ensures unchanged(this`playerSprite, this`playerX, this`right, this`left, this`score,
                        this`projectileSprite, this`active, this`cx, this`cy, this`cwidth, this`cheight,
                        this`aliens, this`moveDir, this`moveElapsedTime, this`shotElapsedTime)
      ensures state == PlayerDestroyed && lives == old(lives) - 1 && playerTextures == DestroyTextures
      ensures projectiles == []
      ensures active ==> Stuck()
    {
      state := PlayerDestroyed;
      lives := lives - 1;
      ClearProjectiles();
      playerTextures := DestroyTextures;
    }

    /** `projectile.clear_projectiles`: the array is emptied (removing the sprites from the stage
        is rendering). Nothing else changes, `active` included. */
    method ClearProjectiles()
      modifies this`projectiles
      ensures projectiles == []
    {
      projectiles := [];
    }

    /** The player's destroy animation completed: idle again, and the state is `PlayerFail` iff
        no lives are left, `Ok` otherwise. */
    method CompletePlayerDestroy()
      modifies this`playerTextures, this`state
      ensures playerTextures == IdleTextures
      ensures state == (if lives == 0 then PlayerFail else Ok)
    {
      playerTextures := IdleTextures;
      if lives == 0 {
        state := PlayerFail;
      } else {
        state := Ok;
      }
    }

    /** `enemies_group.onHit`: the enemy starts its destroy animation; it stays in the container
        (and can still be hit) until the animation completes. */
    method EnemyOnHit(i: nat)
      requires i < |aliens|
      modifies this`aliens
      ensures unchanged(this`state, this`playerSprite, this`playerX, this`right, this`left, this`lives,
                        this`score, this`playerTextures, this`projectileSprite, this`active, this`cx,
                        this`cy, this`cwidth, this`cheight, this`moveDir, this`moveElapsedTime,
                        this`shotElapsedTime, this`projectiles)
      ensures aliens == old(aliens)[i := Destroyed(old(aliens)[i])]
      ensures Boxes(cx, cy, aliens) == Boxes(cx, cy, old(aliens))
    {
      aliens := aliens[i := Destroyed(aliens[i])];
      assert forall m :: 0 <= m < |aliens| ==> Boxes(cx, cy, aliens)[m] == Boxes(cx, cy, old(aliens))[m];
    }

    /** An enemy's destroy animation completed: it is removed from the container, which is
        measured again. */
    method CompleteEnemyDestroy(i: nat, width: real, height: real)
      requires i < |aliens|
      modifies this`aliens, this`cwidth, this`cheight
      ensures aliens == old(aliens)[..i] + old(aliens)[i + 1..]
      ensures |aliens| == |old(aliens)| - 1
      ensures cwidth == width && cheight == height
    {
      aliens := aliens[..i] + aliens[i + 1..];
      cwidth, cheight := width, height;
    }

    /** `enemies_group.shoot`: a random child (any child: this version has no `alive` flag) fires
        a projectile from below its centre, then the shot timer restarts in [20, 170). */
    method EnemyShoot(pick: real, variant: real, delay: real, projectileWidth: real, projectileHeight: real)
      requires |aliens| > 0 && 0.0 <= pick < 1.0 && 0.0 <= variant < 1.0 && 0.0 <= delay < 1.0
      modifies this`projectiles, this`shotElapsedTime
      ensures unchanged(this`state, this`playerSprite, this`playerX, this`right, this`left, this`lives,
                        this`score, this`playerTextures, this`projectileSprite, this`active, this`cx,
                        this`cy, this`cwidth, this`cheight, this`aliens, this`moveDir,
                        this`moveElapsedTime)
      ensures projectiles == old(projectiles) + [EnemyShotFrom(cx, cy, aliens, pick, variant, projectileWidth, projectileHeight)]
      ensures shotElapsedTime == Enemies.ShotDelay(delay) && 20.0 <= shotElapsedTime < 170.0
      ensures old(Valid()) ==> Valid()
      ensures old(Stuck()) ==> Stuck()
    {
      var id := Enemies.PickIndex(pick, |aliens|);
      var e := aliens[id];
      var anim := ProjectilesManager.EnemyVariant(variant);
      projectiles := projectiles +
        [EnemyShot(Sprite(cx + e.pos.x + e.width / 2.0, cy + e.pos.y + e.height, projectileWidth, projectileHeight), anim)];
      assert projectiles[|old(projectiles)|] == EnemyShotFrom(cx, cy, aliens, pick, variant, projectileWidth, projectileHeight);
      shotElapsedTime := Enemies.ShotDelay(delay);
    }

    /** The player step of `mainLoop`: the sprite moves by exactly `(right - left) * 2 * dt`. The
        clamp tests and writes `player.x`, which is undefined, so it never fires and the sprite is
        never kept in [50, 540]. */
    method PlayerStep(dt: real)
      modifies this`playerSprite, this`playerX
      ensures playerSprite == PlayerMoved(old(playerSprite), right, left, dt)
      ensures unchanged(this`right, this`left, this`cwidth, this`cheight, this`cx, this`cy, this`moveDir,
                        this`moveElapsedTime, this`shotElapsedTime, this`aliens, this`projectiles,
                        this`projectileSprite, this`active, this`score, this`state, this`lives, this`playerTextures)
      ensures old(playerX) == None ==> playerX == None
      ensures old(Valid()) ==> Valid()
      ensures old(Stuck()) ==> Stuck()
    {
      playerSprite := PlayerMoved(playerSprite, right, left, dt);
      if playerX.Some? && playerX.value < LEFT_EDGE {
        playerX := Some(LEFT_EDGE);
      } else if playerX.Some? && playerX.value > RIGHT_EDGE {
        playerX := Some(RIGHT_EDGE);
      }
    }

    /** The texture `map` of the formation step. */
    method ToggleAll()
      modifies this`aliens
      ensures aliens == Toggled(old(aliens))
    {
      var k := 0;
      while k < |aliens|
        invariant 0 <= k <= |aliens| == |old(aliens)|
        invariant forall i :: 0 <= i < k ==> aliens[i] == Toggled(old(aliens))[i]
        invariant forall i :: k <= i < |aliens| ==> aliens[i] == old(aliens)[i]
      {
        aliens := aliens[k := aliens[k].(frame := Enemies.OtherFrame(aliens[k].frame))];
        k := k + 1;
      }
    }

    /** The formation step of `mainLoop`. The move timer runs down by `dt`; below 0 the container
        steps 48 sideways (not scaled by `dt`), the timer restarts at 75 and every child toggles
        frame. Then the edge test: left of 50 it is put on 50, turns right and drops 24; past 540
        it is put back inside, turns left and drops 24. */
    method FormationStep(dt: real)
      requires Valid()
      modifies this`cx, this`cy, this`moveDir, this`moveElapsedTime, this`aliens
      ensures unchanged(this`state, this`playerSprite, this`playerX, this`right, this`left, this`lives,
                        this`score, this`playerTextures, this`projectileSprite, this`active,
                        this`cwidth, this`cheight, this`shotElapsedTime, this`projectiles)
      ensures Valid()
      ensures var moved := old(moveElapsedTime) - dt < 0.0;
        && moveElapsedTime == (if moved then MAX_MOVE_ELAPSED_TIME else old(moveElapsedTime) - dt)
        && aliens == (if moved then Toggled(old(aliens)) else old(aliens))
      ensures EdgeRule(if old(moveElapsedTime) - dt < 0.0 then old(cx) + old(moveDir) as real * H_STEP_DISTANCE else old(cx),
                       old(cy), old(moveDir), cwidth, cx, cy, moveDir)
      ensures cwidth <= RIGHT_EDGE - LEFT_EDGE ==> LEFT_EDGE <= cx && cx + cwidth <= RIGHT_EDGE
    {
      moveElapsedTime := moveElapsedTime - dt;
      if moveElapsedTime < 0.0 {
        cx := cx + moveDir as real * H_STEP_DISTANCE;
        moveElapsedTime := MAX_MOVE_ELAPSED_TIME;
        ToggleAll();
      }
      if cx < LEFT_EDGE {
        cx := LEFT_EDGE;
        moveDir := 1;
        cy := cy + V_STEP_DISTANCE;
      } else if cx + cwidth > RIGHT_EDGE {
        cx := RIGHT_EDGE - cwidth;
        moveDir := -1;
        cy := cy + V_STEP_DISTANCE;
      }
    }

    /** The projectile step of `mainLoop`: the player's projectile rises by `SPEED * dt` (once:
        it is in the array at most once), every enemy projectile falls by `SPEED * dt`. */
    method MoveProjectiles(dt: real)
      requires Valid()
      modifies this`projectiles, this`projectileSprite
      ensures unchanged(this`state, this`playerSprite, this`playerX, this`right, this`left, this`lives,
                        this`score, this`playerTextures, this`active, this`cx, this`cy, this`cwidth,
                        this`cheight, this`aliens, this`moveDir, this`moveElapsedTime,
                        this`shotElapsedTime)
      ensures Valid()
      ensures projectiles == Fallen(old(projectiles), dt)
      ensures PlayerShot in projectiles <==> PlayerShot in old(projectiles)
      ensures projectileSprite ==
        if PlayerShot in old(projectiles) then old(projectileSprite).(y := old(projectileSprite.y) - SPEED * dt)
        else old(projectileSprite)
    {
      var k := 0;
      while k < |projectiles|
        invariant 0 <= k <= |projectiles| == |old(projectiles)|
        invariant forall i :: 0 <= i < k ==> projectiles[i] == Fallen(old(projectiles), dt)[i]
        invariant forall i :: k <= i < |projectiles| ==> projectiles[i] == old(projectiles)[i]
        invariant projectileSprite ==
          if PlayerShot in old(projectiles)[..k] then old(projectileSprite).(y := old(projectileSprite.y) - SPEED * dt)
          else old(projectileSprite)
      {
        match projectiles[k] {
          case PlayerShot =>
            if PlayerShot in old(projectiles)[..k] {
              OnlyPlayerShot(old(projectiles), k);
            }
            projectileSprite := projectileSprite.(y := projectileSprite.y + -1.0 * SPEED * dt);
          case EnemyShot(s, v) =>
            projectiles := projectiles[k := EnemyShot(s.(y := s.y + 1.0 * SPEED * dt), v)];
        }
        assert old(projectiles)[..k + 1] == old(projectiles)[..k] + [old(projectiles)[k]];
        k := k + 1;
      }
      assert old(projectiles)[..k] == old(projectiles);
      assert projectiles == Fallen(old(projectiles), dt);
      FallenKeepsPlayerShots(old(projectiles), dt);
    }

    /** The enemy loop inside the collision callback: the first child, in container order,
        whose box strictly contains the point. */
    method HitEnemy(x: real, y: real) returns (r: Option<nat>)
      ensures r == FirstHit(Boxes(cx, cy, aliens), x, y)
    {
      var j := 0;
      while j < |aliens|
        invariant 0 <= j <= |aliens|
        invariant forall m :: 0 <= m < j ==> !StrictlyInside(x, y, Boxes(cx, cy, aliens)[m])
      {
        var e := aliens[j];
        if y > cy + e.pos.y && y < cy + e.pos.y + e.height && x > cx + e.pos.x && x < cx + e.pos.x + e.width {
          assert StrictlyInside(x, y, Boxes(cx, cy, aliens)[j]);
          return Some(j);
        }
        j := j + 1;
      }
      return None;
    }

    /** One call of the collision callback, on the element at index `k` of the array as it is
        now: the verdict it passes, and its effects on the game. */
    method Collide(k: nat) returns (v: Verdict)
      requires k < |projectiles|
      modifies this`projectiles, this`active, this`score, this`aliens, this`state, this`lives, this`playerTextures
      ensures unchanged(this`cx, this`cy, this`cwidth, this`cheight, this`moveDir, this`moveElapsedTime,
                        this`shotElapsedTime, this`projectileSprite, this`playerSprite, this`playerX,
                        this`right, this`left)
      ensures v == ShotVerdict(old(projectiles)[k], projectileSprite, Boxes(cx, cy, old(aliens)), playerSprite)
      ensures Boxes(cx, cy, aliens) == Boxes(cx, cy, old(aliens))
      ensures v != DropAll ==> state == old(state) && lives == old(lives) && playerTextures == old(playerTextures)
      ensures v == Stay ==>
        projectiles == old(projectiles) && active == old(active) && score == old(score) && aliens == old(aliens)
      ensures v == Drop ==> projectiles == old(projectiles)[..k] + old(projectiles)[k + 1..]
      ensures v == Drop && old(projectiles)[k] == PlayerShot ==>
        && !active
        && var hit := FirstHit(Boxes(cx, cy, old(aliens)), projectileSprite.x, projectileSprite.y);
        && (PlayerShotOut(projectileSprite) ==> score == old(score) && aliens == old(aliens))
        && (!PlayerShotOut(projectileSprite) ==>
              (hit.Some? && hit.value < |old(aliens)| && score == old(score) + POINTS_PER_HIT
               && aliens == old(aliens)[hit.value := Destroyed(old(aliens)[hit.value])]))
      ensures v == Drop && old(projectiles)[k].EnemyShot? ==>
        active == old(active) && score == old(score) && aliens == old(aliens)
      ensures v == DropAll ==>
        && projectiles == [] && state == PlayerDestroyed && lives == old(lives) - 1 && playerTextures == DestroyTextures
        && active == old(active) && score == old(score) && aliens == old(aliens)
    {
      match projectiles[k]
      case PlayerShot =>
        if projectileSprite.y < 0.0 || projectileSprite.y > FLOOR_Y {
          active := false;
          RemovePresent(projectiles, PlayerShot, k);
          projectiles := SpliceOne(projectiles, k);
          return Drop;
        }
        var hit := HitEnemy(projectileSprite.x, projectileSprite.y);
        if hit.Some? {
          EnemyOnHit(hit.value);
          score := score + POINTS_PER_HIT;
          active := false;
          RemovePresent(projectiles, PlayerShot, k);
          projectiles := SpliceOne(projectiles, k);
          return Drop;
        }
        return Stay;
      case EnemyShot(s, _) =>
        if s.y < 0.0 || s.y + s.height > FLOOR_Y {
          RemovePresent(projectiles, projectiles[k], k);
          projectiles := SpliceOne(projectiles, k);
          return Drop;
        }
        if s.y > playerSprite.y && s.y < playerSprite.y + playerSprite.height
           && s.x > playerSprite.x && s.x < playerSprite.x + playerSprite.width {
          PlayerOnHit();
          projectiles := SpliceOne(projectiles, k);
          return DropAll;
        }
        return Stay;
    }

    /** What holds after the collision pass has decided the fates `done` of the first `j`
        original elements `ps0` and is about to visit index `k`: the verdicts are those of the
        current boxes and sprites, no box has moved, the player was not hit, and the array, flag,
        score and enemies are as `Decided` says. */
    ghost predicate CollidedUpTo(ps0: seq<Shot>, vs: seq<Verdict>, bs: seq<Box>, a0: seq<Alien>,
                                 active0: bool, score0: int, state0: GameState, lives0: int, textures0: Textures,
                                 done: seq<Fate>, j: nat, k: nat)
      reads this
    {
      && AtMostOnePlayerShot(ps0)
      && vs == Verdicts(ps0, projectileSprite, bs, playerSprite)
      && Boxes(cx, cy, aliens) == bs
      && state == state0 && lives == lives0 && playerTextures == textures0
      && Decided(ps0, vs, a0, active0, score0, FirstHit(bs, projectileSprite.x, projectileSprite.y),
                 PlayerShotOut(projectileSprite), done, j, k, projectiles, active, score, aliens)
    }

    /** One visit of the collision pass, with the bookkeeping that places it in the pass. */
    method CollideAt(k: nat, ghost ps0: seq<Shot>, ghost vs: seq<Verdict>, ghost bs: seq<Box>, ghost a0: seq<Alien>,
                     ghost active0: bool, ghost score0: int, ghost state0: GameState, ghost lives0: int,
                     ghost textures0: Textures, ghost done: seq<Fate>, ghost j: nat)
      returns (v: Verdict, ghost done': seq<Fate>, ghost j': nat)
      requires CollidedUpTo(ps0, vs, bs, a0, active0, score0, state0, lives0, textures0, done, j, k)
      requires k < |projectiles|
      modifies this`projectiles, this`active, this`score, this`aliens, this`state, this`lives, this`playerTextures
      ensures unchanged(this`cx, this`cy, this`cwidth, this`cheight, this`moveDir, this`moveElapsedTime,
                        this`shotElapsedTime, this`projectileSprite, this`playerSprite, this`playerX,
                        this`right, this`left)
      ensures v != DropAll ==> CollidedUpTo(ps0, vs, bs, a0, active0, score0, state0, lives0, textures0, done', j', k + 1)
      ensures v == DropAll ==>
        && done' == done && j' == j && j < |ps0|
        && Fates(vs) == done + [Visited(DropAll)] + Unvisited(|ps0| - j - 1)
        && PlayerShotDropped(ps0, Fates(vs)) == PlayerShotDropped(ps0, done)
        && projectiles == [] && state == PlayerDestroyed && lives == lives0 - 1 && playerTextures == DestroyTextures
        && active == old(active) && score == old(score) && aliens == old(aliens)
    {
      ghost var cur, act, sc, al := projectiles, active, score, aliens;
      ghost var hit, out := FirstHit(bs, projectileSprite.x, projectileSprite.y), PlayerShotOut(projectileSprite);
      assert Decided(ps0, vs, a0, active0, score0, hit, out, done, j, k, cur, act, sc, al);
      PassVisit(ps0, vs, done, j, cur, k);
      v := Collide(k);
      if v == Stay {
        DecidedStay(ps0, vs, a0, active0, score0, hit, out, done, j, k, cur, act, sc, al);
        done', j' := done + [Visited(Stay)], j + 1;
        assert projectiles == cur && active == act && score == sc && aliens == al;
      } else if v == Drop && ps0[j] == PlayerShot {
        done', j' := DecidedDropPlayer(ps0, vs, a0, active0, score0, hit, out, done, j, k, cur, act, sc, al);
        assert projectiles == cur[..k] + cur[k + 1..] && !active;
        if out {
          assert score == sc && aliens == al;
        } else {
          assert hit.Some? && score == sc + POINTS_PER_HIT && aliens == al[hit.value := Destroyed(al[hit.value])];
        }
      } else if v == Drop {
        done', j' := DecidedDropEnemy(ps0, vs, a0, active0, score0, hit, out, done, j, k, cur, act, sc, al);
        assert projectiles == cur[..k] + cur[k + 1..] && active == act && score == sc && aliens == al;
      } else {
        done', j' := done, j;
        DecidedDropAll(ps0, vs, a0, active0, score0, hit, out, done, j, k, cur, act, sc, al);
      }
      if v != DropAll {
        assert Decided(ps0, vs, a0, active0, score0, hit, out, done', j', k + 1, projectiles, active, score, aliens);
      }
    }

    /** The outcome of the collision pass over the array `ps0`, with enemies `a0` and flag, score,
        state, lives and textures `active0` … `textures0` before it. The verdicts are fixed by the
        state before the pass (nothing the callback changes moves a box); the resulting array is
        `AfterPass`, skipped elements included. The state becomes `PlayerDestroyed` with one life
        fewer exactly when some enemy projectile hit the player. The player's `active` flag is
        cleared exactly when its projectile was visited and spliced out, and it scores and
        destroys the first enemy it is inside exactly when it was spliced out while in bounds. */
    ghost predicate CollisionOutcome(ps0: seq<Shot>, a0: seq<Alien>, active0: bool, score0: int,
                                     state0: GameState, lives0: int, textures0: Textures)
      reads this
    {
      var vs := Verdicts(ps0, projectileSprite, Boxes(cx, cy, a0), playerSprite);
      var fs := Fates(vs);
      var dropped := PlayerShotDropped(ps0, fs);
      var hit := FirstHit(Boxes(cx, cy, a0), projectileSprite.x, projectileSprite.y);
      && projectiles == AfterPass(ps0, vs)
      && (Visited(DropAll) in fs ==> state == PlayerDestroyed && lives == lives0 - 1 && playerTextures == DestroyTextures)
      && (Visited(DropAll) !in fs ==> state == state0 && lives == lives0 && playerTextures == textures0)
      && active == (active0 && !dropped)
      && (dropped && !PlayerShotOut(projectileSprite) ==>
            (hit.Some? && hit.value < |a0| && score == score0 + POINTS_PER_HIT
             && aliens == a0[hit.value := Destroyed(a0[hit.value])]))
      && (!dropped || PlayerShotOut(projectileSprite) ==> score == score0 && aliens == a0)
    }

    /** A pass that visited every index it reached ends in its outcome, with the invariant. */
    lemma PassCompleted(ps0: seq<Shot>, vs: seq<Verdict>, a0: seq<Alien>, active0: bool, score0: int,
                        state0: GameState, lives0: int, textures0: Textures, done: seq<Fate>, j: nat)
      requires CollidedUpTo(ps0, vs, Boxes(cx, cy, a0), a0, active0, score0, state0, lives0, textures0, done, j, |ps0|)
      requires PlayerShot in ps0 ==> active0
      ensures CollisionOutcome(ps0, a0, active0, score0, state0, lives0, textures0)
      ensures AtMostOnePlayerShot(projectiles) && (PlayerShot in projectiles ==> active)
      ensures active0 && PlayerShot !in ps0 ==> Stuck()
    {
      PassEnd(ps0, vs, done, j, projectiles);
      SurvivorsKeepFlag(ps0, done);
    }

    /** A pass stopped by a hit on the player ends in its outcome, with the invariant. */
    lemma PassEmptied(ps0: seq<Shot>, vs: seq<Verdict>, a0: seq<Alien>, active0: bool, score0: int,
                      state0: GameState, lives0: int, textures0: Textures, done: seq<Fate>, j: nat)
      requires vs == Verdicts(ps0, projectileSprite, Boxes(cx, cy, a0), playerSprite)
      requires j < |ps0| && Fates(vs) == done + [Visited(DropAll)] + Unvisited(|ps0| - j - 1)
      requires PlayerShotDropped(ps0, Fates(vs)) == PlayerShotDropped(ps0, done)
      requires projectiles == [] && state == PlayerDestroyed && lives == lives0 - 1 && playerTextures == DestroyTextures
      requires active == (active0 && !PlayerShotDropped(ps0, done))
      requires PlayerShotDropped(ps0, done) && !PlayerShotOut(projectileSprite) ==>
        (var hit := FirstHit(Boxes(cx, cy, a0), projectileSprite.x, projectileSprite.y);
         hit.Some? && hit.value < |a0| && score == score0 + POINTS_PER_HIT
         && aliens == a0[hit.value := Destroyed(a0[hit.value])])
      requires !PlayerShotDropped(ps0, done) || PlayerShotOut(projectileSprite) ==> score == score0 && aliens == a0
      ensures CollisionOutcome(ps0, a0, active0, score0, state0, lives0, textures0)
    {
      assert Fates(vs)[|done|] == Visited(DropAll);
    }

    /** Index `k` of the collision pass: visited if the array still reaches it, and then the
        pass stops if the array was emptied. */
    method PassStep(k: nat, ghost ps0: seq<Shot>, ghost vs: seq<Verdict>, ghost a0: seq<Alien>,
                    ghost active0: bool, ghost score0: int, ghost state0: GameState, ghost lives0: int,
                    ghost textures0: Textures, ghost done: seq<Fate>, ghost j: nat)
      returns (stop: bool, ghost done': seq<Fate>, ghost j': nat)
      requires CollidedUpTo(ps0, vs, Boxes(cx, cy, a0), a0, active0, score0, state0, lives0, textures0, done, j, k)
      modifies this`projectiles, this`active, this`score, this`aliens, this`state, this`lives, this`playerTextures
      ensures unchanged(this`cx, this`cy, this`cwidth, this`cheight, this`moveDir, this`moveElapsedTime,
                        this`shotElapsedTime, this`projectileSprite, this`playerSprite, this`playerX,
                        this`right, this`left)
      ensures !stop ==>
        CollidedUpTo(ps0, vs, Boxes(cx, cy, a0), a0, active0, score0, state0, lives0, textures0, done', j', k + 1)
      ensures stop ==> CollisionOutcome(ps0, a0, active0, score0, state0, lives0, textures0) && projectiles == []
      ensures stop ==> (active0 && PlayerShot !in ps0 ==> active)
    {
      if k < |projectiles| {
        var v;
        v, done', j' := CollideAt(k, ps0, vs, Boxes(cx, cy, a0), a0, active0, score0, state0, lives0, textures0, done, j);
        if v == DropAll {
          PassEmptied(ps0, vs, a0, active0, score0, state0, lives0, textures0, done, j);
          return true, done', j';
        }
      } else {
        PassNoVisit(ps0, vs, done, j, projectiles, k);
        done', j' := done, j;
      }
      return false, done', j';
    }

    /** The collision pass from index `k` on, up to the length `n` the `map` fixed at its start. */
    method PassFrom(n: nat, k: nat, ghost ps0: seq<Shot>, ghost vs: seq<Verdict>, ghost a0: seq<Alien>,
                    ghost active0: bool, ghost score0: int, ghost state0: GameState, ghost lives0: int,
                    ghost textures0: Textures, ghost done: seq<Fate>, ghost j: nat)
      requires n == |ps0| && k <= n
      requires CollidedUpTo(ps0, vs, Boxes(cx, cy, a0), a0, active0, score0, state0, lives0, textures0, done, j, k)
      requires PlayerShot in ps0 ==> active0
      modifies this`projectiles, this`active, this`score, this`aliens, this`state, this`lives, this`playerTextures
      ensures unchanged(this`cx, this`cy, this`cwidth, this`cheight, this`moveDir, this`moveElapsedTime,
                        this`shotElapsedTime, this`projectileSprite, this`playerSprite, this`playerX,
                        this`right, this`left)
      ensures CollisionOutcome(ps0, a0, active0, score0, state0, lives0, textures0)
      ensures AtMostOnePlayerShot(projectiles) && (PlayerShot in projectiles ==> active)
      ensures active0 && PlayerShot !in ps0 ==> Stuck()
      decreases n - k
    {
      if k == n {
        PassCompleted(ps0, vs, a0, active0, score0, state0, lives0, textures0, done, j);
        return;
      }
      var stop;
      ghost var done', j';
      stop, done', j' := PassStep(k, ps0, vs, a0, active0, score0, state0, lives0, textures0, done, j);
      if !stop {
        PassFrom(n, k + 1, ps0, vs, a0, active0, score0, state0, lives0, textures0, done', j');
      }
    }

    /** The collision `map` of `mainLoop`: every element is visited through the callback
        `Collide`, which may splice it out or empty the array; its outcome is
        `CollisionOutcome`. The invariant holds after it, and a `Stuck` player stays so. */
    method CollisionPass()
      requires Valid()
      modifies this`projectiles, this`active, this`score, this`aliens, this`state, this`lives, this`playerTextures
      ensures unchanged(this`cx, this`cy, this`cwidth, this`cheight, this`moveDir, this`moveElapsedTime,
                        this`shotElapsedTime, this`projectileSprite, this`playerSprite, this`playerX,
                        this`right, this`left)
      ensures CollisionOutcome(old(projectiles), old(aliens), old(active), old(score), old(state), old(lives),
                               old(playerTextures))
      ensures Valid()
      ensures old(Stuck()) ==> Stuck()
    {
      var n := |projectiles|;
      ghost var ps0 := projectiles;
      ghost var a0 := aliens;
      ghost var active0, score0, state0, lives0, textures0 := active, score, state, lives, playerTextures;
      ghost var vs := Verdicts(ps0, projectileSprite, Boxes(cx, cy, a0), playerSprite);
      ghost var done: seq<Fate> := [];
      ghost var j: nat := 0;
      PassStart(ps0, vs);
      assert !PlayerShotDropped(ps0, done);
      PassFrom(n, 0, ps0, vs, a0, active0, score0, state0, lives0, textures0, done, j);
    }

    /** The enemy part of `mainLoop`: the formation step, then the shot timer runs down by `dt`
        and, when it runs out, the enemy `pick` selects (in the container as the step left it)
        fires. */
    method EnemiesStep(dt: real, pick: real, variant: real, delay: real, projectileWidth: real, projectileHeight: real)
      requires Valid() && |aliens| > 0
      requires 0.0 <= pick < 1.0 && 0.0 <= variant < 1.0 && 0.0 <= delay < 1.0
      modifies this`cx, this`cy, this`moveDir, this`moveElapsedTime, this`aliens, this`shotElapsedTime, this`projectiles
      ensures unchanged(this`state, this`playerSprite, this`playerX, this`right, this`left, this`lives,
                        this`score, this`playerTextures, this`projectileSprite, this`active,
                        this`cwidth, this`cheight)
      ensures Valid()
      ensures var moved := old(moveElapsedTime) - dt < 0.0;
        && moveElapsedTime == (if moved then MAX_MOVE_ELAPSED_TIME else old(moveElapsedTime) - dt)
        && aliens == (if moved then Toggled(old(aliens)) else old(aliens))
        && EdgeRule(if moved then old(cx) + old(moveDir) as real * H_STEP_DISTANCE else old(cx),
                    old(cy), old(moveDir), cwidth, cx, cy, moveDir)
      ensures |aliens| == |old(aliens)|
      ensures var fired := old(shotElapsedTime) - dt < 0.0;
        && shotElapsedTime == (if fired then Enemies.ShotDelay(delay) else old(shotElapsedTime) - dt)
        && projectiles == old(projectiles) +
             (if fired then [EnemyShotFrom(cx, cy, aliens, pick, variant, projectileWidth, projectileHeight)] else [])
      ensures old(Stuck()) ==> Stuck()
    {
      FormationStep(dt);
      shotElapsedTime := shotElapsedTime - dt;
      if shotElapsedTime < 0.0 {
        EnemyShoot(pick, variant, delay, projectileWidth, projectileHeight);
      }
    }

    /** The enemy step and the projectile step of `mainLoop`: the array and the enemies they
        leave are those the collision pass starts from. */
    method Prepare(dt: real, pick: real, variant: real, delay: real, projectileWidth: real, projectileHeight: real)
      requires Valid() && aliens != []
      requires 0.0 <= pick < 1.0 && 0.0 <= variant < 1.0 && 0.0 <= delay < 1.0
      modifies this`cx, this`cy, this`moveDir, this`moveElapsedTime, this`aliens, this`shotElapsedTime,
               this`projectiles, this`projectileSprite
      ensures Valid()
      ensures old(Stuck()) ==> Stuck()
      ensures unchanged(this`right, this`left, this`cwidth, this`cheight, this`playerSprite, this`playerX,
                        this`active, this`score, this`state, this`lives, this`playerTextures)
      ensures EnemyPhase(dt, pick, variant, delay, projectileWidth, projectileHeight, cwidth,
                         old(EnemyStateOf()), EnemyStateOf())
    {
      ghost var ps0 := projectiles;
      EnemiesStep(dt, pick, variant, delay, projectileWidth, projectileHeight);
      ghost var ps1 := projectiles;
      assert PlayerShot in ps1 <==> PlayerShot in ps0;
      MoveProjectiles(dt);
    }

    /** The part of `mainLoop` after the player step: nothing when the container is empty;
        otherwise `Prepare`, which leaves the enemy side in the state `mid`, then the collision
        pass, which starts from the array and the enemies of `mid` and leaves the rest of it. */
    method Advance(dt: real, pick: real, variant: real, delay: real, projectileWidth: real, projectileHeight: real)
      returns (ghost mid: EnemyState)
      requires Valid()
      requires 0.0 <= pick < 1.0 && 0.0 <= variant < 1.0 && 0.0 <= delay < 1.0
      modifies this`cx, this`cy, this`moveDir, this`moveElapsedTime, this`aliens, this`shotElapsedTime,
               this`projectiles, this`projectileSprite, this`active, this`score, this`state, this`lives,
               this`playerTextures
      ensures Valid()
      ensures old(Stuck()) ==> Stuck()
      ensures unchanged(this`right, this`left, this`cwidth, this`cheight, this`playerSprite, this`playerX)
      ensures old(aliens) == [] ==> unchanged(this)
      ensures old(aliens) != [] ==>
        EnemyPhase(dt, pick, variant, delay, projectileWidth, projectileHeight, cwidth, old(EnemyStateOf()), mid)
      ensures old(aliens) != [] ==>
        CollisionOutcome(mid.projectiles, mid.aliens, old(active), old(score), old(state), old(lives), old(playerTextures))
      ensures old(aliens) != [] ==> Settled(mid)
    {
      mid := EnemyStateOf();
      if |aliens| == 0 {
        return;
      }
      Prepare(dt, pick, variant, delay, projectileWidth, projectileHeight);
      mid := EnemyStateOf();
      CollisionPass();
    }

    /** The frame of `mainLoop` in the `Ok` state: the player step with the keys held at the
        start of the frame, then the rest of the frame (`Advance`), whose collision pass starts
        from the enemy side `mid`. */
    method OkFrame(dt: real, pick: real, variant: real, delay: real, projectileWidth: real, projectileHeight: real)
      returns (ghost mid: EnemyState)
      requires Valid()
      requires 0.0 <= pick < 1.0 && 0.0 <= variant < 1.0 && 0.0 <= delay < 1.0
      modifies this`playerSprite, this`playerX, this`cx, this`cy, this`moveDir, this`moveElapsedTime,
        this`aliens, this`shotElapsedTime, this`projectiles, this`projectileSprite, this`active,
        this`score, this`state, this`lives, this`playerTextures
      ensures Valid()
      ensures old(Stuck()) ==> Stuck()
      ensures unchanged(this`right, this`left, this`cwidth, this`cheight)
      ensures old(playerX) == None ==> playerX == None
      ensures playerSprite == PlayerMoved(old(playerSprite), old(right), old(left), dt)
      ensures old(aliens) == [] ==>
        unchanged(this`projectiles, this`aliens, this`projectileSprite, this`playerTextures, this`state,
                  this`lives, this`score, this`active, this`cx, this`cy, this`moveDir,
                  this`moveElapsedTime, this`shotElapsedTime)
      ensures old(aliens) != [] ==>
        EnemyPhase(dt, pick, variant, delay, projectileWidth, projectileHeight, cwidth, old(EnemyStateOf()), mid)
      ensures old(aliens) != [] ==>
        CollisionOutcome(mid.projectiles, mid.aliens, old(active), old(score), old(state), old(lives), old(playerTextures))
      ensures old(aliens) != [] ==> Settled(mid)
    {
      PlayerStep(dt);
      mid := Advance(dt, pick, variant, delay, projectileWidth, projectileHeight);
    }

    /** `mainLoop`: nothing happens unless the state is `Ok`; otherwise the frame is
        `OkFrame`. The keys and the container's size are left as they were, the invariant holds
        throughout, and a player once `Stuck` stays so. */
    method MainLoop(dt: real, pick: real, variant: real, delay: real, projectileWidth: real, projectileHeight: real)
      returns (ghost mid: EnemyState)
      requires Valid()
      requires 0.0 <= pick < 1.0 && 0.0 <= variant < 1.0 && 0.0 <= delay < 1.0
      modifies this`playerSprite, this`playerX, this`cx, this`cy, this`moveDir, this`moveElapsedTime,
        this`aliens, this`shotElapsedTime, this`projectiles, this`projectileSprite, this`active,
        this`score, this`state, this`lives, this`playerTextures
      ensures old(state) != Ok ==> unchanged(this)
      ensures Valid()
      ensures old(Stuck()) ==> Stuck()
      ensures unchanged(this`right, this`left, this`cwidth, this`cheight)
      ensures old(playerX) == None ==> playerX == None
      ensures old(state) == Ok ==> playerSprite == PlayerMoved(old(playerSprite), old(right), old(left), dt)
      ensures old(state) == Ok && old(aliens) == [] ==>
        unchanged(this`projectiles, this`aliens, this`projectileSprite, this`playerTextures, this`state,
                  this`lives, this`score, this`active, this`cx, this`cy, this`moveDir,
                  this`moveElapsedTime, this`shotElapsedTime)
      ensures old(state) == Ok && old(aliens) != [] ==>
        EnemyPhase(dt, pick, variant, delay, projectileWidth, projectileHeight, cwidth, old(EnemyStateOf()), mid)
      ensures old(state) == Ok && old(aliens) != [] ==>
        CollisionOutcome(mid.projectiles, mid.aliens, old(active), old(score), old(state), old(lives), old(playerTextures))
      ensures old(state) == Ok && old(aliens) != [] ==> Settled(mid)
    {
      mid := EnemyStateOf();
      if state != Ok {
        return;
      }
      mid := OkFrame(dt, pick, variant, delay, projectileWidth, projectileHeight);
    }
  }

}
