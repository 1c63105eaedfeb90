/** The enemy formation (game/enemies/enemies.js). The container and the module-level timers,
    direction and alive counter become the fields of one `Formation` object. Its children are
    `Enemy` values in the `enemies` field; an enemy is known by its index there. The container's
    measured size is a pair of fields, set wherever the source recomputes its bounds. */
module Enemies {

  import opened Wrappers
  import opened Scene
  import opened Projectile
  import opened Arrays
  import opened ProjectilesManager

  const H_STEP_DISTANCE: real := 16.0
  const V_STEP_DISTANCE: real := 36.0
  const MAX_MOVE_ELAPSED_TIME: real := 30.0

  /** The grid built by `load`: five lines (rows of the container) by six columns. */
  const MAX_LINES: nat := 5
  const MAX_COLUMNS: nat := 6
  const GRID_SIZE: nat := 30

  /** Grid spacing: 48 between columns, 36 between rows. */
  const COLUMN_SPACING: real := 48.0
  const ROW_SPACING: real := 36.0

  /** The horizontal band the formation is kept in. */
  const LEFT_EDGE: real := 50.0
  const RIGHT_EDGE: real := 590.0

  /** The floor line the loss test measures the formation's bottom against, and its tolerance. */
  const FLOOR_LINE: real := 425.0
  const FLOOR_TOLERANCE: real := 32.0

  /** Where `reset` puts the container. */
  const HOME: Point := Point(50.0, 64.0)

  /** The three enemy looks `load` chooses between. */
  datatype AlienKind = Alien1 | Alien2 | Alien3

  /** An enemy shows its own idle animation (toggled by hand between two frames) or the shared
      destroy animation. */
  datatype Textures = IdleTextures | DestroyTextures

  /** One child of the container: its position inside the container, its size, its idle
      animation, what it shows, and the `alive` and `visible` flags. */
  datatype Enemy = Enemy(pos: Point, width: real, height: real, kind: AlienKind,
                         textures: Textures, frame: nat, alive: bool, visible: bool)

  /** Enemy `i` of the grid sits at column `i / 5`, row `i % 5`. */
  function Layout(i: nat): (p: Point)
  {
    Point(COLUMN_SPACING * (i / MAX_LINES) as real, ROW_SPACING * (i % MAX_LINES) as real)
  }

  /** The first two rows are `alien_1`, the next two `alien_2`, the last `alien_3`. */
  function KindOfRow(row: nat): (k: AlienKind)
    requires row < MAX_LINES
    ensures k == Alien1 <==> row < 2
    ensures k == Alien3 <==> row == 4
  {
    if row < 2 then Alien1 else if row < 4 then Alien2 else Alien3
  }

  /** Enemy `i` as `load` creates it: alive, visible, idle on its first frame. */
  function NewEnemy(i: nat, width: real, height: real): (e: Enemy)
  {
    Enemy(Layout(i), width, height, KindOfRow(i % MAX_LINES), IdleTextures, 0, true, true)
  }

  /** Every grid slot holds a different position, all inside a 240 by 144 box. */
  lemma {:induction false} LayoutInjective(i: nat, j: nat)
    requires i < GRID_SIZE && j < GRID_SIZE
    ensures 0.0 <= Layout(i).x <= 240.0 && 0.0 <= Layout(i).y <= 144.0
    ensures Layout(i) == Layout(j) ==> i == j
  {
    if Layout(i) == Layout(j) {
      assert i / 5 == j / 5 && i % 5 == j % 5;
      assert i == 5 * (i / 5) + i % 5 && j == 5 * (j / 5) + j % 5;
    }
  }

  /** The grid construction of `load`: a loop over 30 slots that advances a row counter `curC`
      and, when it reaches the number of lines, wraps it and advances the column `curL`. */
  method BuildGrid(width: real, height: real) returns (es: seq<Enemy>)
    ensures |es| == GRID_SIZE
    ensures forall i :: 0 <= i < GRID_SIZE ==> es[i] == NewEnemy(i, width, height)
  {
    var curL: nat := 0;
    var curC: nat := 0;
    es := [];
    var i := 0;
    while i < MAX_LINES * MAX_COLUMNS
      invariant 0 <= i <= GRID_SIZE && |es| == i
      invariant curL == i / MAX_LINES && curC == i % MAX_LINES
      invariant forall m :: 0 <= m < i ==> es[m] == NewEnemy(m, width, height)
    {
      var kind := if curC < 2 then Alien1 else if curC < 4 then Alien2 else Alien3;
      var enemy := Enemy(Point(COLUMN_SPACING * curL as real, ROW_SPACING * curC as real),
                         width, height, kind, IdleTextures, 0, true, true);
      es := es + [enemy];
      curC := curC + 1;
      if curC >= MAX_LINES {
        curC := 0;
        curL := curL + 1;
      }
      i := i + 1;
    }
  }

  /** The indices of the alive enemies, in container order (`children.filter(e => e.alive)`). */
  function AliveIndices(es: seq<Enemy>): (r: seq<nat>)
    ensures |r| <= |es|
    ensures forall k :: 0 <= k < |r| ==> r[k] < |es| && es[r[k]].alive
    ensures forall i :: 0 <= i < |es| && es[i].alive ==> i in r
    ensures forall k, l :: 0 <= k < l < |r| ==> r[k] < r[l]
    decreases |es|
  {
    if |es| == 0 then []
    else
      var n := |es| - 1;
      AliveIndices(es[..n]) + (if es[n].alive then [n] else [])
  }

  /** The alive indices depend on the `alive` flags only. */
  lemma {:induction false} SameFlagsSameAlive(a: seq<Enemy>, b: seq<Enemy>)
    requires |a| == |b|
    requires forall i :: 0 <= i < |a| ==> a[i].alive == b[i].alive
    ensures AliveIndices(a) == AliveIndices(b)
    decreases |a|
  {
    if |a| > 0 {
      var n := |a| - 1;
      assert forall i :: 0 <= i < n ==> a[..n][i].alive == b[..n][i].alive;
      SameFlagsSameAlive(a[..n], b[..n]);
      assert AliveIndices(a) == AliveIndices(a[..n]) + (if a[n].alive then [n] else []);
    }
  }

  /** With every enemy alive, every index is alive. */
  lemma {:induction false} AllAlive(es: seq<Enemy>)
    requires forall i :: 0 <= i < |es| ==> es[i].alive
    ensures |AliveIndices(es)| == |es|
    decreases |es|
  {
    if |es| > 0 {
      AllAlive(es[..|es| - 1]);
    }
  }

  /** Killing one alive enemy removes exactly one alive index. */
  lemma {:induction false} KillOne(es: seq<Enemy>, i: nat, e: Enemy)
    requires i < |es| && es[i].alive && !e.alive
    ensures |AliveIndices(es[i := e])| == |AliveIndices(es)| - 1
    decreases |es|
  {
    var n := |es| - 1;
    var es' := es[i := e];
    if i == n {
      SameFlagsSameAlive(es[..n], es'[..n]);
    } else {
      assert es'[..n] == es[..n][i := e];
      KillOne(es[..n], i, e);
    }
  }

  /** `e.textures[e.texture === e.textures[0] ? 1 : 0]`: the frame shown after a toggle. */
  function OtherFrame(f: nat): (g: nat)
    ensures g <= 1
    ensures g != f || f > 1
  {
    if f == 0 then 1 else 0
  }

  /** The move step's texture toggle: alive enemies switch frame; no other enemy changes. */
  function Toggled(es: seq<Enemy>): (r: seq<Enemy>)
  {
    seq(|es|, i requires 0 <= i < |es| => if es[i].alive then es[i].(frame := OtherFrame(es[i].frame)) else es[i])
  }

  /** Toggling changes only the frames of alive enemies, keeps who is alive, and toggling twice
      gives back the two-frame animation where it was. */
  lemma {:induction false} ToggleProperties(es: seq<Enemy>)
    requires forall i :: 0 <= i < |es| ==> es[i].frame <= 1
    ensures |Toggled(es)| == |es|
    ensures forall i :: 0 <= i < |es| ==> Toggled(es)[i].(frame := es[i].frame) == es[i]
    ensures forall i :: 0 <= i < |es| ==> (Toggled(es)[i].frame != es[i].frame <==> es[i].alive)
    ensures AliveIndices(Toggled(es)) == AliveIndices(es)
    ensures Toggled(Toggled(es)) == es
  {
    SameFlagsSameAlive(es, Toggled(es));
  }

  /** An enemy as `reset` leaves it: its idle animation, alive and visible. */
  function Revived(e: Enemy): (r: Enemy)
  {
    e.(textures := IdleTextures, frame := 0, alive := true, visible := true)
  }

  /** Where an enemy's shot starts: horizontally centred under the enemy, at its bottom edge
      (the enemy's global position is the container's plus its own). */
  function ShotOrigin(cx: real, cy: real, e: Enemy): (p: Point)
    ensures p.x - (cx + e.pos.x) == (cx + e.pos.x + e.width) - p.x
    ensures p.y == cy + e.pos.y + e.height
  {
    Point(cx + e.pos.x + e.width / 2.0, cy + e.pos.y + e.height)
  }

  /** `Math.floor(Math.random() * n)`: an index in [0, n). */
  function PickIndex(random: real, n: nat): (k: nat)
    requires 0.0 <= random < 1.0 && 0 < n
    ensures k < n
    ensures k as real <= random * n as real < k as real + 1.0
  {
    assert random * n as real < n as real by {
      assert n as real - random * n as real == (1.0 - random) * n as real;
    }
    (random * n as real).Floor
  }

  /** `Math.random() * 150.0 + 20`: the next shot delay. */
  function ShotDelay(random: real): (t: real)
    requires 0.0 <= random < 1.0
    ensures 20.0 <= t < 170.0
  {
    random * 150.0 + 20.0
  }

  /** The loss test of `stepDown`: the formation's bottom is within 32 of the floor line. */
  predicate NearFloor(y: real, height: real)
  {
    var d := y + height - FLOOR_LINE;
    (if d < 0.0 then -d else d) < FLOOR_TOLERANCE
  }

  /** The edge rule of `physicsTick` applied to a container at horizontal position `x1`, row `y0`
      and direction `dir0`, ending at `x`, `y`, `dir` with the game-over signal `gameOver`: past
      the left edge it is put on the edge, turns right and drops a row; past the right edge it is
      put flush with it and steps down (`stepDown`: direction left, one row down, game over iff
      the bottom is near the floor); otherwise nothing changes and the game goes on. */
  predicate BandStep(x1: real, y0: real, dir0: int, width: real, height: real,
                     x: real, y: real, dir: int, gameOver: bool)
  {
    && (x1 < LEFT_EDGE ==> x == LEFT_EDGE && dir == 1 && y == y0 + V_STEP_DISTANCE && !gameOver)
    && (LEFT_EDGE <= x1 && x1 + width > RIGHT_EDGE ==>
          && x == RIGHT_EDGE - width && dir == -1 && y == y0 + V_STEP_DISTANCE
          && (gameOver <==> NearFloor(y, height)))
    && (LEFT_EDGE <= x1 && x1 + width <= RIGHT_EDGE ==> x == x1 && y == y0 && dir == dir0 && !gameOver)
  }

  /** After the edge rule a container no wider than the band lies inside it, and any container
      lies right of the left edge or flush with the right one. Game over only comes from a step
      down at the right edge, and keeps the new direction left. */
  lemma BandStepInBand(x1: real, y0: real, dir0: int, width: real, height: real,
                       x: real, y: real, dir: int, gameOver: bool)
    requires BandStep(x1, y0, dir0, width, height, x, y, dir, gameOver)
    ensures width <= RIGHT_EDGE - LEFT_EDGE ==> LEFT_EDGE <= x && x + width <= RIGHT_EDGE
    ensures LEFT_EDGE <= x || x == RIGHT_EDGE - width
    ensures gameOver <==> LEFT_EDGE <= x1 && x1 + width > RIGHT_EDGE && NearFloor(y, height)
    ensures gameOver ==> dir == -1 && y == y0 + V_STEP_DISTANCE
  {
  }

  /** Projectile `p` is an enemy projectile as `shoot` makes it: going down, not the player's,
      without callbacks or lock, with the animation variant `random` picks, its sprite of the
      given size placed at `origin`. */
  ghost predicate EnemyShotAt(p: Projectile, origin: Point, random: real, width: real, height: real)
    requires 0.0 <= random < 1.0
    reads p
  {
    && p.verticalDirection == 1 && !p.fromPlayer && !p.shot
    && p.onHit == NoOnHit && p.outOfBounds == NoOutOfBounds
    && p.animation == EnemyProjectile(EnemyVariant(random))
    && p.animSprite == Some(Sprite(origin.x, origin.y, width, height))
  }

  class Formation {
    var x: real
    var y: real
    /** The container's measured size. */
    var width: real
    var height: real
    var enemies: seq<Enemy>
    var moveDir: int
    var moveElapsedTime: real
    var shotElapsedTime: real
    var totalEnemiesAlive: int

    /** What holds between the formation's operations: 30 enemies, the counter equal to the
        number of alive ones, alive enemies visible and idle on a two-frame animation, and a
        direction of 1 or -1. */
    ghost predicate Valid()
      reads this
    {
      && |enemies| == GRID_SIZE
      && totalEnemiesAlive == |AliveIndices(enemies)|
      && (moveDir == 1 || moveDir == -1)
      && (forall i :: 0 <= i < |enemies| ==> enemies[i].frame <= 1)
      && (forall i :: 0 <= i < |enemies| && enemies[i].alive ==>
            enemies[i].visible && enemies[i].textures == IdleTextures)
    }

    /** The module's initial values and `load`: a container at the origin (the `ready` that
        would move it is not part of this model) holding the 30-enemy grid, all alive; the
        enemies' texture size and the container's measured size are given. */
    constructor (enemyWidth: real, enemyHeight: real, width: real, height: real)
      ensures Valid()
      ensures x == 0.0 && y == 0.0 && this.width == width && this.height == height
      ensures forall i :: 0 <= i < GRID_SIZE ==> enemies[i] == NewEnemy(i, enemyWidth, enemyHeight)
      ensures moveDir == 1 && moveElapsedTime == MAX_MOVE_ELAPSED_TIME && shotElapsedTime == 2.0
      ensures totalEnemiesAlive == GRID_SIZE
    {
      x := 0.0;
      y := 0.0;
      this.width := width;
      this.height := height;
      moveDir := 1;
      moveElapsedTime := MAX_MOVE_ELAPSED_TIME;
      shotElapsedTime := 2.0;
      var es := BuildGrid(enemyWidth, enemyHeight);
      AllAlive(es);
      enemies := es;
      totalEnemiesAlive := MAX_LINES * MAX_COLUMNS;
    }

    /** The `map` over the children in the move step: each alive enemy switches frame. */
    method ToggleFrames()
      modifies this`enemies
      ensures enemies == Toggled(old(enemies))
    {
      var k := 0;
      while k < |enemies|
        invariant 0 <= k <= |enemies| == |old(enemies)|
        invariant forall i :: 0 <= i < k ==> enemies[i] == Toggled(old(enemies))[i]
        invariant forall i :: k <= i < |enemies| ==> enemies[i] == old(enemies)[i]
      {
        var e := enemies[k];
        if e.alive {
          enemies := enemies[k := e.(frame := OtherFrame(e.frame))];
        }
        k := k + 1;
      }
    }

    /** `stepDown`: direction left, one row down; the result is the game-over signal, raised
        iff the new bottom is strictly within 32 of the floor line on either side. */
    method StepDown() returns (gameOver: bool)
      modifies this`moveDir, this`y
      ensures moveDir == -1 && y == old(y) + V_STEP_DISTANCE
      ensures gameOver <==> FLOOR_LINE - FLOOR_TOLERANCE < y + height < FLOOR_LINE + FLOOR_TOLERANCE
    {
      moveDir := -1;
      y := y + V_STEP_DISTANCE;
      gameOver := NearFloor(y, height);
    }

    /** The edge test of `physicsTick`: past the left edge the formation is put back on it,
        turns right and moves a row down; past the right edge it is put back inside and steps
        down. Afterwards a formation no wider than the band is inside it; a wider one is flush
        with the right edge. */
    method KeepInBand() returns (gameOver: bool)
      modifies this`x, this`y, this`moveDir
      ensures BandStep(old(x), old(y), old(moveDir), width, height, x, y, moveDir, gameOver)
      ensures width <= RIGHT_EDGE - LEFT_EDGE ==> LEFT_EDGE <= x && x + width <= RIGHT_EDGE
      ensures LEFT_EDGE <= x || x == RIGHT_EDGE - width
    {
      gameOver := false;
      if x < LEFT_EDGE {
        x := LEFT_EDGE;
        moveDir := 1;
        y := y + V_STEP_DISTANCE;
      } else if x + width > RIGHT_EDGE {
        x := RIGHT_EDGE - width;
        gameOver := StepDown();
      }
      BandStepInBand(old(x), old(y), old(moveDir), width, height, x, y, moveDir, gameOver);
    }

    /** `shoot`: nothing while the counter is 0; otherwise one enemy projectile is added below
        the enemy at index `pick * aliveCount` among the alive ones. The result is the shooter. */
    method Shoot(pm: ProjectileList, pick: real, variant: real, projectileWidth: real, projectileHeight: real)
      returns (shooter: Option<nat>)
      requires 0.0 <= pick < 1.0 && 0.0 <= variant < 1.0
      requires totalEnemiesAlive != 0 ==> AliveIndices(enemies) != []
      modifies pm`projectiles
      ensures shooter.Some? <==> totalEnemiesAlive != 0
      ensures shooter.None? ==> pm.projectiles == old(pm.projectiles)
      ensures shooter.Some? ==>
        && var ids := AliveIndices(enemies);
        && shooter.value == ids[PickIndex(pick, |ids|)]
        && shooter.value < |enemies| && enemies[shooter.value].alive
        && |pm.projectiles| == |old(pm.projectiles)| + 1
        && pm.projectiles[..|old(pm.projectiles)|] == old(pm.projectiles)
        && EnemyShotAt(pm.projectiles[|old(pm.projectiles)|], ShotOrigin(x, y, enemies[shooter.value]),
                       variant, projectileWidth, projectileHeight)
      ensures Distinct(old(pm.projectiles)) ==> Distinct(pm.projectiles)
    {
      if totalEnemiesAlive == 0 {
        return None;
      }
      var ids := AliveIndices(enemies);
      var id := PickIndex(pick, |ids|);
      var e := enemies[ids[id]];
      pm.InstantiateProjectile(ShotOrigin(x, y, e), variant, projectileWidth, projectileHeight);
      shooter := Some(ids[id]);
    }

    /** `physicsTick`. The move timer runs down by `dt`; when it drops below 0 the formation
        steps `moveDir * 16 * dt` sideways, the timer restarts at 30 and the alive enemies
        toggle frame. Then the edge test; then the shot timer runs down, and when it drops
        below 0 an enemy shoots and the timer restarts in [20, 170). `pick`, `variant` and
        `delay` are the values `Math.random()` returns. The results are the game-over signal
        of a step down and the shooter. */
    method PhysicsTick(dt: real, pm: ProjectileList, pick: real, variant: real, delay: real,
                       projectileWidth: real, projectileHeight: real)
      returns (gameOver: bool, shooter: Option<nat>)
      requires Valid()
      requires 0.0 <= pick < 1.0 && 0.0 <= variant < 1.0 && 0.0 <= delay < 1.0
      modifies this, pm`projectiles
      ensures Valid()
      ensures width == old(width) && height == old(height) && totalEnemiesAlive == old(totalEnemiesAlive)
      ensures var moved := old(moveElapsedTime) - dt < 0.0;
        && moveElapsedTime == (if moved then MAX_MOVE_ELAPSED_TIME else old(moveElapsedTime) - dt)
        && enemies == (if moved then Toggled(old(enemies)) else old(enemies))
        && BandStep(old(x) + (if moved then old(moveDir) as real * H_STEP_DISTANCE * dt else 0.0),
                    old(y), old(moveDir), width, height, x, y, moveDir, gameOver)
      ensures width <= RIGHT_EDGE - LEFT_EDGE ==> LEFT_EDGE <= x && x + width <= RIGHT_EDGE
      ensures var fired := old(shotElapsedTime) - dt < 0.0;
        && shotElapsedTime == (if fired then ShotDelay(delay) else old(shotElapsedTime) - dt)
        && (fired ==> 20.0 <= shotElapsedTime < 170.0)
        && (shooter.Some? <==> fired && totalEnemiesAlive != 0)
        && (shooter.None? ==> pm.projectiles == old(pm.projectiles))
      ensures shooter.Some? ==>
        && var ids := AliveIndices(enemies);
        && shooter.value == ids[PickIndex(pick, |ids|)]
        && shooter.value < |enemies| && enemies[shooter.value].alive
        && |pm.projectiles| == |old(pm.projectiles)| + 1
        && pm.projectiles[..|old(pm.projectiles)|] == old(pm.projectiles)
        && EnemyShotAt(pm.projectiles[|old(pm.projectiles)|], ShotOrigin(x, y, enemies[shooter.value]),
                       variant, projectileWidth, projectileHeight)
      ensures Distinct(old(pm.projectiles)) ==> Distinct(pm.projectiles)
    {
      gameOver := MoveStep(dt);
      shooter := ShotStep(dt, pm, pick, variant, delay, projectileWidth, projectileHeight);
    }

    /** The movement half of `physicsTick`: the move timer, the sideways step with the frame
        toggle, and the edge test. */
    method MoveStep(dt: real) returns (gameOver: bool)
      requires Valid()
      modifies this`x, this`y, this`moveDir, this`moveElapsedTime, this`enemies
      ensures Valid()
      ensures var moved := old(moveElapsedTime) - dt < 0.0;
        && moveElapsedTime == (if moved then MAX_MOVE_ELAPSED_TIME else old(moveElapsedTime) - dt)
        && enemies == (if moved then Toggled(old(enemies)) else old(enemies))
        && BandStep(old(x) + (if moved then old(moveDir) as real * H_STEP_DISTANCE * dt else 0.0),
                    old(y), old(moveDir), width, height, x, y, moveDir, gameOver)
      ensures width <= RIGHT_EDGE - LEFT_EDGE ==> LEFT_EDGE <= x && x + width <= RIGHT_EDGE
    {
      moveElapsedTime := moveElapsedTime - dt;
      if moveElapsedTime < 0.0 {
        x := x + moveDir as real * H_STEP_DISTANCE * dt;
        moveElapsedTime := MAX_MOVE_ELAPSED_TIME;
        ToggleFrames();
        ToggleProperties(old(enemies));
      }
      gameOver := KeepInBand();
    }

    /** The shooting half of `physicsTick`: the shot timer runs down, and when it drops below 0
        an enemy shoots and the timer restarts in [20, 170). */
    method ShotStep(dt: real, pm: ProjectileList, pick: real, variant: real, delay: real,
                    projectileWidth: real, projectileHeight: real)
      returns (shooter: Option<nat>)
      requires Valid()
      requires 0.0 <= pick < 1.0 && 0.0 <= variant < 1.0 && 0.0 <= delay < 1.0
      modifies this`shotElapsedTime, pm`projectiles
      ensures var fired := old(shotElapsedTime) - dt < 0.0;
        && shotElapsedTime == (if fired then ShotDelay(delay) else old(shotElapsedTime) - dt)
        && (fired ==> 20.0 <= shotElapsedTime < 170.0)
        && (shooter.Some? <==> fired && totalEnemiesAlive != 0)
        && (shooter.None? ==> pm.projectiles == old(pm.projectiles))
      ensures shooter.Some? ==>
        && var ids := AliveIndices(enemies);
        && shooter.value == ids[PickIndex(pick, |ids|)]
        && shooter.value < |enemies| && enemies[shooter.value].alive
        && |pm.projectiles| == |old(pm.projectiles)| + 1
        && pm.projectiles[..|old(pm.projectiles)|] == old(pm.projectiles)
        && EnemyShotAt(pm.projectiles[|old(pm.projectiles)|], ShotOrigin(x, y, enemies[shooter.value]),
                       variant, projectileWidth, projectileHeight)
      ensures Distinct(old(pm.projectiles)) ==> Distinct(pm.projectiles)
    {
      shotElapsedTime := shotElapsedTime - dt;
      shooter := None;
      if shotElapsedTime < 0.0 {
        shooter := Shoot(pm, pick, variant, projectileWidth, projectileHeight);
        shotElapsedTime := ShotDelay(delay);
      }
    }

    /** `onHit`: the counter drops by one, the enemy stops being alive and starts its destroy
        animation. Hitting an alive enemy keeps the counter equal to the number alive. */
    method OnHit(i: nat)
      requires i < |enemies|
      modifies this`totalEnemiesAlive, this`enemies
      ensures totalEnemiesAlive == old(totalEnemiesAlive) - 1
      ensures enemies == old(enemies)[i := old(enemies)[i].(alive := false, textures := DestroyTextures, frame := 0)]
      ensures old(Valid()) && old(enemies)[i].alive ==> Valid()
    {
      ghost var wasValid := Valid() && enemies[i].alive;
      totalEnemiesAlive := totalEnemiesAlive - 1;
      var e := enemies[i].(alive := false, textures := DestroyTextures, frame := 0);
      if wasValid {
        KillOne(enemies, i, e);
      }
      enemies := enemies[i := e];
    }

    /** The destroy animation of enemy `i` completed: it becomes invisible, the container is
        measured again (`width`, `height`), and the win signal is raised iff no enemy is alive. */
    method CompleteDestroyAnimation(i: nat, width: real, height: real) returns (win: bool)
      requires i < |enemies|
      modifies this`enemies, this`width, this`height
      ensures enemies == old(enemies)[i := old(enemies)[i].(visible := false)]
      ensures this.width == width && this.height == height
      ensures win <==> totalEnemiesAlive == 0
      ensures old(Valid()) && !old(enemies)[i].alive ==> Valid()
    {
      ghost var before := enemies;
      enemies := enemies[i := enemies[i].(visible := false)];
      SameFlagsSameAlive(before, enemies);
      this.width := width;
      this.height := height;
      win := totalEnemiesAlive == 0;
    }

    /** `reset`: direction right, container at (50, 64), every enemy revived on its idle
        animation, the container measured again and the counter set to the number of enemies.
        The timers are left as they are. Resetting a reset formation of the same size changes
        nothing. */
    method Reset(width: real, height: real)
      modifies this`moveDir, this`x, this`y, this`enemies, this`width, this`height, this`totalEnemiesAlive
      ensures |old(enemies)| == GRID_SIZE ==> Valid()
      ensures moveDir == 1 && x == HOME.x && y == HOME.y
      ensures |enemies| == |old(enemies)|
      ensures forall i :: 0 <= i < |enemies| ==> enemies[i] == Revived(old(enemies)[i])
      ensures this.width == width && this.height == height && totalEnemiesAlive == |enemies|
      ensures old(moveDir == 1 && x == HOME.x && y == HOME.y && this.width == width && this.height == height
                  && totalEnemiesAlive == |enemies|)
              && (forall i :: 0 <= i < |enemies| ==> old(enemies)[i] == Revived(old(enemies)[i])) ==>
        enemies == old(enemies)
    {
      moveDir := 1;
      x, y := HOME.x, HOME.y;
      var k := 0;
      while k < |enemies|
        invariant 0 <= k <= |enemies| == |old(enemies)|
        invariant forall i :: 0 <= i < k ==> enemies[i] == Revived(old(enemies)[i])
        invariant forall i :: k <= i < |enemies| ==> enemies[i] == old(enemies)[i]
        modifies this`enemies
      {
        enemies := enemies[k := Revived(enemies[k])];
        k := k + 1;
      }
      this.width := width;
      this.height := height;
      totalEnemiesAlive := |enemies|;
      AllAlive(enemies);
    }
  }

}
