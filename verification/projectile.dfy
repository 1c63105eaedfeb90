/** One projectile (game/projectile/projectile.js). A projectile is an object: the player's own
    projectile is shared between the player and the projectile list, and the list finds and
    removes projectiles by identity, so the model keeps it a class. Its callbacks become data:
    `onHit` and `outOfBounds` say what the closure the player installs would do. */
module Projectile {

  import opened Wrappers
  import opened Scene

  /** `SPEED`: distance per unit of `dt`. */
  const SPEED: real := 3.0

  /** The height of the play field; a projectile whose bottom edge leaves [0, 480] is gone. */
  const FIELD_HEIGHT: real := 480.0

  /** The projectile's `onHit` callback: none, or the player's (award points, release the lock). */
  datatype OnHitHook = NoOnHit | AwardAndRelease(points: nat)

  /** The projectile's `outOfBounds` callback: none, or the player's (release the lock). */
  datatype OutOfBoundsHook = NoOutOfBounds | Release

  /** Which animation the sprite plays: the player's projectile or enemy variant `proj_n`. */
  datatype Animation = NoAnimation | PlayerProjectile | EnemyProjectile(variant: int)

  /** The sprite after one tick: it moves vertically by `direction * SPEED * dt`. */
  function Advanced(s: Sprite, direction: int, dt: real): (r: Sprite)
  {
    s.(y := s.y + direction as real * SPEED * dt)
  }

  /** `move`'s bounds test: the bottom edge is above the top of the field or below its floor. */
  predicate OutOfField(s: Sprite)
  {
    s.y + s.height < 0.0 || s.y + s.height > FIELD_HEIGHT
  }

  /** A tick moves the sprite vertically and nothing else, and two ticks are one tick of the
      summed time. */
  lemma AdvanceMovesVertically(s: Sprite, direction: int, dt1: real, dt2: real)
    ensures Advanced(s, direction, dt1).(y := s.y) == s
    ensures Advanced(s, direction, dt1).y - s.y == direction as real * SPEED * dt1
    ensures Advanced(Advanced(s, direction, dt1), direction, dt2) == Advanced(s, direction, dt1 + dt2)
  {
    var d := direction as real * SPEED;
    assert d * dt1 + d * dt2 == d * (dt1 + dt2);
  }

  /** A projectile that has left the field through the top and keeps moving up (direction -1,
      non-negative time) stays out. */
  lemma LeavingUpwardsIsFinal(s: Sprite, dt: real)
    requires s.y + s.height < 0.0 && 0.0 <= dt
    ensures OutOfField(Advanced(s, -1, dt))
  {
  }

  class Projectile {
    var animSprite: Option<Sprite>
    var animation: Animation
    var verticalDirection: int
    var fromPlayer: bool
    var onHit: OnHitHook
    var outOfBounds: OutOfBoundsHook
    /** The single-shot lock the player keeps on its own projectile (undefined, i.e. false,
        on every other projectile). */
    var shot: bool

    /** `create`: no sprite, direction 0, not the player's, no callbacks. */
    constructor Create()
      ensures animSprite == None && animation == NoAnimation
      ensures verticalDirection == 0 && !fromPlayer
      ensures onHit == NoOnHit && outOfBounds == NoOutOfBounds && !shot
    {
      animSprite := None;
      animation := NoAnimation;
      verticalDirection := 0;
      fromPlayer := false;
      onHit := NoOnHit;
      outOfBounds := NoOutOfBounds;
      shot := false;
    }

    /** `ready`: puts the sprite exactly at `initialPosition` (starting the animation is rendering). */
    method Ready(initialPosition: Point)
      requires animSprite.Some?
      modifies this`animSprite
      ensures animSprite == Some(old(animSprite.value).At(initialPosition))
    {
      animSprite := Some(animSprite.value.At(initialPosition));
    }

    /** `move`: advances the sprite one tick and reports whether its bottom edge left the field. */
    method Move(dt: real) returns (isOutOfBounds: bool)
      requires animSprite.Some?
      modifies this`animSprite
      ensures animSprite == Some(Advanced(old(animSprite.value), verticalDirection, dt))
      ensures animSprite.value.x == old(animSprite.value.x)
      ensures animSprite.value.y == old(animSprite.value.y) + verticalDirection as real * SPEED * dt
      ensures isOutOfBounds <==> (var bottom := animSprite.value.y + animSprite.value.height;
                                  bottom < 0.0 || bottom > FIELD_HEIGHT)
    {
      animSprite := Some(Advanced(animSprite.value, verticalDirection, dt));
      var bottom := animSprite.value.y + animSprite.value.height;
      isOutOfBounds := bottom < 0.0 || bottom > FIELD_HEIGHT;
    }
  }

  /** `move` seen from outside: the verdict it gives a projectile, from the state before the tick. */
  predicate LeavesField(s: Sprite, direction: int, dt: real)
  {
    OutOfField(Advanced(s, direction, dt))
  }

}
