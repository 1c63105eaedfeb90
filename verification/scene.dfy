/** The small part of the rendering library's scene graph that the game's rules read and write:
    a sprite's position and the size of its current texture. Everything else about a sprite
    (textures, tint, animation speed, playback) is rendering and stays outside the model. */
module Scene {

  /** A point in scene coordinates (the `{x, y}` objects the game passes around). */
  datatype Point = Point(x: real, y: real)

  /** A sprite as the rules see it: top-left position and size. */
  datatype Sprite = Sprite(x: real, y: real, width: real, height: real)
  {
    /** The sprite moved so that its position is exactly `p` (`position.set(p.x, p.y)`). */
    function At(p: Point): (s: Sprite)
      ensures s.x == p.x && s.y == p.y
      ensures s.width == width && s.height == height
    {
      this.(x := p.x, y := p.y)
    }
  }

  /** A freshly created sprite: the library places it at the origin. */
  function NewSprite(width: real, height: real): (s: Sprite)
    ensures s.x == 0.0 && s.y == 0.0 && s.width == width && s.height == height
  {
    Sprite(0.0, 0.0, width, height)
  }

}
