/**
 * The sprite sheet an atlas is described by: for each sprite, keyed by the
 * path of the image it came from, the rectangle it occupies in the atlas.
 */
module Assets {
  import opened Packing

  /** A path, as text. */
  type Path = string

  datatype Sprite = Sprite(rect: Rect)

  datatype SpriteSheet = SpriteSheet(sprites: map<Path, Sprite>)
}
