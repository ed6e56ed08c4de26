/** The few game-engine notions the card screen relies on, reduced to what its
    logic observes: a scene object that can be switched on and off, the image
    it shows and the texts of its text components. */
module Engine {
  import opened Optional

  /** Decoded image data; its pixels are never inspected. */
  type Texture = seq<bv8>

  /** A drawable image cut from a whole texture and anchored at its centre. */
  datatype Sprite = Sprite(texture: Texture)

  /** The template every card is instantiated from: whether it is active, the
      sprite of its image slot and the texts of its text components, in
      traversal order. */
  datatype Prefab = Prefab(active: bool, sprite: Option<Sprite>, texts: seq<string>)

  /** A scene object (a card). `sprite` is the image of the nested image
      child; `texts` holds one entry per text component found below the
      object, first-found first. */
  class GameObject {
    var active: bool
    var sprite: Option<Sprite>
    var texts: seq<string>

    /** Instantiating a template: a new object that is a copy of it. */
    constructor Instantiate(prefab: Prefab)
      ensures active == prefab.active
      ensures sprite == prefab.sprite && texts == prefab.texts
    {
      active := prefab.active;
      sprite := prefab.sprite;
      texts := prefab.texts;
    }

    method SetActive(value: bool)
      modifies this
      ensures active == value
      ensures sprite == old(sprite) && texts == old(texts)
    {
      active := value;
    }
  }
}
