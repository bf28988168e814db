/**
 * Quarto pieces (src/piece.rs).
 *
 * A piece is one byte. The low nibble holds the four attributes, one bit each.
 * The high nibble is a "shadow" of negated attributes: `Set(prop, false)`
 * raises bit `prop << 4`, so that four pieces that all LACK an attribute can
 * also share a bit. Pieces built by `NewWithProps` never have a shadow bit.
 */
module Pieces {

  /** The four attributes, each a distinct single bit of the low nibble. */
  datatype Property = Tall | Round | Full | Light {

    function Bit(): (b: bv8)
      ensures b != 0 && b & 0xF0 == 0
      ensures b & (b - 1) == 0
    {
      match this
      case Tall => 1
      case Round => 2
      case Full => 4
      case Light => 8
    }

    /** The shadow bit that marks this attribute as explicitly absent. */
    function Shadow(): (b: bv8)
      ensures b != 0 && b & 0x0F == 0 && b & Bit() == 0
    {
      Bit() << 4
    }
  }

  datatype Piece = Piece(properties: bv8) {

    /** `Piece::new()`: the piece with no attribute and no shadow bit. */
    static function New(): (p: Piece)
      ensures p.properties == 0
      ensures forall prop: Property :: !p.Get(prop)
    {
      NewWithProps(0)
    }

    /**
     * `Piece::new_with_props`: the source asserts that the high nibble is
     * clear; the mask `!(props << 4)` then clears no bit of the low nibble.
     */
    static function NewWithProps(props: bv8): (p: Piece)
      requires props >> 4 == 0
      ensures p.properties == props
      ensures p.properties & 0xF0 == 0
      ensures forall prop: Property :: p.Get(prop) <==> props & prop.Bit() != 0
    {
      Piece(props & !(props << 4))
    }

    /** True iff the attribute bit `prop` is set; the shadow nibble never affects the answer. */
    function Get(prop: Property): (b: bool)
      ensures b <==> (properties & 0x0F) & prop.Bit() != 0
    {
      properties & prop.Bit() != 0
    }

    /**
     * `Piece::set`, which updates the byte in place in two steps. A `Piece`
     * is a plain copyable value, so the updated piece is returned.
     */
    method Set(prop: Property, val: bool) returns (q: Piece)
      ensures q.Get(prop) == val
      ensures q.properties & prop.Shadow() == (if val then 0 else prop.Shadow())
      ensures q.properties & !(prop.Bit() | prop.Shadow()) == properties & !(prop.Bit() | prop.Shadow())
      ensures forall other: Property :: other != prop ==> q.Get(other) == Get(other)
    {
      var bits := properties;
      if val {
        bits := bits | prop.Bit();
        bits := bits & !(prop.Bit() << 4);
      } else {
        bits := bits & !prop.Bit();
        bits := bits | (prop.Bit() << 4);
      }
      q := Piece(bits);
    }
  }

  /** Two distinct attributes never share a bit. */
  lemma BitsDisjoint(a: Property, b: Property)
    requires a != b
    ensures a.Bit() & b.Bit() == 0
  {
  }
}
