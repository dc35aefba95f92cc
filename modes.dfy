/** The transformation modes and their digit keys, as Lab2/Question5.cpp and
    Lab3/2DTransformations.cpp both declare and switch on them. */
module TransformModes {
  /** `TransformMode`; `Original` is the source's NONE (only the original triangle). */
  datatype TransformMode = Original | Translate | Scale | Rotate | Shear | ReflectX | ReflectY

  /** The ESC key, which ends the program. */
  const Escape: char := 27 as char

  /** The mode a key selects: '1'–'6' pick a transformation, '0' the original, and every
      other key keeps the current mode. */
  function KeyMode(mode: TransformMode, key: char): (r: TransformMode)
  {
    match key
    case '1' => Translate
    case '2' => Scale
    case '3' => Rotate
    case '4' => Shear
    case '5' => ReflectX
    case '6' => ReflectY
    case '0' => Original
    case _ => mode
  }

  /** A key selects a mode exactly when it is a digit from '0' to '6'; each mode has
      its own key, so the selection is determined by the key alone. */
  lemma KeyModeSelects(mode: TransformMode, key: char)
    ensures '0' <= key <= '6' ==> KeyMode(mode, key) == KeyMode(Original, key)
    ensures !('0' <= key <= '6') ==> KeyMode(mode, key) == mode
    ensures forall k :: '0' <= k <= '6' && '0' <= key <= '6' && KeyMode(mode, k) == KeyMode(mode, key) ==> k == key
  {
  }
}
