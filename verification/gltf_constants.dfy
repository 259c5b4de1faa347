/**
 * The accessor vocabulary of glTF 2.0 (section 3.6.2 of the glTF 2.0
 * specification): component-type codes and element-type names.
 */
module GltfConstants {

  /** The component types the exporter writes, with their glTF/WebGL codes. */
  datatype ComponentType = UnsignedByte | UnsignedShort | UnsignedInt | Float {

    function Code(): int {
      match this
      case UnsignedByte => 5121
      case UnsignedShort => 5123
      case UnsignedInt => 5125
      case Float => 5126
    }
  }

  /** Element type by number of components per element. */
  const StandardAttributeTypes: map<int, string> :=
    map[1 := "SCALAR", 2 := "VEC2", 3 := "VEC3", 4 := "VEC4", 9 := "MAT3", 16 := "MAT4"]

  /** Different component types have different codes, so a code identifies its type. */
  lemma CodesAreDistinct(a: ComponentType, b: ComponentType)
    ensures a.Code() == b.Code() <==> a == b
  {
  }
}
