/**
 The named plot colours shared by the heart-rate status box, the sound
 timeline and the systole/diastole bands.
 */
module Palette {

  datatype Colour = Green | Orange | Red | DarkRed | LightBlue | Plum {
    function Name(): string {
      match this
      case Green => "green"
      case Orange => "orange"
      case Red => "red"
      case DarkRed => "darkred"
      case LightBlue => "lightblue"
      case Plum => "plum"
    }
  }
}
