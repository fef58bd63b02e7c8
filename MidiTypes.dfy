/**
 * The in-range values of the MIDI integer types, as subset types, for the
 * event and parser models that carry them as fields.
 */
module MidiTypes {
  type UInt4 = x: int | 0 <= x < 16
  type UInt8 = x: int | 0 <= x < 256
  type UInt7 = x: int | 0 <= x < 128
  type UInt14 = x: int | 0 <= x < 16384
}
