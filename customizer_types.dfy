/** The shared record types of the customizer (src/types/customizer.ts). */
module CustomizerTypes {
  /** Which side of the shirt a label is printed on (`'front' | 'back'`). */
  datatype Side = FrontSide | BackSide

  /** A text label; `x` and `y` are UV coordinates the store keeps but nothing in the core reads. */
  datatype TextLabel = TextLabel(id: string, text: string, position: Side, fontSize: real,
                                 color: string, x: real, y: real)

  /** The camera directive: one of the four fixed views, or `'free'` (orbit controls only). */
  datatype CameraPreset = Front | Back | Left | Right | Free
}
