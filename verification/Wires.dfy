/** What the modules about canvases share. */
module Wires {

  /** A wire between two handles, `component.parameter` each. */
  datatype Wire = Wire(source: string, target: string)
}
