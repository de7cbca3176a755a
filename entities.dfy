/** Bevy's `Entity`, in the main world or the render world. */
module Entities {

  /** An entity is an opaque identifier; the model numbers them. */
  type Entity = nat
}
