/** The capture interface the node drives: formats and borrowed frames. */
module CameraBackend {
  datatype ImageFormat = RawBgr8 | Jpeg

  // Where a borrowed frame's bytes live.
  datatype Source =
    | Nowhere              // a null pointer
    | Mapped(index: nat)   // a memory-mapped capture buffer
    | Converted            // the backend's own output image

  datatype Frame = Frame(data: Source, size: nat) {
    predicate Valid() {
      data != Nowhere && size > 0
    }
  }

  const NO_FRAME := Frame(Nowhere, 0)
}
