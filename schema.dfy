/** Value types shared by the session registry and its handlers. */
module Schema {

  /** The aspect-ratio presets a session can be created with. */
  datatype FrameLayout = Story | Square | Portrait | Landscape

  datatype Option<T> = None | Some(value: T)
}
