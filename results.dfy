/** Optional values and error-or-value results shared by the whole model. */
module Results {

  datatype Option<+T> = None | Some(value: T)

  /** The errors the layout engine raises. */
  datatype Error =
    | UnknownPanelType(name: string)   // unknown thickness-profile name
    | NoFaces                          // a mesh with zero faces cannot be projected
    | NotConverged                     // the position filler used up its pass budget
    | NoFillMaterial                   // a battened layer lists no material besides its battens

  datatype Result<+T> = Ok(value: T) | Err(error: Error)
}
