/** Shared result types and the error taxonomy of the populator. */
module Common {

  datatype Option<T> = None | Some(value: T)

  /** The error kinds of populate.go:11-21, each carrying the key, tag or text its
      message names. Callers tell the kinds apart by message prefix, so every kind
      is its own constructor. */
  datatype Error =
    | CannotParse(text: string)
    | DuplicateRestrictToKey(key: string)
    | EnvKeyNotSetWhenRequired(missingKey: string)
    | EnvTagNotSet(fieldName: string)
    | ExpectedPointer
    | ExpectedStruct
    | FieldTypeNotAllowed(kindName: string)
    | InvalidTag(tag: string)
    | InvalidTagRestrictTo(outsideTag: string)
    | DecoderFailed(message: string)

  datatype Result<T> = Ok(value: T) | Err(error: Error)
}
