/** Optional values, results, and the failures the logger can raise. */
module Wrappers {

  datatype Option<+T> = None | Some(value: T)

  datatype Result<+T> = Ok(value: T) | Err(error: Error)

  /** The exceptions the logger and its formatters raise, one constructor each. */
  datatype Error =
    /** `KeyError` from `_add_content`: the position already holds a fragment. */
    | DuplicatePosition(position: int)
    /** `KeyError` from the formatter table: no formatter for this runtime type. */
    | UnsupportedType(typeName: string)
    /** `ValueError` from unpacking `zip(*items)` of an empty mapping in the gallery formatter. */
    | EmptyMapping
    /** `AttributeError`: a formatter was given an artifact it cannot handle. */
    | NotApplicable
    /** `TypeError` from iterating `categories` when the logger was built without any. */
    | NoCategories
}
