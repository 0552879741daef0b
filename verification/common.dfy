/** Shared vocabulary of the schema-audit model: optional values, results that
    carry the exceptions the Python code raises, and the values stored in
    object records. */
module Common {

  /** Python's `None` or a present value. */
  datatype Option<+T> = None | Some(value: T) {

    /** The present value, or `default` when there is none. */
    function GetOr(default: T): T {
      match this
      case Some(v) => v
      case None => default
    }
  }

  /** The exceptions the modelled code raises, one constructor per cause. */
  datatype Error =
    | InvalidUuidFormat(uuid: string)     // ValueError raised by `get_uuid_parts`
    | EmptySeparator                      // ValueError of `str.split("")`
    | UnpackMismatch(count: nat)          // ValueError of unpacking a split into four names
    | MissingKey(key: string)             // KeyError of `config[key]`
    | UnknownProvider(className: string)  // KeyError of the `globals()` class lookup
    | UpdateSequenceElement(length: nat)  // ValueError of `dict.update` given a list of dicts
    | MissingAttribute(attribute: string) // AttributeError of calling an undefined method

  /** Either a value or the exception that aborted the computation; usable with `:-`. */
  datatype Result<+T> = Success(value: T) | Failure(error: Error) {

    predicate IsFailure() {
      Failure?
    }

    function PropagateFailure<U>(): Result<U>
      requires Failure?
    {
      Failure(error)
    }

    function Extract(): T
      requires Success?
    {
      value
    }
  }

  /** A value stored in an object record: the providers emit strings and `True`. */
  datatype Value = Str(text: string) | Flag(flag: bool)

  /** What one provider contributes to an object record. */
  type Fragment = map<string, Value>

  /** An object record: `{uuid: ..., ...metadata fields}`. */
  type Record = map<string, Value>
}
