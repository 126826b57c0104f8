/** Outcomes shared by every parser, loader and validator of the listener configuration. */
module Results {

  /** An optional value; `None` stands for Go's nil. */
  datatype Option<+T> = None | Some(value: T) {

    /** The value, or `default` when there is none. */
    function GetOr(default: T): T {
      match this
      case Some(v) => v
      case None => default
    }
  }

  /** Why a configuration is refused. In Go the first three are all reported through
      `Dispenser.ArgErr`, whose text depends on the cursor; the model names the cause instead. */
  datatype Error =
    | StrayArgument(directive: string, arg: string)    // an argument on a line that opens a block
    | WrongArgCount(subdirective: string)               // a subdirective with the wrong number of arguments
    | UnrecognizedSubdirective(name: string)            // a subdirective the block does not know
    | UnexpectedBlock(subdirective: string)             // a block opened by a subdirective that takes none
    | ModuleNotRegistered(id: string)                   // no tunnel module under that id
    | ModuleNameNotSpecified(key: string)               // a raw tunnel without its inline key
    | UnknownFields(names: set<string>)                 // raw tunnel fields the module does not have
    | WrongFieldType(field: string)                     // a raw tunnel field of the wrong JSON type
    | TunnelRequired                                    // a session without a resolved tunnel
    | LabelRequired                                     // a labeled tunnel without labels

  /** Success with a value, or the first error met. Usable with `:-`. */
  datatype Result<+T> = Ok(value: T) | Err(error: Error) {

    predicate IsFailure() {
      Err?
    }

    function PropagateFailure<U>(): Result<U>
      requires Err?
    {
      Err(error)
    }

    function Extract(): T
      requires Ok?
    {
      value
    }
  }
}
