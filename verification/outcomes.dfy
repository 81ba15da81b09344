/**
 The error conditions the test loader raises, and the failure-compatible
 wrappers the rest of the model returns instead of raising.
 */
module Outcomes {

  /** One constructor per exception the selection engine can raise. */
  datatype LoadError =
      /** A name given as a class does not have the shape "module.class". */
    | BadClassName(name: string)
      /** A name given as a method does not have the shape "module.class.method". */
    | BadMethodName(name: string)
      /** Static introspection cannot locate the fully-qualified module. */
    | ModuleNotFound(fullName: string)
      /** An exclusion names a module that is not in the name tree. */
    | ExcludeModuleMissing(longName: string, mod: string)
      /** An exclusion names a class that is not under its module in the name tree. */
    | ExcludeClassMissing(longName: string, cls: string, mod: string)
      /** An exclusion names a method that is not under its class in the name tree. */
    | ExcludeMethodMissing(longName: string, mth: string, cls: string)
      /** A group's granularity is not one of the legal values listed. */
    | BadGranularity(legal: seq<string>)
      /** The list of suites to run names a suite that is not configured. */
    | UnknownSuite(name: string)

  datatype Option<+T> = None | Some(value: T) {
    function GetOr(default: T): T {
      match this
      case Some(v) => v
      case None => default
    }
  }

  /** Either a value or the error the loader would raise. */
  datatype Result<+T> = Success(value: T) | Failure(error: LoadError) {
    predicate IsFailure() {
      Failure?
    }

    function PropagateFailure<U>(): Result<U>
      requires Failure?
    {
      Failure(error)
    }

    function Extract(): T
      requires Success?
    {
      value
    }
  }
}
