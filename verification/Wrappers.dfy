/** Option and Result, with the error variants of src/error.rs that the model can reach. */
module Wrappers {

  datatype Option<+T> = None | Some(value: T)

  datatype Error =
    | EmptyKey
    | KeyTooLarge
    | ValueTooLarge
    | CorruptedRecord
    | InvalidChecksum
    | InvalidManifest
    | Io

  datatype Result<+T> = Ok(value: T) | Err(error: Error) {
    predicate IsFailure() {
      Err?
    }

    function PropagateFailure<U>(): Result<U>
      requires Err?
    {
      Err(error)
    }

    function Extract(): T
      requires Ok?
    {
      value
    }
  }

  /** What has been read, in front of what reading the rest gives. */
  ghost function Prepended<T>(done: seq<T>, rest: Result<seq<T>>): Result<seq<T>>
  {
    if rest.Ok? then Ok(done + rest.value) else rest
  }

  lemma PrependedNothing<T>(rest: Result<seq<T>>)
    ensures Prepended([], rest) == rest
  {
    if rest.Ok? {
      assert [] + rest.value == rest.value;
    }
  }

  lemma PrependedOne<T>(done: seq<T>, next: T, rest: Result<seq<T>>)
    ensures Prepended(done, Prepended([next], rest)) == Prepended(done + [next], rest)
  {
    if rest.Ok? {
      assert done + ([next] + rest.value) == done + [next] + rest.value;
    }
  }
}
