/** Value types shared by the converter: the options a caller passes, the result it gets back,
    and the three kinds of conversion failure (src/types.ts). */
module Types {

  datatype Option<+T> = None | Some(value: T)

  /** The outcome of an operation that may fail with a conversion error; usable with `:-`. */
  datatype Result<+T> = Success(value: T) | Failure(error: ConversionError) {
    predicate IsFailure() { Failure? }

    function PropagateFailure<U>(): Result<U>
      requires Failure?
    {
      Failure(error)
    }

    function Extract(): T
      requires Success?
    {
      value
    }
  }

  /** A check that either passes or fails with a conversion error (a method that may throw). */
  datatype Outcome = Pass | Fail(error: ConversionError) {
    predicate IsFailure() { Fail? }

    function PropagateFailure<U>(): Result<U>
      requires Fail?
    {
      Failure(error)
    }
  }

  /** The kinds of `ConversionError` the converter raises, each carrying what its message names. */
  datatype ConversionError =
    | InvalidAlphabet                         // digit set shorter than two characters
    | InvalidBase(maxBase: nat)               // a base outside [2, maxBase]
    | InvalidDigit(digit: char, base: nat)    // a character that is not a digit of `base`

  /** `showSteps` and `uppercase` are optional in the source; an absent flag reads as false. */
  datatype ConversionOptions = ConversionOptions(fromBase: int, toBase: int, showSteps: bool, uppercase: bool)

  /** `steps` is None exactly when the caller did not ask for a trace. */
  datatype ConversionResult = ConversionResult(
    input: string,
    output: string,
    fromBase: int,
    toBase: int,
    steps: Option<seq<string>>)
}
