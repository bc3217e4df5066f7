/** The Java exceptions the normalizer can raise, and a result type that
    carries either a value or the exception that escaped. */
module Exceptions {

  datatype Exception =
    | ArithmeticException          // BigDecimal division by zero
    | NumberFormatException        // new BigDecimal(bad text), BigDecimal.valueOf(Double.NaN)
    | NoSuchElementException       // TreeSet.first()/last() on an empty set
    | IndexOutOfBoundsException    // List.get / List.add / array index out of range
    | NullPointerException         // reader.readLine() returned null for the header
    | IllegalArgumentException(message: string)

  datatype Result<+T> = Ok(value: T) | Thrown(exception: Exception) {
    predicate IsFailure() { Thrown? }

    function PropagateFailure<U>(): Result<U>
      requires Thrown?
    {
      Thrown(exception)
    }

    function Extract(): T
      requires Ok?
    {
      value
    }
  }
}
