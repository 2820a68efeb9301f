// Shared vocabulary of the Nolan engine model: optional values, results,
// the error taxonomy of the engine and 16-bit signed integers.

module Base {

  datatype Option<+T> = None | Some(value: T)

  /** Error kinds of the engine's own exceptions. */
  datatype ErrorKind = NullOrEmpty | OutOfRange | KeyNotFound | DuplicateKey | SyntaxError | FileNotFound

  /** The compilation phase attached to a contextual error. */
  datatype ScriptContext = TextContext | StatContext | KnotContext | RuleContext | RouteContext | PageContext | GoalContext

  /** Exceptions raised by the .NET runtime rather than by the engine itself. */
  datatype RuntimeKind =
    | FormatFailure       // short.Parse / int.Parse on a malformed numeral
    | Overflow            // short.Parse on a numeral out of range
    | IndexOutOfRange     // array, list or string index outside its bounds
    | ArgumentOutOfRange  // Substring / GetRange outside the string or list
    | MissingKey          // Dictionary indexer on an absent key
    | DuplicateEntry      // Dictionary.Add / ToDictionary on a key already present
    | EmptySequence       // First() / Last() on an empty sequence
    | DivideByZero        // an integer `%` or `/` by zero
    | EmptyPattern        // String.Replace asked to replace the empty string

  datatype Error =
    | Script(kind: ErrorKind)
    | Contextual(kind: ErrorKind, context: ScriptContext)
    | Runtime(runtime: RuntimeKind)
    | Diverged            // the engine's recursion would not terminate (fuel ran out)

  datatype Result<+T> = Ok(value: T) | Err(error: Error) {
    predicate IsFailure() { Err? }
    function PropagateFailure<U>(): Result<U>
      requires Err?
    {
      Err(error)
    }
    function Extract(): T
      requires Ok?
    {
      value
    }
  }

  /**
   * What a C# iterator (`yield return`) produces when it is run to its end:
   * the items it yields, in order, and the exception it stops with, if any.
   * A consumer sees every item before the exception.
   */
  datatype Yielded<+T> = Yielded(items: seq<T>, stop: Option<Error>) {
    /** This iterator followed by `next`, which starts only when this one ends without an exception. */
    function Then(next: Yielded<T>): (r: Yielded<T>)
      ensures forall x :: x in r.items ==> x in items || x in next.items
      ensures r.stop.Some? <==> stop.Some? || next.stop.Some?
    {
      if stop.Some? then this else Yielded(items + next.items, next.stop)
    }
  }

  const MinShort: int := -32768
  const MaxShort: int := 32767

  /** A C# `short`. */
  type Int16 = x: int | MinShort <= x <= MaxShort

  /** The C# `(short)` cast: two's-complement wrap-around. */
  function Wrap16(x: int): (r: Int16)
    ensures MinShort <= x <= MaxShort ==> r == x
  {
    (x + 32768) % 65536 - 32768
  }

  /** The cast keeps the value modulo 2^16, so one past `short.MaxValue` becomes `short.MinValue`. */
  lemma Wrap16Congruent(x: int)
    ensures (Wrap16(x) - x) % 65536 == 0
    ensures x == MaxShort + 1 ==> Wrap16(x) == MinShort
    ensures x == MinShort - 1 ==> Wrap16(x) == MaxShort
  {
    var q := (x + 32768) / 65536;
    assert x + 32768 == 65536 * q + (x + 32768) % 65536;
    assert Wrap16(x) - x == -65536 * q;
  }
}
