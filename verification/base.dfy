/** Kotlin and JVM vocabulary shared by every module of the model: nullable
    values, the exceptions the plugin raises, and the integer widths it uses. */
module Base {

  /** One element of a `ByteArray`. Only equality of bytes matters here, so
      the signedness of Kotlin's `Byte` is not modelled. */
  type Byte = b: int | 0 <= b < 256

  type Bytes = seq<Byte>

  /** Kotlin's 64-bit `Long`. */
  type Long = x: int | -0x8000_0000_0000_0000 <= x < 0x8000_0000_0000_0000

  /** A Kotlin nullable value; `Null` stands for `null`. */
  datatype Option<+T> = Null | Some(value: T) {

    /** Kotlin's elvis operator `this ?: default`. */
    function OrElse(default: T): T {
      match this
      case Some(v) => v
      case Null => default
    }
  }

  /** The exception classes raised along the modelled paths. */
  datatype Exception =
    | IllegalState          // java.lang.IllegalStateException
    | IllegalArgument       // java.lang.IllegalArgumentException
    | NullPointer           // `!!` on null, or a null key given to a ConcurrentHashMap
    | IndexOutOfBounds      // String.substring past the end of the string
    | ReaderIO              // Keyple's ReaderIOException
    | UninitializedProperty // a `lateinit` property read before its first assignment
    | ClosedSendChannel     // kotlinx ClosedSendChannelException: an offer to a closed channel

  /** A `Throwable` travelling through a coroutine; only its message is observable. */
  datatype Throwable = Throwable(message: Option<string>)

  /** The outcome of a Kotlin call: a value, or the exception it throws. */
  datatype Result<+T> = Ok(value: T) | Throws(error: Exception)

  /** The value of a string of decimal digits, read left to right. */
  function DigitsValue(s: string): int
    decreases |s|
  {
    if |s| == 0 then 0
    else DigitsValue(s[..|s| - 1]) * 10 + (s[|s| - 1] as int - '0' as int)
  }

  /** Kotlin's `Int.toString` for a non-negative value: its decimal digits,
      with no leading zero, reading back as the value. */
  function DecimalString(n: nat): (s: string)
    ensures |s| >= 1 && (|s| == 1 <==> n < 10)
    ensures forall i :: 0 <= i < |s| ==> '0' <= s[i] <= '9'
    ensures s[|s| - 1] == ('0' as int + n % 10) as char
    ensures DigitsValue(s) == n
    ensures |s| > 1 ==> s[0] != '0'
    decreases n
  {
    if n < 10 then [('0' as int + n) as char]
    else
      var prefix := DecimalString(n / 10);
      var s := prefix + [('0' as int + n % 10) as char];
      assert s[..|s| - 1] == prefix;
      s
  }
}
