/**
 * The script values that cross the boundary between the scripting engine and
 * the native scene graph, reduced to what the core inspects: their type tags,
 * the payload of the engine's own vector, matrix and array objects, and
 * option bags (objects read by property name).
 */
module JsValues {

  datatype Option<+T> = None | Some(value: T)

  datatype Result<+T, +E> = Ok(value: T) | Err(error: E)

  /**
   * Why a native entry point returned false: a call with the wrong number of
   * arguments, or an error it reported with a fixed message.
   */
  datatype Failure = WrongArgumentCount(given: nat, expected: nat) | Reported(message: string)

  /** What a native entry point returns: success, or the error it reported. */
  type Status = Result<(), Failure>

  const INT32_MIN: int := -0x8000_0000
  const INT32_MAX: int := 0x7fff_ffff

  /** A value that passes the engine's isInt32 test. */
  type Int32 = n: int | INT32_MIN <= n <= INT32_MAX

  /** A row-major 4x4 matrix, as OVR::Matrix4f stores it. */
  type Mat4 = m: seq<seq<real>> | IsMat4(m) witness Identity()

  predicate IsMat4(m: seq<seq<real>>)
  {
    |m| == 4 && forall i :: 0 <= i < 4 ==> |m[i]| == 4
  }

  function Identity(): (m: seq<seq<real>>)
    ensures IsMat4(m)
    ensures forall i, j :: 0 <= i < 4 && 0 <= j < 4 ==> m[i][j] == if i == j then 1.0 else 0.0
  {
    [[1.0, 0.0, 0.0, 0.0], [0.0, 1.0, 0.0, 0.0], [0.0, 0.0, 1.0, 0.0], [0.0, 0.0, 0.0, 1.0]]
  }

  /**
   * A script value. Objects come in the kinds the core distinguishes: the
   * engine's vector and matrix wrappers (their private payload), arrays,
   * functions and any other object, identified by a handle.
   */
  datatype Value =
    | Undefined
    | Null
    | Bool(b: bool)
    | Int(n: Int32)
    | Number(x: real)
    | Str(s: string)
    | Vector(comps: seq<real>)
    | Matrix(m: Mat4)
    | Arr(elems: seq<Value>)
    | Function(fn: nat)
    | Obj(handle: nat)
  {
    predicate IsNullOrUndefined() { Undefined? || Null? }

    predicate IsObject() { Vector? || Matrix? || Arr? || Function? || Obj? }
  }

  /** An option bag: the object's own properties by name. */
  type Options = map<string, Value>

  /** The script's plain objects: each handle's own properties. */
  type Heap = map<nat, Options>

  /**
   * The properties of `v` as the core reads them by name: a plain object's
   * own properties; none for every other value (the engine's vector, matrix,
   * array and function objects have none of the option names the core reads).
   */
  function PropertiesOf(heap: Heap, v: Value): (opts: Options)
    ensures !v.Obj? ==> opts == map[]
  {
    if v.Obj? && v.handle in heap then heap[v.handle] else map[]
  }

  /** Reading a property the bag does not have yields undefined. */
  function Get(opts: Options, name: string): (v: Value)
    ensures name !in opts ==> v == Undefined
    ensures name in opts ==> v == opts[name]
  {
    if name in opts then opts[name] else Undefined
  }

  /** The decimal digit character for 0 <= d < 10. */
  function DigitChar(d: nat): (c: char)
    requires d < 10
    ensures '0' <= c <= '9'
  {
    '0' + d as char
  }

  /** The decimal notation of `n`, as printf's %d and %u write it: no sign, no leading zeros. */
  function Decimal(n: nat): (s: string)
    ensures |s| >= 1
  {
    if n < 10 then [DigitChar(n)] else Decimal(n / 10) + [DigitChar(n % 10)]
  }

  predicate IsDigits(s: string)
  {
    forall i :: 0 <= i < |s| ==> '0' <= s[i] <= '9'
  }

  /** The number a string of decimal digits denotes. */
  function DecimalValue(s: string): nat
    requires IsDigits(s)
  {
    if |s| == 0 then 0 else DecimalValue(s[..|s| - 1]) * 10 + (s[|s| - 1] - '0') as nat
  }

  /** Decimal writes digits only, without a leading zero, and reading them back gives the number. */
  lemma {:induction false} DecimalRoundTrip(n: nat)
    ensures IsDigits(Decimal(n))
    ensures n > 0 ==> Decimal(n)[0] != '0'
    ensures DecimalValue(Decimal(n)) == n
  {
    if n >= 10 {
      DecimalRoundTrip(n / 10);
      var s := Decimal(n);
      assert s[..|s| - 1] == Decimal(n / 10);
    }
  }
}
