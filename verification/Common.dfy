/** Shared value types: bytes, optional values and the error codes of `src/error.rs`. */
module Common {

  type byte = x: int | 0 <= x < 256

  const U32_MAX: nat := 0xFFFF_FFFF

  /** Range sources that may be open at once (`js/model.ts`). */
  const MAX_SOURCES: nat := 2

  /** One UTF-16 code unit of a JavaScript string. */
  type Unit = x: int | 0 <= x < 0x1_0000

  /** The UTF-8 byte order mark. */
  const BOM: seq<byte> := [0xEF, 0xBB, 0xBF]

  datatype Option<+T> = None | Some(value: T)

  /** The stable error codes that the modelled code returns (`src/error.rs`, `js/errors.ts`). */
  datatype ErrorCode =
    | InvalidArgument
    | InvalidRange
    | ParseFailed
    | UnsupportedFeature
    | ResourceLimit
    | RangeNotIndexed
    | HandleClosed
    | RuntimeFailure
    | RangeUnsupported
    | CallCancelled

  datatype Result<+T> = Ok(value: T) | Err(error: ErrorCode) {
    predicate IsFailure() {
      Err?
    }

    function PropagateFailure<U>(): Result<U>
      requires Err?
    {
      Err(error)
    }

    function Extract(): T
      requires Ok?
    {
      value
    }
  }

  function Min(a: int, b: int): int {
    if a < b then a else b
  }

  function Max(a: int, b: int): int {
    if a < b then b else a
  }

  function LittleEndian(bytes: seq<byte>): nat {
    if bytes == [] then 0 else bytes[0] + 256 * LittleEndian(bytes[1..])
  }

  lemma ScaledOrder(i: nat, j: nat, k: nat)
    requires i <= j
    ensures i * k <= j * k
  {
  }

  lemma DivideExactly(n: nat, k: nat, q: nat, r: nat)
    requires k > 0 && r < k && n == q * k + r
    ensures n / k == q && n % k == r
  {
    assert (n / k - q) * k == r - n % k;
    MultipleBounds(n / k - q, k);
  }

  lemma MultipleBounds(d: int, k: int)
    requires k >= 0
    ensures d >= 1 ==> d * k >= k
    ensures d <= -1 ==> d * k <= -k
  {
  }

  lemma SubsetIsSmaller(a: set<nat>, b: set<nat>)
    requires a <= b
    ensures |a| <= |b| && (a != b ==> |a| < |b|)
  {
    if a != b {
      assert b == a + (b - a);
    }
  }
}
