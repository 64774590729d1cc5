/** Machine integers, the error codes of the on-chain programs, and the checked
    arithmetic they use.  Dafny integers are unbounded, so every width the Rust
    code relies on is a subset type here and every `checked_*` call is spelled out. */
module Numbers {

  const U16_MAX: int := 0xFFFF
  const U64_MAX: int := 0xFFFF_FFFF_FFFF_FFFF
  const U128_MAX: int := 0xFFFF_FFFF_FFFF_FFFF_FFFF_FFFF_FFFF_FFFF
  const I64_MIN: int := -0x8000_0000_0000_0000
  const I64_MAX: int := 0x7FFF_FFFF_FFFF_FFFF

  type byte = x: int | 0 <= x < 256
  type u16 = x: int | 0 <= x <= U16_MAX
  type u64 = x: int | 0 <= x <= U64_MAX
  type u128 = x: int | 0 <= x <= U128_MAX
  type i64 = x: int | I64_MIN <= x <= I64_MAX

  type Bytes = seq<byte>
  type Pubkey = Bytes

  datatype Option<+T> = None | Some(value: T)

  /** The program's own error codes, followed by the ones raised around it: by
      Anchor's account checks, by the token program, and by Rust's overflow checks
      (the release profile keeps them on). */
  datatype Error =
    | InsufficientIdleLiquidity
    | ReceivableExpired
    | ReceivableStale
    | AdvanceExceedsCap
    | AdvanceExceedsCredit
    | Ed25519Missing
    | Ed25519SignerUnknown
    | Ed25519MessageMismatch
    | MemoNonceMismatch
    | InvalidPayer
    | NotSettleable
    | NotLiquidatable
    | MathOverflow
    | GovernanceRequired
    | PendingParamsNotReady
    | NoPendingParams
    | WaterfallSumMismatch
    | InvalidFeeCurve
    | InvalidChainId
    | AgentWindowCapExceeded
    | InvalidKind
    | AccountNotInitialized
    | AccountInUse
    | TokenInsufficientFunds
    | TokenOverflow
    | ArithmeticPanic

  datatype Result<+T> = Ok(value: T) | Err(error: Error) {
    predicate IsFailure() { Err? }
    function PropagateFailure<U>(): Result<U>
      requires Err?
    {
      Err(error)
    }
    function Extract(): T
      requires Ok?
    {
      value
    }
  }

  /** Rust's `require!`. */
  datatype Outcome = Pass | Fail(error: Error) {
    predicate IsFailure() { Fail? }
    function PropagateFailure<U>(): Result<U>
      requires Fail?
    {
      Err(error)
    }
  }

  function Require(condition: bool, error: Error): Outcome {
    if condition then Pass else Fail(error)
  }

  function ToU64(x: int, error: Error): Result<u64> {
    if 0 <= x <= U64_MAX then Ok(x) else Err(error)
  }

  function ToU128(x: int): Result<u128> {
    if 0 <= x <= U128_MAX then Ok(x) else Err(MathOverflow)
  }

  function ToI64(x: int, error: Error): Result<i64> {
    if I64_MIN <= x <= I64_MAX then Ok(x) else Err(error)
  }

  function Min(a: int, b: int): int { if a <= b then a else b }

  function Max(a: int, b: int): int { if a <= b then b else a }

  /** `i64::saturating_sub`. */
  function SaturatingSubI64(a: i64, b: i64): i64 {
    if a - b > I64_MAX then I64_MAX else if a - b < I64_MIN then I64_MIN else a - b
  }

  // ---- Multiplication and floor division, one fact at a time ----

  lemma MulMono(a: int, b: int, c: int)
    requires a <= b && 0 <= c
    ensures a * c <= b * c
  {
  }

  lemma MulCancel(a: int, b: int, c: int)
    requires 0 < c && a * c <= b * c
    ensures a <= b
  {
    if b < a {
      MulMono(b + 1, a, c);
    }
  }

  /** What floor division means, in the form the proofs use. */
  lemma DivFloor(n: int, d: int)
    requires 0 < d
    ensures (n / d) * d <= n < (n / d + 1) * d
  {
    assert (n / d + 1) * d == (n / d) * d + d;
  }

  lemma DivUnique(n: int, d: int, q: int)
    requires 0 < d && q * d <= n < (q + 1) * d
    ensures n / d == q
  {
    DivFloor(n, d);
    if n / d < q {
      MulMono(n / d + 1, q, d);
    } else if q < n / d {
      MulMono(q + 1, n / d, d);
    }
  }

  lemma DivMono(a: int, b: int, d: int)
    requires a <= b && 0 < d
    ensures a / d <= b / d
  {
    DivFloor(a, d);
    DivFloor(b, d);
    if b / d < a / d {
      MulMono(b / d + 1, a / d, d);
    }
  }

  /** A quotient is at most any bound whose product covers the numerator. */
  lemma DivAtMost(n: int, d: int, bound: int)
    requires 0 < d && n <= bound * d
    ensures n / d <= bound
  {
    DivFloor(n, d);
    MulCancelStrict(n / d, bound + 1, d);
  }

  lemma MulCancelStrict(a: int, b: int, c: int)
    requires 0 < c && a * c < b * c
    ensures a < b
  {
    if b <= a {
      MulMono(b, a, c);
    }
  }

  lemma DivNonNegative(n: int, d: int)
    requires 0 <= n && 0 < d
    ensures 0 <= n / d
  {
    DivFloor(n, d);
    if n / d < 0 {
      MulMono(n / d + 1, 0, d);
    }
  }
}
