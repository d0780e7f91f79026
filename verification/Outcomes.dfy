/** Results of contract code: a value, an error the caller can catch, or a panic that reverts the transaction. */
module Outcomes {

  datatype Option<+T> = None | Some(value: T)

  /** `Err` is a returned `StdError`; `Panic` is an arithmetic abort (the contracts are built with overflow checks). */
  datatype Outcome<+T> = Ok(value: T) | Err | Panic {
    predicate IsFailure() { !Ok? }

    function PropagateFailure<U>(): Outcome<U>
      requires IsFailure()
    {
      if Err? then Err else Panic
    }

    function Extract(): T
      requires Ok?
    {
      value
    }
  }

  const MAX_U32: nat := 0xFFFF_FFFF
  const MAX_U64: nat := 0xFFFF_FFFF_FFFF_FFFF

  function CheckedU64(x: nat): Outcome<nat> {
    if x <= MAX_U64 then Ok(x) else Panic
  }

  function CheckedU32(x: nat): Outcome<nat> {
    if x <= MAX_U32 then Ok(x) else Panic
  }

  function Min(a: nat, b: nat): nat {
    if a <= b then a else b
  }

  function Max(a: nat, b: nat): nat {
    if a <= b then b else a
  }
}
