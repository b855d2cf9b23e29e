/** Result types, the error values of internal/files/errors.go that the modelled code returns, decimal numerals,
    and a fact about sequences that the sorting loops share. */
module Common {

  datatype Option<+T> = None | Some(value: T)

  /** `MissingKey` is the folder-without-key error, `Integrity` a token that does not authenticate, `Storage` a
      failed storage call. */
  datatype Error =
    | NotFound | Exists | ParentMissing | NotDir | InvalidPath | Forbidden
    | NameBudget | MissingKey | Integrity | Invalid | Conflict | Storage

  datatype Result<+T> = Ok(value: T) | Err(error: Error) {
    predicate IsFailure() { Err? }

    function PropagateFailure<U>(): Result<U>
      requires Err?
    {
      Err(error)
    }

    function Extract(): T
      requires Ok?
    {
      value
    }
  }

  predicate IsDigit(x: char) {
    '0' <= x <= '9'
  }

  /** strconv.Itoa for a non-negative number. */
  function Itoa(n: nat): (s: string)
    ensures |s| > 0
  {
    if n < 10 then [Digit(n)] else Itoa(n / 10) + [Digit(n % 10)]
  }

  function Digit(d: nat): char
    requires d < 10
  {
    "0123456789"[d]
  }

  lemma InsertedAt<T>(s: seq<T>, x: T, k: nat)
    requires k <= |s|
    ensures multiset(s[..k] + [x] + s[k..]) == multiset(s) + multiset{x}
  {
    assert s == s[..k] + s[k..];
  }
}
