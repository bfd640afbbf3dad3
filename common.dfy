/**
 * Shared vocabulary: optional values, results, and the record identifiers the
 * store hands out.
 */
module Common {

  datatype Option<+T> = None | Some(value: T)

  /** The outcome of an action: a value, or the error it throws or returns. */
  datatype Result<+T, +E> = Ok(value: T) | Err(error: E)

  /** Record identifiers are strings, as in the database. */
  type Id = string

  function DigitChar(d: nat): (c: char)
    requires d < 10
    ensures '0' <= c <= '9' && c as int - '0' as int == d
  {
    ('0' as int + d) as char
  }

  /** The decimal spelling of a natural number, most significant digit first. */
  function Decimal(n: nat): (s: string)
    ensures |s| >= 1
    decreases n
  {
    if n < 10 then [DigitChar(n)] else Decimal(n / 10) + [DigitChar(n % 10)]
  }

  /** Reads a string of decimal digits back as a number. */
  function DecimalValue(s: string): int
  {
    if s == [] then 0
    else DecimalValue(s[..|s| - 1]) * 10 + (s[|s| - 1] as int - '0' as int)
  }

  lemma {:induction false} DecimalRoundTrip(n: nat)
    ensures DecimalValue(Decimal(n)) == n
    decreases n
  {
    if n >= 10 {
      var s := Decimal(n);
      assert s[..|s| - 1] == Decimal(n / 10);
      DecimalRoundTrip(n / 10);
    }
  }

  /**
   * The identifier the store issues for its n-th record. The database's own
   * generator is replaced by this counter-based one: what matters to the
   * model is only that an issued identifier has never been used before.
   */
  function IdString(n: nat): (id: Id)
    ensures |id| >= 2 && id[0] == 'c'
  {
    "c" + Decimal(n)
  }

  lemma IdStringInjective(a: nat, b: nat)
    ensures IdString(a) == IdString(b) ==> a == b
  {
    if IdString(a) == IdString(b) {
      assert Decimal(a) == IdString(a)[1..];
      assert Decimal(b) == IdString(b)[1..];
      DecimalRoundTrip(a);
      DecimalRoundTrip(b);
    }
  }

  /** No identifier the store will still issue (counter at or above next) equals id. */
  ghost predicate Issued(id: Id, next: nat)
  {
    forall k: nat :: next <= k ==> id != IdString(k)
  }

  /** The identifier issued now is fresh for the advanced counter. */
  lemma IssuedFresh(n: nat)
    ensures Issued(IdString(n), n + 1)
  {
    forall k: nat | n + 1 <= k
      ensures IdString(n) != IdString(k)
    {
      IdStringInjective(n, k);
    }
  }
}
