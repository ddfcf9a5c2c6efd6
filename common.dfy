/** Shared vocabulary of the chat model: optional values, results, the exceptions the
    services throw, and the document ids the stores issue. */
module Common {

  datatype Option<+T> = None | Some(value: T)

  /** A call that either returns a value or throws. */
  datatype Result<+T> = Ok(value: T) | Err(error: Error)

  /** A call with no return value (Java `void`) that either completes or throws. */
  datatype Outcome = Done | Thrown(error: Error)

  /** The exceptions that reach the callers of the core. */
  datatype Error =
    | IllegalArgument(message: string)
      // Spring Data's single-result query matched more than one document; the
      // exception carries the expected size only
    | IncorrectResultSize(expected: nat)

  const ChatRoomNotFound: string := "Chat room not found"
  const UserNotInDatabase: string := "User does not exist in database"
  const NicknameIsNull: string := "User nickname cannot be null"

  /** Wall-clock capture; the core never does arithmetic on it. */
  datatype LocalDateTime = LocalDateTime(instant: int)

  predicate IsDigit(c: char) { '0' <= c <= '9' }

  function DigitChar(d: nat): (c: char)
    requires d < 10
    ensures IsDigit(c) && c as int - '0' as int == d
  {
    (d + '0' as int) as char
  }

  /** The n-th document id a store issues, written in decimal. Ids are opaque to the
      core; the model only relies on their being distinct and made of digits. */
  function ObjectId(n: nat): (id: string)
    ensures |id| >= 1
    ensures forall i :: 0 <= i < |id| ==> IsDigit(id[i])
    ensures n >= 10 ==> |id| >= 2
  {
    if n < 10 then [DigitChar(n)] else ObjectId(n / 10) + [DigitChar(n % 10)]
  }

  /** Distinct counters give distinct ids. */
  lemma {:induction false} ObjectIdInjective(a: nat, b: nat)
    requires ObjectId(a) == ObjectId(b)
    ensures a == b
  {
    if a < 10 && b < 10 {
      assert ObjectId(a)[0] == DigitChar(a);
    } else if a >= 10 && b >= 10 {
      var ia, ib := ObjectId(a), ObjectId(b);
      assert ia[|ia| - 1] == DigitChar(a % 10) && ib[|ib| - 1] == DigitChar(b % 10);
      assert ia[..|ia| - 1] == ObjectId(a / 10);
      assert ib[..|ib| - 1] == ObjectId(b / 10);
      ObjectIdInjective(a / 10, b / 10);
    }
  }

  /** A document id differs from any string `s` that has a non-digit at index `k`. */
  lemma ObjectIdAvoids(n: nat, s: string, k: nat)
    requires k < |s| && !IsDigit(s[k])
    ensures ObjectId(n) != s
  {
  }

  /** The ids the counter gives for `0 <= n < hi`. */
  ghost function Issued(hi: nat): set<string> {
    set n | 0 <= n < hi :: ObjectId(n)
  }

  /** The counter gives `hi` distinct ids below `hi`. */
  lemma {:induction false} IssuedSize(hi: nat)
    ensures |Issued(hi)| == hi
  {
    if hi == 0 {
      assert Issued(0) == {};
    } else {
      IssuedSize(hi - 1);
      assert Issued(hi) == Issued(hi - 1) + {ObjectId(hi - 1)};
      forall n | 0 <= n < hi - 1
        ensures ObjectId(n) != ObjectId(hi - 1)
      {
        if ObjectId(n) == ObjectId(hi - 1) {
          ObjectIdInjective(n, hi - 1);
        }
      }
    }
  }

  /** The least counter value from `n` on whose id is not among `keys`: the id a store
      issues to a new document is never one it already holds. */
  function LeastFree(keys: set<string>, n: nat): (m: nat)
    requires Issued(n) <= keys
    ensures m >= n && ObjectId(m) !in keys
    ensures Issued(m) <= keys
    decreases |keys| - n
  {
    IssuedSize(n);
    assert Issued(n + 1) == Issued(n) + {ObjectId(n)};
    if ObjectId(n) !in keys then n
    else
      IssuedSize(n + 1);
      var rest := keys - Issued(n + 1);
      assert keys == Issued(n + 1) + rest && Issued(n + 1) * rest == {};
      LeastFree(keys, n + 1)
  }

  /** The id a store issues to a new document when it holds the ids `keys`. */
  function FreshId(keys: set<string>): (id: string)
    ensures id !in keys
    ensures forall c :: c in id ==> IsDigit(c)
  {
    ObjectId(LeastFree(keys, 0))
  }
}
