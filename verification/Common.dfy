/** Shared vocabulary: identifiers, optional values, and results. */
module Common {
  /** `accounts.id`. Usernames are UNIQUE, so an account also stands for its username. */
  type AccountId = int

  /** ULID of a room. */
  type RoomId = int

  /** SHA-256 of a canonical invite token, the primary key of `invites`. */
  type Token = int

  /**
   * ULID of a message, and equally any watermark a client sends. Postgres compares these as
   * strings under a total order; the finitely many strings of one run embed into `int` in that
   * order, so nothing about the order is lost, including watermarks that match no message.
   */
  type MessageId = int

  /** A point on a clock. */
  type Time = int

  datatype Option<+T> = None | Some(value: T)

  datatype Result<+T, +E> = Ok(value: T) | Err(error: E)

  /** True iff no element occurs at two positions. */
  ghost predicate NoDuplicates<T(!new)>(s: seq<T>) {
    forall i, j :: 0 <= i < j < |s| ==> s[i] != s[j]
  }

  /** `retain(|y| y != x)`. */
  function Without<T(==)>(s: seq<T>, x: T): seq<T> {
    if s == [] then []
    else
      var last := s[|s| - 1];
      Without(s[..|s| - 1], x) + (if last == x then [] else [last])
  }

  lemma {:induction false} WithoutFacts<T(!new)>(s: seq<T>, x: T)
    ensures forall y :: y in Without(s, x) <==> y in s && y != x
    ensures NoDuplicates(s) ==> NoDuplicates(Without(s, x))
  {
    if s == [] {
    } else {
      var front, last := s[..|s| - 1], s[|s| - 1];
      WithoutFacts(front, x);
      assert s == front + [last];
      if NoDuplicates(s) {
        assert last !in front;
        assert last !in Without(front, x);
      }
    }
  }
}
