/** Vocabulary shared by every part of the model: optional values, results,
    the ways a request or a write is refused, and calendar days. */
module Common {

  datatype Option<T> = None | Some(value: T) {
    /** The value, or `default` when there is none (Python's `x or default`, `dict.get(k, default)`). */
    function GetOr(default: T): T {
      match this
      case Some(v) => v
      case None => default
    }
  }

  /** A write or a request either succeeds with the id of the row it touched, or is refused. */
  datatype Result<T> = Ok(value: T) | Err(error: Error)

  datatype Error =
    | NotFound          // a lookup scoped to the requester found nothing (HTTP 404)
    | BadRequest        // the request data did not validate (HTTP 400)
    | Integrity         // a unique or foreign-key constraint would be broken
    | Protected         // a PROTECT foreign key refuses the delete
    | EmailRequired     // create_user without an email
    | NotStaff          // create_superuser with is_staff not True
    | NotSuperuser      // create_superuser with is_superuser not True

  /** A calendar date, as a day number; the current day is always passed in. */
  type Date = int

  function Max(a: int, b: int): (m: int)
    ensures m >= a && m >= b
    ensures m == a || m == b
  {
    if a >= b then a else b
  }

  /** Every id in `ids` is below the table's next id, so the next id is fresh. */
  predicate KeysBelow(ids: set<nat>, next: nat) {
    forall k :: k in ids ==> k < next
  }

  /** Deleting rows keeps the next id fresh. */
  lemma KeysBelowShrink(ids: set<nat>, fewer: set<nat>, next: nat)
    requires KeysBelow(ids, next) && fewer <= ids
    ensures KeysBelow(fewer, next)
  {
  }

  /** A set of at most one element that holds `k` is `{k}`: how a lookup that
      may match several rows is known to have matched exactly one. */
  lemma SingletonOfAtMostOne(s: set<nat>, k: nat)
    requires k in s && |s| <= 1
    ensures s == {k}
  {
    assert |s - {k}| == |s| - 1;
    assert s - {k} == {};
  }
}
