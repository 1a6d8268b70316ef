/** Shared result shapes: an optional value (JavaScript's null/undefined) and
    an HTTP response carrying either a JSON body or an error message. */
module Common {

  /** A value that may be absent: `None` stands for JavaScript's null/undefined. */
  datatype Option<+T> = None | Some(value: T) {

    /** The value, or `default` when absent (the `x ?? d` of the source). */
    function GetOr(default: T): T {
      match this
      case Some(v) => v
      case None => default
    }
  }

  /** An HTTP reply: a status code with a JSON body, or a status code with the
      `{ error: message }` body the handlers send on failure. */
  datatype Response<+T> = Reply(status: nat, body: T) | Error(status: nat, message: string) {

    predicate IsOk() {
      Reply? && 200 <= status < 300
    }
  }

  /** The first row whose key is `id` (`Array.prototype.find`, Prisma's
      `findUnique` on a primary key): absent exactly when no row has that key. */
  function FindBy<T>(rows: seq<T>, key: T -> int, id: int): (r: Option<T>)
    ensures r.Some? ==> r.value in rows && key(r.value) == id
    ensures r.None? ==> forall i :: 0 <= i < |rows| ==> key(rows[i]) != id
    decreases |rows|
  {
    if |rows| == 0 then None
    else if key(rows[0]) == id then Some(rows[0])
    else FindBy(rows[1..], key, id)
  }

  /** With distinct keys, looking up a row's key finds that very row. */
  lemma {:induction false} FindByAt<T>(rows: seq<T>, key: T -> int, k: int)
    requires 0 <= k < |rows|
    requires forall i, j :: 0 <= i < j < |rows| ==> key(rows[i]) != key(rows[j])
    ensures FindBy(rows, key, key(rows[k])) == Some(rows[k])
    decreases |rows|
  {
    if k > 0 {
      FindByAt(rows[1..], key, k - 1);
    }
  }
}
