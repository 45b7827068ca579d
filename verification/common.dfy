/**
 * Shared vocabulary of the clinic model: record ids, optional values,
 * the answers a controller action can give, and what browser storage
 * hands back when the client reads a saved JSON value.
 */
module Common {

  /** Primary keys of every table are auto-increment integers. */
  type Id = nat

  /** Seconds on the server clock; `now()` and `created_at` values. */
  type Timestamp = int

  datatype Option<+T> = None | Some(value: T)

  /**
   * The HTTP answer of a controller action. `Ok` is status 200 and `Created`
   * is 201, both with a JSON body; the other constructors are the error
   * statuses the controllers send. `Unfinished` stands for a request that
   * never answers because the appointment-key loop is still drawing keys.
   */
  datatype Response<+T> =
    | Ok(body: T)
    | Created(body: T)
    | BadRequest400
    | Forbidden403
    | NotFound404
    | Unprocessable422
    | ServerError500
    | Unfinished

  /**
   * A string that may be null is present and non-empty: JavaScript
   * truthiness, and Laravel's `$request->filled(...)` on request values as
   * they stand after the framework's input trimming (which turns a blank
   * value into null).
   */
  predicate Filled(s: Option<string>)
  {
    s.Some? && s.value != ""
  }

  /**
   * The width of a plain `string` column, `varchar(255)` on PostgreSQL: an
   * insert or update with longer text fails with a database error.
   */
  const StringColumnLength := 255

  /** A nullable value fits a `string` column: null, or at most 255 characters. */
  predicate FitsStringColumn(s: Option<string>)
  {
    s.None? || |s.value| <= StringColumnLength
  }

  /**
   * A value read back from `localStorage`: text that `JSON.parse` turns into
   * a value of type T (what `JSON.stringify` of a T wrote), or text it rejects.
   */
  datatype Stored<T> = Json(value: T) | Unparsable(text: string)

  /** A call that either returns a value or throws (JSON.parse on bad text). */
  datatype Outcome<+T> = Returns(value: T) | Throws
}
