/**
 * The hosted backend as the components see it: who is signed in, and tables of rows
 * whose writes the backend may refuse with an error code. What the backend answers is
 * an input of every handler; it is never computed here, except for the unique
 * constraint of the reviews table (module ReviewStore).
 */
module Backend {
  import opened Wrappers

  /** `supabase.auth.getUser()`: nobody, or a user with an id and maybe an e-mail. */
  datatype Session = Anonymous | SignedIn(id: string, email: Option<string>)

  /** The `error` half of a backend response: none, or an error with its code. */
  datatype Reply = Ok | Err(code: string)

  /** PostgreSQL's unique_violation. */
  const UniqueViolation: string := "23505"

  /** PostgREST's "no rows returned" for `.single()`. */
  const NoRowsReturned: string := "PGRST116"

  /** One table of the store, its rows kept in insertion order. */
  class Table<R> {
    var rows: seq<R>

    constructor (initial: seq<R>)
      ensures rows == initial
    {
      rows := initial;
    }

    /** `from(table).insert(r)`: the row is stored exactly when the backend answers Ok. */
    method Insert(r: R, answer: Reply)
      modifies this
      ensures rows == if answer.Ok? then old(rows) + [r] else old(rows)
    {
      if answer.Ok? {
        rows := rows + [r];
      }
    }
  }
}
