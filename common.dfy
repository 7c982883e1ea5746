/** Values shared by the store bot's components: an optional value (a SQL NULL,
    a missing row, an omitted argument) and the columns of a `users` row that
    the access and menu rules read. */
module Common {

  datatype Option<T> = None | Some(value: T) {
    /** The value, or `default` when there is none. */
    function GetOr(default: T): T {
      match this
      case Some(v) => v
      case None => default
    }
  }

  /** The part of a `users` row read by the admin rules: the stored handle
      (NULL allowed) and the tester flag. */
  datatype UserRow = UserRow(username: Option<string>, isTester: bool)

  /** `SELECT ... FROM users WHERE user_id = ?` on the users table seen as a map. */
  function LookupUser(users: map<int, UserRow>, id: int): Option<UserRow> {
    if id in users then Some(users[id]) else None
  }

  /** Python truthiness of an optional text column: neither NULL nor empty. */
  predicate NonEmpty(s: Option<string>) {
    s.Some? && s.value != ""
  }
}
