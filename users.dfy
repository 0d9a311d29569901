/**
 * The users table and the decisions of the sign-up and log-in forms. The table is keyed
 * by e-mail, which is unique, so adding a user is an insert that fails on a known
 * e-mail. Password hashing is a parameter.
 */
module Users {
  import opened Wrappers

  datatype UserRow = UserRow(name: string, passwordHash: string)

  class UserStore {
    var rows: map<string, UserRow>

    /** A newly created table, before any sign-up: no rows. */
    constructor ()
      ensures rows == map[]
    {
      rows := map[];
    }

    /** `add_user`: insert a row, or report `False` when the e-mail is already taken. */
    method AddUser(email: string, name: string, passwordHash: string) returns (ok: bool)
      modifies this
      ensures ok <==> email !in old(rows)
      ensures rows == if ok then old(rows)[email := UserRow(name, passwordHash)] else old(rows)
    {
      ok := email !in rows;
      if ok {
        rows := rows[email := UserRow(name, passwordHash)];
      }
    }

    /** `get_user`: the row stored under an e-mail, if any. */
    method GetUser(email: string) returns (r: Option<UserRow>)
      ensures r.Some? <==> email in rows
      ensures r.Some? ==> r.value == rows[email]
    {
      if email in rows {
        r := Some(rows[email]);
      } else {
        r := None;
      }
    }
  }

  /** What a form shows when it does not go through. */
  datatype Notice = Warning(text: string) | Error(text: string)

  const FillInAllFields := "Please fill in all fields"
  const PasswordsDiffer := "Passwords do not match"
  const PasswordTooShort := "Password must be at least 6 characters"
  const EmailTaken := "Email already registered"
  const BadCredentials := "Invalid email or password"
  const MinPasswordLength := 6

  /** The name a new account is stored under: first name, a space, last name. */
  function FullName(first: string, last: string): string {
    first + " " + last
  }

  predicate AllFilled(first: string, last: string, email: string, password: string, confirm: string) {
    first != "" && last != "" && email != "" && password != "" && confirm != ""
  }

  /**
   * The checks the sign-up form makes before touching the table, in their order: a blank
   * field warns, then differing passwords and then a short password are errors.
   */
  function SignupProblem(first: string, last: string, email: string, password: string, confirm: string): (r: Option<Notice>)
    ensures r == Some(Warning(FillInAllFields)) <==> !AllFilled(first, last, email, password, confirm)
    ensures r == Some(Error(PasswordsDiffer)) <==> AllFilled(first, last, email, password, confirm) && password != confirm
    ensures r == Some(Error(PasswordTooShort))
      <==> AllFilled(first, last, email, password, confirm) && password == confirm && |password| < MinPasswordLength
    ensures r.None? <==> AllFilled(first, last, email, password, confirm) && password == confirm && |password| >= MinPasswordLength
  {
    if !AllFilled(first, last, email, password, confirm) then Some(Warning(FillInAllFields))
    else if password != confirm then Some(Error(PasswordsDiffer))
    else if |password| < MinPasswordLength then Some(Error(PasswordTooShort))
    else None
  }

  /**
   * The log-in form: both fields must be filled in, and then the e-mail must be known and
   * its stored hash must be the hash of the password given.
   */
  function LoginProblem(rows: map<string, UserRow>, email: string, password: string, hash: string -> string): (r: Option<Notice>)
    ensures r.None? <==> email != "" && password != "" && email in rows && rows[email].passwordHash == hash(password)
    ensures r == Some(Warning(FillInAllFields)) <==> email == "" || password == ""
  {
    if email == "" || password == "" then Some(Warning(FillInAllFields))
    else if email in rows && rows[email].passwordHash == hash(password) then None
    else Some(Error(BadCredentials))
  }

  /** An account just added can log in with the password it was created with. */
  lemma SignedUpCanLogIn(rows: map<string, UserRow>, first: string, last: string, email: string, password: string,
                         confirm: string, hash: string -> string)
    requires SignupProblem(first, last, email, password, confirm).None?
    ensures LoginProblem(rows[email := UserRow(FullName(first, last), hash(password))], email, password, hash).None?
  {
  }

  /** A password whose hash differs from the stored one is turned away, like an unknown e-mail. */
  lemma WrongPasswordRejected(rows: map<string, UserRow>, email: string, password: string, hash: string -> string)
    requires email != "" && password != ""
    requires email !in rows || rows[email].passwordHash != hash(password)
    ensures LoginProblem(rows, email, password, hash) == Some(Error(BadCredentials))
  {
  }
}
