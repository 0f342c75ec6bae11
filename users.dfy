/**
 * The user store of the credentials configuration and the master's handlers
 * that change it (invoice_generator.py:616-703): assigning a location,
 * resetting a password and creating a user.
 *
 * Password hashing (`stauth.Hasher`) and checking (`bcrypt.checkpw`) are given
 * to the handlers as functions; what they compute is not modelled.
 */
module Users {
  import opened Common
  import Text

  /** One entry of `config["credentials"]["usernames"]`; `location` is absent until assigned. */
  datatype UserRecord = UserRecord(name: string, password: string, role: string, location: Option<string>)

  /** The shortest password either form accepts. */
  const MinPasswordLength: nat := 6

  /** `usernames.get(user, {}).get("location", "")`: the location rows are tagged with. */
  function LocationOf(users: map<string, UserRecord>, user: string): (loc: string)
    ensures user in users && users[user].location.Some? ==> loc == users[user].location.value
    ensures user !in users || users[user].location.None? ==> loc == ""
  {
    if user in users && users[user].location.Some? then users[user].location.value else ""
  }

  datatype CreateError = EmptyField | UsernameTaken | PasswordTooShort

  /** The create-user form's checks, in the order the handler makes them; None lets the user in. */
  function CreateCheck(users: map<string, UserRecord>, username: string, password: string): (r: Option<CreateError>)
    ensures r == Some(EmptyField) <==> username == [] || password == []
    ensures r == Some(UsernameTaken) <==> username != [] && password != [] && username in users
    ensures r == Some(PasswordTooShort) <==>
              username != [] && password != [] && username !in users && |password| < MinPasswordLength
    ensures r.None? <==> username != [] && username !in users && |password| >= MinPasswordLength
  {
    if username == [] || password == [] then Some(EmptyField)
    else if username in users then Some(UsernameTaken)
    else if |password| < MinPasswordLength then Some(PasswordTooShort)
    else None
  }

  datatype ResetError = MissingField | Mismatch | TooShort | WrongCurrentPassword

  /**
   * The reset-password form's checks, in the order the handler makes them. Only a
   * master account must also prove its current password against the stored hash.
   */
  function ResetCheck(
    role: string, storedHash: string, currentInput: string, newPass: string, confirm: string,
    checkpw: (string, string) -> bool): (r: Option<ResetError>)
    ensures r == Some(MissingField) <==> newPass == [] || confirm == []
    ensures r == Some(Mismatch) <==> newPass != [] && confirm != [] && newPass != confirm
    ensures r == Some(TooShort) <==>
              newPass != [] && newPass == confirm && |newPass| < MinPasswordLength
    ensures r == Some(WrongCurrentPassword) <==>
              newPass != [] && newPass == confirm && |newPass| >= MinPasswordLength
              && role == "master" && !checkpw(currentInput, storedHash)
    ensures r.None? ==> newPass == confirm && |newPass| >= MinPasswordLength
    ensures role != "master" && newPass == confirm && |newPass| >= MinPasswordLength ==> r.None?
  {
    if newPass == [] || confirm == [] then Some(MissingField)
    else if newPass != confirm then Some(Mismatch)
    else if |newPass| < MinPasswordLength then Some(TooShort)
    else if role == "master" && !checkpw(currentInput, storedHash) then Some(WrongCurrentPassword)
    else None
  }

  /** Adding a name that is not yet taken adds exactly that key and keeps every other entry. */
  lemma InsertFresh(users: map<string, UserRecord>, username: string, rec: UserRecord)
    requires username !in users
    ensures users[username := rec].Keys == users.Keys + {username}
    ensures |users[username := rec]| == |users| + 1
    ensures forall u :: u in users ==> users[username := rec][u] == users[u]
  {
  }

  /** The credential store that the master's handlers update in place. */
  class UserStore {
    var users: map<string, UserRecord>

    constructor(initial: map<string, UserRecord>)
      ensures users == initial
    {
      users := initial;
    }

    /** "Save Location": the selected user's location is replaced; nobody else changes. */
    method AssignLocation(user: string, location: string)
      requires user in users
      modifies this
      ensures users.Keys == old(users).Keys
      ensures users[user] == old(users)[user].(location := Some(location))
      ensures forall u :: u in old(users) && u != user ==> users[u] == old(users)[u]
    {
      users := users[user := users[user].(location := Some(location))];
    }

    /** "Update Password": on success only the selected user's password hash changes. */
    method ResetPassword(
      user: string, currentInput: string, newPass: string, confirm: string,
      hash: string -> string, checkpw: (string, string) -> bool) returns (r: Option<ResetError>)
      requires user in users
      modifies this
      ensures r == ResetCheck(old(users)[user].role, old(users)[user].password, currentInput, newPass, confirm, checkpw)
      ensures r.Some? ==> users == old(users)
      ensures r.None? ==> users.Keys == old(users).Keys
      ensures r.None? ==> users[user] == old(users)[user].(password := hash(newPass))
      ensures r.None? ==> forall u :: u in old(users) && u != user ==> users[u] == old(users)[u]
    {
      var rec := users[user];
      if newPass == [] || confirm == [] {
        r := Some(MissingField);
      } else if newPass != confirm {
        r := Some(Mismatch);
      } else if |newPass| < MinPasswordLength {
        r := Some(TooShort);
      } else if rec.role == "master" {
        if !checkpw(currentInput, rec.password) {
          r := Some(WrongCurrentPassword);
        } else {
          users := users[user := rec.(password := hash(newPass))];
          r := None;
        }
      } else {
        users := users[user := rec.(password := hash(newPass))];
        r := None;
      }
    }

    /**
     * "Create User": the username and full name are stripped, the checks run in
     * order, and on success exactly one entry is added, without a location.
     */
    method CreateUser(
      rawUsername: string, rawName: string, password: string, role: string,
      hash: string -> string) returns (r: Option<CreateError>)
      requires role == "admin" || role == "user"
      modifies this
      ensures r == CreateCheck(old(users), Text.Strip(rawUsername), password)
      ensures r.Some? ==> users == old(users)
      ensures r.None? ==> users.Keys == old(users).Keys + {Text.Strip(rawUsername)}
      ensures r.None? ==> |users| == |old(users)| + 1
      ensures r.None? ==>
                users[Text.Strip(rawUsername)] == UserRecord(Text.Strip(rawName), hash(password), role, None)
      ensures r.None? ==> forall u :: u in old(users) ==> users[u] == old(users)[u]
    {
      var username := Text.Strip(rawUsername);
      var name := Text.Strip(rawName);
      if username == [] || password == [] {
        r := Some(EmptyField);
      } else if username in users {
        r := Some(UsernameTaken);
      } else if |password| < MinPasswordLength {
        r := Some(PasswordTooShort);
      } else {
        var rec := UserRecord(name, hash(password), role, None);
        InsertFresh(users, username, rec);
        users := users[username := rec];
        r := None;
      }
    }
  }
}
