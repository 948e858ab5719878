// api/login.ts, api/change-password.ts and api/users.ts: the serverless
// handlers. None of them checks a session; each dispatches on the HTTP method.
module ApiHandlers {
  import opened Wrappers
  import opened Seqs
  import opened Schema
  import opened Storage
  import opened Routes

  /**
   * `api/login.ts`: only POST is allowed; an unknown username and a stored
   * password that is not the submitted text both answer 401; otherwise the
   * whole row, password included, goes back.
   */
  function Login(d: Db, verb: string, username: string, password: string): (r: Response)
    ensures verb != "POST" ==> r.status == 405
    ensures verb == "POST" ==>
      (r.status == 200 <==> GetUserByUsername(d, username).Some? && GetUserByUsername(d, username).value.password == password)
    ensures verb == "POST" && r.status != 200 ==> r.status == 401
    ensures r.status == 200 ==> r.body == UserBody(GetUserByUsername(d, username).value)
  {
    if verb != "POST" then Response(405, NoContent)
    else
      match GetUserByUsername(d, username)
      case None => Response(401, Message("Usuario no encontrado"))
      case Some(u) =>
        if u.password != password then Response(401, Message("Contraseña incorrecta"))
        else Response(200, UserBody(u))
  }

  /**
   * With unique usernames, a login succeeds exactly when some row has the
   * username and stores exactly the submitted text as its password.
   */
  lemma LoginSpec(d: Db, username: string, password: string)
    requires UsersOk(d.users)
    ensures Login(d, "POST", username, password).status == 200 <==>
      exists u :: u in d.users && u.username == username && u.password == password
  {
    if exists u :: u in d.users && u.username == username && u.password == password {
      var u :| u in d.users && u.username == username && u.password == password;
      UsernameNamesOneUser(d.users, u);
      FindSame(d.users, (v: User) => v.username == u.username, UserNamed(username));
    }
  }

  /** The settings key `api/change-password.ts` writes. */
  function PasswordSettingKey(username: string): string {
    "user:" + username + ":password"
  }

  /**
   * `api/change-password.ts`: only PUT is allowed; an unknown user answers
   * 404 and a wrong old password 401. The new password is stored as a
   * setting; the users table is never written.
   */
  method ChangePassword(db: DatabaseStorage, verb: string, username: string, oldPassword: string, newPassword: string) returns (r: Response)
    requires db.Valid()
    modifies db
    ensures db.Valid()
    ensures db.tables.users == old(db.tables.users)
    ensures verb != "PUT" ==> r.status == 405 && db.tables == old(db.tables)
    ensures verb == "PUT" && GetUserByUsername(old(db.tables), username).None? ==> r.status == 404 && db.tables == old(db.tables)
    ensures verb == "PUT" && GetUserByUsername(old(db.tables), username).Some? ==>
      (GetUserByUsername(old(db.tables), username).value.password != oldPassword ==> r.status == 401 && db.tables == old(db.tables))
    ensures verb == "PUT" && GetUserByUsername(old(db.tables), username).Some? ==>
      GetUserByUsername(old(db.tables), username).value.password == oldPassword ==>
      r.status == 200 && db.tables == WithSetting(old(db.tables), PasswordSettingKey(username), newPassword) &&
      GetSetting(db.tables, PasswordSettingKey(username)) == Some(newPassword)
  {
    if verb != "PUT" {
      return Response(405, NoContent);
    }
    var user := GetUserByUsername(db.tables, username);
    if user.None? {
      return Response(404, Message("User not found"));
    }
    if user.value.password != oldPassword {
      return Response(401, Message("Old password is incorrect"));
    }
    UpsertSettingSpec(db.tables.settings, PasswordSettingKey(username), newPassword, db.tables.nextId, "");
    var s := db.UpdateSetting(PasswordSettingKey(username), newPassword);
    r := Response(200, Message("Password updated successfully"));
  }

  /**
   * The settings write is invisible to `api/login.ts`: after a successful
   * change, logging in with any password answers as it did before, so the
   * old password still works and the new one does not.
   */
  lemma LoginIgnoresPasswordChange(d: Db, username: string, newPassword: string, password: string)
    ensures Login(WithSetting(d, PasswordSettingKey(username), newPassword), "POST", username, password) ==
      Login(d, "POST", username, password)
  {
  }

  /**
   * `api/users.ts`: GET lists the users without passwords; POST inserts the
   * body as it comes (no schema), answering 400 when the insert throws:
   * `body` is `None` for a body the database refuses, such as one without a
   * username or password, and a taken username is refused too;
   * DELETE passes the body's `username` to `deleteUser`, which compares it
   * with the integer id column. `asId` is that comparison's cast: `None`
   * when the database rejects the text (500). No user, not even "admin", is
   * protected, and no session is checked.
   */
  method Users(db: DatabaseStorage, verb: string, body: Option<InsertUser>, username: string, asId: string -> Option<int>) returns (r: Response)
    requires db.Valid()
    modifies db
    ensures db.Valid()
    ensures verb == "GET" ==> r == Response(200, PublicUsersBody(Map(old(db.tables.users), StripPassword))) && db.tables == old(db.tables)
    ensures verb == "POST" && body.None? ==> r.status == 400 && db.tables == old(db.tables)
    ensures verb == "POST" && body.Some? && KeyTaken(old(db.tables.users), UserName, body.value.username) ==>
      r.status == 400 && db.tables == old(db.tables)
    ensures verb == "POST" && body.Some? && !KeyTaken(old(db.tables.users), UserName, body.value.username) ==>
      r == Response(201, PublicUserBody(StripPassword(NewUser(old(db.tables.nextId), body.value)))) &&
      db.tables == old(db.tables).(users := old(db.tables.users) + [NewUser(old(db.tables.nextId), body.value)], nextId := old(db.tables.nextId) + 1)
    ensures verb == "DELETE" && asId(username).None? ==> r.status == 500 && db.tables == old(db.tables)
    ensures verb == "DELETE" && asId(username).Some? ==>
      r == Response(204, NoContent) &&
      db.tables == old(db.tables).(users := Filter(old(db.tables.users), WithoutKey(UserId, asId(username).value)))
    ensures verb != "GET" && verb != "POST" && verb != "DELETE" ==> r.status == 405 && db.tables == old(db.tables)
  {
    if verb == "GET" {
      return Response(200, PublicUsersBody(Map(db.tables.users, StripPassword)));
    }
    if verb == "POST" {
      if body.None? {
        return Response(400, Message("Error creating user"));
      }
      var created := db.CreateUser(body.value);
      if created.Ok? {
        r := Response(201, PublicUserBody(StripPassword(created.value)));
      } else {
        r := Response(400, Message("Error creating user"));
      }
      return;
    }
    if verb == "DELETE" {
      var id := asId(username);
      if id.None? {
        return Response(500, Message("Error deleting user"));
      }
      db.DeleteUser(id.value);
      return Response(204, NoContent);
    }
    r := Response(405, NoContent);
  }

  /** Unlike `DELETE /api/users/:id`, this handler removes the "admin" user when given its id. */
  lemma AdminDeletable(users: seq<User>, admin: User)
    requires admin in users && admin.username == "admin"
    ensures admin !in Filter(users, WithoutKey(UserId, admin.id))
  {
    assert !WithoutKey(UserId, admin.id)(admin);
  }
}
