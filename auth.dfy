// server/auth.ts: `changePassword`, the password change of the signed-in user.
module Auth {
  import opened Wrappers
  import opened Seqs
  import opened Schema
  import opened Storage
  import opened Routes

  /** `req.user` as the handler declares it: only the username is read. */
  datatype AuthUser = AuthUser(username: string)

  predicate NoUser(user: Option<AuthUser>) { user.None? || user.value.username == "" }

  /**
   * `changePassword` as written: after the 401 check it calls
   * `storage.validatePassword`, which `DatabaseStorage` does not define; the
   * call throws, and the catch answers 500 before anything is written.
   */
  function ChangePasswordAsWritten(user: Option<AuthUser>): (r: Response)
    ensures NoUser(user) ==> r == Response(401, ErrorBody("No autenticado"))
    ensures !NoUser(user) ==> r.status == 500
  {
    if NoUser(user) then Response(401, ErrorBody("No autenticado"))
    else Response(500, ErrorBody("Error interno del servidor"))
  }

  /** Whatever the passwords, a signed-in user's change never succeeds as written. */
  lemma ChangePasswordAlwaysFails(name: string)
    requires name != ""
    ensures ChangePasswordAsWritten(Some(AuthUser(name))).status == 500
  {
  }

  /**
   * `changePassword` as intended. `currentValid` is what `validatePassword`
   * would answer and `hashed` is the stored form of the new password that
   * `updatePassword` writes. The password is written before the lookup, so a
   * user missing from the table answers 404 with nothing written.
   */
  method ChangePassword(db: DatabaseStorage, user: Option<AuthUser>, currentValid: bool, hashed: string) returns (r: Response)
    requires db.Valid()
    modifies db
    ensures db.Valid()
    ensures NoUser(user) ==> r.status == 401 && db.tables == old(db.tables)
    ensures !NoUser(user) && !currentValid ==> r.status == 400 && db.tables == old(db.tables)
    ensures !NoUser(user) && currentValid && GetUserByUsername(old(db.tables), user.value.username).None? ==>
      r.status == 404 && db.tables == old(db.tables)
    ensures !NoUser(user) && currentValid && GetUserByUsername(old(db.tables), user.value.username).Some? ==>
      var k := FindIndex(old(db.tables.users), UserNamed(user.value.username)).value;
      var updated := old(db.tables.users)[k].(password := hashed, isFirstLogin := false);
      r == Response(200, UserBody(updated)) &&
      GetUserByUsername(db.tables, user.value.username) == Some(updated) &&
      db.tables == old(db.tables).(users := old(db.tables.users)[k := updated])
  {
    if NoUser(user) {
      return Response(401, ErrorBody("No autenticado"));
    }
    if !currentValid {
      return Response(400, ErrorBody("Contraseña actual incorrecta"));
    }
    var name := user.value.username;
    var found := FindIndex(db.tables.users, UserNamed(name));
    if found.None? {
      return Response(404, ErrorBody("Usuario no encontrado"));
    }
    var k := found.value;
    var id := db.tables.users[k].id;
    ghost var before := db.tables.users;
    // updatePassword
    FindOwnKey(db.tables.users, UserId, k);
    OwnKeyNotElsewhere(db.tables.users, UserName, k);
    var u1 := db.UpdateUser(id, UserPatch(None, Some(hashed), None, None));
    // getUserByUsername, then updateUser(userDb.id, { isFirstLogin: false })
    assert db.tables.users == before[k := before[k].(password := hashed)];
    UpdateFoundReadsBack(before, UserNamed(name), before[k].(password := hashed));
    FindOwnKey(db.tables.users, UserId, k);
    OwnKeyNotElsewhere(db.tables.users, UserName, k);
    var mid := db.tables.users;
    var u2 := db.UpdateUser(id, UserPatch(None, None, Some(false), None));
    ghost var updated := before[k].(password := hashed, isFirstLogin := false);
    assert db.tables.users == mid[k := updated];
    assert mid[k := updated] == before[k := updated];
    UpdateFoundReadsBack(before, UserNamed(name), updated);
    r := Response(200, UserBody(u2.value));
  }
}
