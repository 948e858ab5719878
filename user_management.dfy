// client/src/components/admin/user-management.tsx: the new-user form, the
// reset and delete guards, and the dialog state around them.
module UserManagement {
  import opened Wrappers
  import opened Seqs
  import opened Schema

  datatype UserFormValues = UserFormValues(username: string, password: string, confirmPassword: string)

  datatype UserField = UsernameField | PasswordField | ConfirmPasswordField

  /**
   * The fields `userFormSchema` reports: a username under 3 characters, a
   * password under 6, and, on `confirmPassword`, a confirmation that differs.
   */
  function UserFormErrors(v: UserFormValues): set<UserField> {
    (if |v.username| < 3 then {UsernameField} else {}) +
    (if |v.password| < 6 then {PasswordField} else {}) +
    (if v.password != v.confirmPassword then {ConfirmPasswordField} else {})
  }

  predicate UserFormValid(v: UserFormValues) { UserFormErrors(v) == {} }

  /** The form passes exactly with a 3-character username, a 6-character password and a matching confirmation. */
  lemma UserFormValidIff(v: UserFormValues)
    ensures UserFormValid(v) <==> |v.username| >= 3 && |v.password| >= 6 && v.password == v.confirmPassword
    ensures v.password != v.confirmPassword ==> ConfirmPasswordField in UserFormErrors(v)
    ensures v.password != v.confirmPassword && |v.password| >= 6 ==> PasswordField !in UserFormErrors(v)
  {
    if |v.username| < 3 { assert UsernameField in UserFormErrors(v); }
    if |v.password| < 6 { assert PasswordField in UserFormErrors(v); }
    if v.password != v.confirmPassword { assert ConfirmPasswordField in UserFormErrors(v); }
  }

  const EmptyUserForm := UserFormValues("", "", "")

  /** The body of `POST /api/users`: the confirmation is not sent. */
  datatype CreateUserBody = CreateUserBody(username: string, password: string)

  datatype ResetPasswordRequest = ResetPasswordRequest(id: int, password: string)

  /**
   * `handleResetPassword`'s guard: a user is selected and the form's password
   * is not empty. Nothing else of the form is checked.
   */
  function ResetRequest(selected: Option<User>, form: UserFormValues): (r: Option<ResetPasswordRequest>)
    ensures r.Some? <==> selected.Some? && form.password != ""
    ensures r.Some? ==> r.value == ResetPasswordRequest(selected.value.id, form.password)
  {
    if selected.Some? && form.password != "" then Some(ResetPasswordRequest(selected.value.id, form.password)) else None
  }

  /**
   * The reset path bypasses the schema: a password shorter than six
   * characters, with any confirmation, is still sent.
   */
  lemma ResetBypassesSchema(u: User, username: string, confirm: string)
    ensures var form := UserFormValues(username, "abc", confirm);
      !UserFormValid(form) && ResetRequest(Some(u), form) == Some(ResetPasswordRequest(u.id, "abc"))
  {
    var form := UserFormValues(username, "abc", confirm);
    assert PasswordField in UserFormErrors(form);
  }

  /** The delete button is offered for every user but "admin". */
  predicate DeleteOffered(u: User) { u.username != "admin" }

  /** The users listed with a delete button. */
  function Deletable(users: seq<User>): seq<User> {
    Filter(users, DeleteOffered)
  }

  /** Every listed user but "admin" gets a delete button, in list order; "admin" never does. */
  lemma DeletableSpec(users: seq<User>)
    ensures forall u :: u in Deletable(users) <==> u in users && u.username != "admin"
    ensures forall u :: u in Deletable(users) ==> u.username != "admin"
    ensures IsSubsequence(Deletable(users), users)
  {
    FilterIsSubsequence(users, DeleteOffered);
  }

  /** The component's state. */
  class UserManagementState {
    var selectedUser: Option<User>
    var addDialogOpen: bool
    var deleteDialogOpen: bool
    var resetDialogOpen: bool
    var form: UserFormValues

    constructor()
      ensures selectedUser == None && !addDialogOpen && !deleteDialogOpen && !resetDialogOpen && form == EmptyUserForm
    {
      selectedUser := None;
      addDialogOpen := false;
      deleteDialogOpen := false;
      resetDialogOpen := false;
      form := EmptyUserForm;
    }

    /** `handleAddClick`: an empty form in an open dialog. */
    method HandleAddClick()
      modifies this
      ensures form == EmptyUserForm && addDialogOpen
      ensures selectedUser == old(selectedUser) && deleteDialogOpen == old(deleteDialogOpen) && resetDialogOpen == old(resetDialogOpen)
    {
      form := EmptyUserForm;
      addDialogOpen := true;
    }

    method HandleResetPasswordClick(u: User)
      modifies this
      ensures selectedUser == Some(u) && resetDialogOpen
      ensures form == old(form) && addDialogOpen == old(addDialogOpen) && deleteDialogOpen == old(deleteDialogOpen)
    {
      selectedUser := Some(u);
      resetDialogOpen := true;
    }

    /** The delete button's handler; it is reached only through a button of `Deletable`. */
    method HandleDeleteClick(u: User)
      modifies this
      ensures selectedUser == Some(u) && deleteDialogOpen
      ensures form == old(form) && addDialogOpen == old(addDialogOpen) && resetDialogOpen == old(resetDialogOpen)
    {
      selectedUser := Some(u);
      deleteDialogOpen := true;
    }

    /** Typing into the form's fields, in the add dialog or the reset dialog: only the fields change. */
    method EditForm(values: UserFormValues)
      modifies this
      ensures form == values
      ensures selectedUser == old(selectedUser) && addDialogOpen == old(addDialogOpen)
      ensures deleteDialogOpen == old(deleteDialogOpen) && resetDialogOpen == old(resetDialogOpen)
    {
      form := values;
    }

    /** `handleConfirmDelete`: the id sent, only with a user selected. */
    method HandleConfirmDelete() returns (id: Option<int>)
      ensures id.Some? <==> selectedUser.Some?
      ensures id.Some? ==> id.value == selectedUser.value.id
    {
      id := if selectedUser.Some? then Some(selectedUser.value.id) else None;
    }

    /** `handleResetPassword`: the request sent, if any. */
    method HandleResetPassword() returns (r: Option<ResetPasswordRequest>)
      ensures r == ResetRequest(selectedUser, form)
    {
      if selectedUser.Some? && form.password != "" {
        r := Some(ResetPasswordRequest(selectedUser.value.id, form.password));
      } else {
        r := None;
      }
    }

    /**
     * `form.handleSubmit(onSubmit)`: fields the schema rejects are not sent;
     * otherwise the body is the username and the password, without
     * `confirmPassword`.
     */
    method OnSubmit() returns (body: Option<CreateUserBody>)
      ensures body.None? <==> !UserFormValid(form)
      ensures body.Some? ==> body.value == CreateUserBody(form.username, form.password)
      ensures body.Some? ==> |body.value.username| >= 3 && |body.value.password| >= 6
    {
      if !UserFormValid(form) {
        return None;
      }
      UserFormValidIff(form);
      body := Some(CreateUserBody(form.username, form.password));
    }

    /** The create mutation's `onSuccess`. */
    method UserCreated()
      modifies this
      ensures form == EmptyUserForm && !addDialogOpen
      ensures selectedUser == old(selectedUser) && deleteDialogOpen == old(deleteDialogOpen) && resetDialogOpen == old(resetDialogOpen)
    {
      form := EmptyUserForm;
      addDialogOpen := false;
    }

    /** The reset mutation's `onSuccess`. */
    method PasswordWasReset()
      modifies this
      ensures selectedUser == None && !resetDialogOpen
      ensures form == old(form) && addDialogOpen == old(addDialogOpen) && deleteDialogOpen == old(deleteDialogOpen)
    {
      selectedUser := None;
      resetDialogOpen := false;
    }

    /** The delete mutation's `onSuccess`. */
    method UserDeleted()
      modifies this
      ensures selectedUser == None && !deleteDialogOpen
      ensures form == old(form) && addDialogOpen == old(addDialogOpen) && resetDialogOpen == old(resetDialogOpen)
    {
      selectedUser := None;
      deleteDialogOpen := false;
    }
  }

  /**
   * The reset-password button, then typing a password into the dialog, then
   * "Guardar": the user's id and the typed password are sent exactly when the
   * password is not empty.
   */
  method ResetAfterTyping(u: User, password: string) returns (r: Option<ResetPasswordRequest>)
    ensures r.Some? <==> password != ""
    ensures r.Some? ==> r.value == ResetPasswordRequest(u.id, password)
  {
    var st := new UserManagementState();
    st.HandleResetPasswordClick(u);
    st.EditForm(st.form.(password := password));
    r := st.HandleResetPassword();
  }
}
