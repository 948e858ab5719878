// client/src/components/admin/change-password.tsx: the password-change form,
// its payload, and what a successful change does to the form and the location.
module ChangePasswordForm {
  import opened Wrappers

  datatype PasswordFormValues = PasswordFormValues(currentPassword: string, newPassword: string, confirmPassword: string)

  datatype PasswordField = CurrentField | NewField | ConfirmField

  /**
   * The fields `passwordChangeSchema` reports: an empty current password, a
   * new one under 6 characters, an empty confirmation, and a confirmation that
   * differs from the new password (reported on `confirmPassword`).
   */
  function PasswordFormErrors(v: PasswordFormValues): set<PasswordField> {
    (if |v.currentPassword| < 1 then {CurrentField} else {}) +
    (if |v.newPassword| < 6 then {NewField} else {}) +
    (if |v.confirmPassword| < 1 || v.newPassword != v.confirmPassword then {ConfirmField} else {})
  }

  predicate PasswordFormValid(v: PasswordFormValues) { PasswordFormErrors(v) == {} }

  /** The form passes exactly with a current password, a 6-character new one and a matching confirmation. */
  lemma PasswordFormValidIff(v: PasswordFormValues)
    ensures PasswordFormValid(v) <==>
      v.currentPassword != "" && |v.newPassword| >= 6 && v.confirmPassword != "" && v.confirmPassword == v.newPassword
    ensures v.newPassword != v.confirmPassword ==> ConfirmField in PasswordFormErrors(v)
  {
    if |v.currentPassword| < 1 { assert CurrentField in PasswordFormErrors(v); }
    if |v.newPassword| < 6 { assert NewField in PasswordFormErrors(v); }
    if |v.confirmPassword| < 1 || v.newPassword != v.confirmPassword { assert ConfirmField in PasswordFormErrors(v); }
  }

  /** The new password may equal the current one: the schema does not compare them. */
  lemma SamePasswordAccepted(p: string)
    requires |p| >= 6
    ensures PasswordFormValid(PasswordFormValues(p, p, p))
  {
  }

  const EmptyPasswordForm := PasswordFormValues("", "", "")

  /** The mutation's argument: the confirmation is not sent. */
  datatype PasswordChangePayload = PasswordChangePayload(currentPassword: string, newPassword: string)

  const DashboardPath := "/admin-aut/dashboard"

  /** Submitting is disabled while the request is pending and once it succeeded. */
  predicate SubmitDisabled(isPending: bool, isSuccess: bool) { isPending || isSuccess }

  /** The component's state: its form, the mutation's success flag, the browser location and the redirect timer. */
  class ChangePasswordState {
    const isFirstLogin: bool
    var form: PasswordFormValues
    /** `changePasswordMutation.isSuccess`. */
    var isSuccess: bool
    var location: string
    /** A redirect scheduled by `setTimeout` and not yet run. */
    var redirectScheduled: bool

    /** Only a first login ever schedules a redirect. */
    predicate Valid()
      reads this
    {
      redirectScheduled ==> isFirstLogin
    }

    constructor(isFirstLogin: bool, location: string)
      ensures this.isFirstLogin == isFirstLogin && this.location == location
      ensures form == EmptyPasswordForm && !isSuccess && !redirectScheduled && Valid()
    {
      this.isFirstLogin := isFirstLogin;
      this.location := location;
      form := EmptyPasswordForm;
      isSuccess := false;
      redirectScheduled := false;
    }

    /** Typing into the three fields: only the form changes. */
    method EditForm(v: PasswordFormValues)
      requires Valid()
      modifies this
      ensures form == v && Valid()
      ensures isSuccess == old(isSuccess) && location == old(location) && redirectScheduled == old(redirectScheduled)
    {
      form := v;
    }

    /**
     * The submit button, then `form.handleSubmit(onSubmit)`: nothing is sent
     * while the button is disabled (`isPending` is the mutation's pending
     * flag), nor for values the schema rejects; otherwise the payload
     * carries the current and the new password, and nothing else.
     */
    method OnSubmit(isPending: bool) returns (payload: Option<PasswordChangePayload>)
      ensures payload.None? <==> SubmitDisabled(isPending, isSuccess) || !PasswordFormValid(form)
      ensures payload.Some? ==>
        payload.value == PasswordChangePayload(form.currentPassword, form.newPassword) &&
        |payload.value.newPassword| >= 6 && payload.value.currentPassword != ""
    {
      if SubmitDisabled(isPending, isSuccess) || !PasswordFormValid(form) {
        return None;
      }
      PasswordFormValidIff(form);
      payload := Some(PasswordChangePayload(form.currentPassword, form.newPassword));
    }

    /** The mutation resolves: `isSuccess` becomes true and nothing else changes yet. */
    method ChangeSucceeded()
      requires Valid()
      modifies this
      ensures isSuccess && Valid()
      ensures form == old(form) && location == old(location) && redirectScheduled == old(redirectScheduled)
    {
      isSuccess := true;
    }

    /** The effect on `isSuccess`: the form is cleared, and a first login schedules the redirect. */
    method SuccessEffect()
      requires Valid()
      modifies this
      ensures Valid()
      ensures form == EmptyPasswordForm
      ensures redirectScheduled == (old(redirectScheduled) || isFirstLogin)
      ensures location == old(location) && isSuccess == old(isSuccess)
    {
      form := EmptyPasswordForm;
      if isFirstLogin {
        redirectScheduled := true;
      }
    }

    /** The timer firing 1500 ms later: the scheduled redirect goes to the dashboard. */
    method RedirectTimer()
      modifies this
      ensures old(redirectScheduled) ==> location == DashboardPath
      ensures !old(redirectScheduled) ==> location == old(location)
      ensures !redirectScheduled && form == old(form) && isSuccess == old(isSuccess) && Valid()
    {
      if redirectScheduled {
        location := DashboardPath;
        redirectScheduled := false;
      }
    }
  }

  /**
   * A change that succeeded, followed by its effect, cannot be sent again,
   * even with the same values typed in anew: the button stays disabled, and a
   * first login is on its way to the dashboard.
   */
  method NoSecondChange(isFirstLogin: bool, location: string, values: PasswordFormValues, isPending: bool)
    returns (payload: Option<PasswordChangePayload>, redirecting: bool)
    ensures payload == None
    ensures redirecting == isFirstLogin
  {
    var st := new ChangePasswordState(isFirstLogin, location);
    st.EditForm(values);
    st.ChangeSucceeded();
    st.SuccessEffect();
    st.EditForm(values);
    payload := st.OnSubmit(isPending);
    redirecting := st.redirectScheduled;
  }

  /**
   * Typing values into a fresh form and submitting: a payload is sent
   * exactly when the request is not pending and the values pass the schema,
   * and it carries only the current and the new password.
   */
  method TypeThenSubmit(isFirstLogin: bool, location: string, values: PasswordFormValues, isPending: bool)
    returns (payload: Option<PasswordChangePayload>)
    ensures payload.Some? <==> !isPending && PasswordFormValid(values)
    ensures payload.Some? ==> payload.value == PasswordChangePayload(values.currentPassword, values.newPassword)
  {
    var st := new ChangePasswordState(isFirstLogin, location);
    st.EditForm(values);
    payload := st.OnSubmit(isPending);
  }
}
