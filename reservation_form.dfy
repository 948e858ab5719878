// client/src/components/home/reservation-form.tsx: the public reservation
// form — its zod schema, the time slots, the phone input filter, the calendar
// rule, and what `onSubmit` sends and does to the form's flags.
module ReservationForm {
  import opened Wrappers
  import opened Seqs
  import opened Text

  datatype Field = NameField | EmailField | PhoneField | DateField | TimeField | GuestsField

  /** A calendar day. */
  datatype Date = Date(year: int, month: int, day: int)

  /** A day the date picker can yield: day and month in range, a year of at most four digits' padding. */
  type PickedDate = d: Date | 1 <= d.day <= 31 && 1 <= d.month <= 12 && d.year >= 0 witness Date(2025, 1, 1)

  /**
   * The form's values. `guests` is what `z.coerce.number()` makes of the input
   * (`None` for NaN); `date` and `time` are `None` until picked.
   */
  datatype ReservationInput = ReservationInput(
    name: string, email: string, phone: string, date: Option<PickedDate>, time: Option<string>,
    guests: Option<real>, message: Option<string>)

  /** The fields `reservationSchema` rejects; `isEmail` is zod's `.email()` check. */
  function Errors(i: ReservationInput, isEmail: string -> bool): set<Field> {
    (if |i.name| < 3 then {NameField} else {}) +
    (if !isEmail(i.email) then {EmailField} else {}) +
    (if |i.phone| < 7 then {PhoneField} else {}) +
    (if i.date.None? then {DateField} else {}) +
    (if i.time.None? then {TimeField} else {}) +
    (if i.guests.None? || i.guests.value < 1.0 || i.guests.value > 20.0 then {GuestsField} else {})
  }

  predicate Valid(i: ReservationInput, isEmail: string -> bool) {
    Errors(i, isEmail) == {}
  }

  /**
   * A submission validates exactly when the name has at least 3 characters,
   * the email passes, the phone has at least 7, a date and a time are present
   * and guests is a number from 1 to 20. Neither the time's value nor the
   * message is checked, and guests need not be whole.
   */
  lemma ValidIff(i: ReservationInput, isEmail: string -> bool)
    ensures Valid(i, isEmail) <==>
      |i.name| >= 3 && isEmail(i.email) && |i.phone| >= 7 && i.date.Some? && i.time.Some? &&
      i.guests.Some? && 1.0 <= i.guests.value <= 20.0
  {
    var e := Errors(i, isEmail);
    if |i.name| < 3 { assert NameField in e; }
    if !isEmail(i.email) { assert EmailField in e; }
    if |i.phone| < 7 { assert PhoneField in e; }
    if i.date.None? { assert DateField in e; }
    if i.time.None? { assert TimeField in e; }
    if i.guests.None? || i.guests.value < 1.0 || i.guests.value > 20.0 { assert GuestsField in e; }
  }

  /** Half a guest passes the schema: the coerced number is not required to be an integer. */
  lemma FractionalGuestsAccepted(i: ReservationInput, isEmail: string -> bool)
    requires Valid(i, isEmail)
    ensures Valid(i.(guests := Some(2.5)), isEmail)
  {
    ValidIff(i, isEmail);
    ValidIff(i.(guests := Some(2.5)), isEmail);
  }

  /** Any time string and any message pass: only the select offers the fixed slots. */
  lemma TimeAndMessageUnchecked(i: ReservationInput, isEmail: string -> bool, time: string, message: Option<string>)
    requires Valid(i, isEmail)
    ensures Valid(i.(time := Some(time), message := message), isEmail)
  {
    ValidIff(i, isEmail);
    ValidIff(i.(time := Some(time), message := message), isEmail);
  }

  /** The slots the time select offers. */
  const TimeSlots: seq<string> := [
    "12:00", "12:30", "13:00", "13:30", "14:00", "14:30",
    "19:00", "19:30", "20:00", "20:30", "21:00", "21:30", "22:00"]

  /** The form's default values: two guests and everything else empty. */
  const DefaultInput := ReservationInput("", "", "", None, None, Some(2.0), Some(""))

  /** The untouched form does not validate: name, phone, date and time are missing. */
  lemma DefaultInputInvalid(isEmail: string -> bool)
    ensures {NameField, PhoneField, DateField, TimeField} <= Errors(DefaultInput, isEmail)
    ensures GuestsField !in Errors(DefaultInput, isEmail)
  {
  }

  predicate IsPhoneInputChar(c: char) { IsDigit(c) || c == '-' }

  /** The phone input's `onChange`: keep digits and `-`, then cut to 11 characters. */
  function SanitizePhone(s: string): (r: string)
    ensures |r| <= 11
    ensures forall i :: 0 <= i < |r| ==> IsPhoneInputChar(r[i])
    ensures |r| <= |Filter(s, IsPhoneInputChar)| && r == Filter(s, IsPhoneInputChar)[..|r|]
    ensures |Filter(s, IsPhoneInputChar)| <= 11 ==> r == Filter(s, IsPhoneInputChar)
  {
    var value := Filter(s, IsPhoneInputChar);
    if |value| > 11 then value[..11] else value
  }

  /** Sanitizing a sanitized phone changes nothing. */
  lemma SanitizePhoneIdempotent(s: string)
    ensures SanitizePhone(SanitizePhone(s)) == SanitizePhone(s)
  {
    FilterAll(SanitizePhone(s), IsPhoneInputChar);
  }

  /** `format(date, "dd/MM/yyyy")`. */
  function FormatDate(d: PickedDate): string {
    ZeroPad(d.day, 2) + "/" + ZeroPad(d.month, 2) + "/" + ZeroPad(d.year, 4)
  }

  predicate AllDigits(s: string) { forall i :: 0 <= i < |s| ==> IsDigit(s[i]) }

  /** Reads a `dd/MM/yyyy` string back into a day. */
  function ParseDate(s: string): Option<Date> {
    if |s| >= 10 && s[2] == '/' && s[5] == '/' && AllDigits(s[..2]) && AllDigits(s[3..5]) && AllDigits(s[6..]) then
      Some(Date(DigitsValue(s[6..]), DigitsValue(s[3..5]), DigitsValue(s[..2])))
    else None
  }

  /** The formatted day has at least ten characters, and reading it back gives the day. */
  lemma FormatDateRoundTrip(d: PickedDate)
    ensures |FormatDate(d)| >= 10
    ensures ParseDate(FormatDate(d)) == Some(d)
  {
    NatToStringLength(d.day, 2);
    NatToStringLength(d.month, 2);
    var dd := ZeroPad(d.day, 2);
    var mm := ZeroPad(d.month, 2);
    var yy := ZeroPad(d.year, 4);
    assert |dd| == 2 && |mm| == 2;
    var s := FormatDate(d);
    var front := dd + "/" + mm;
    assert s == front + ("/" + yy);
    assert |front| == 5 && front[..2] == dd && front[3..5] == mm;
    assert s[..2] == front[..2];
    assert s[3..5] == front[3..5];
    assert s[6..] == yy;
    ZeroPadRoundTrip(d.day, 2);
    ZeroPadRoundTrip(d.month, 2);
    ZeroPadRoundTrip(d.year, 4);
  }

  /** The JSON body posted to `/api/reservations`. */
  datatype ReservationBody = ReservationBody(
    name: string, email: string, phone: string, date: string, time: Option<string>,
    guests: Option<real>, message: Option<string>)

  /** `{ ...data, date: formattedDate }`. */
  function SubmitBody(data: ReservationInput, formattedDate: string): (b: ReservationBody)
    ensures b.date == formattedDate
    ensures b.name == data.name && b.email == data.email && b.phone == data.phone
    ensures b.time == data.time && b.guests == data.guests && b.message == data.message
  {
    ReservationBody(data.name, data.email, data.phone, formattedDate, data.time, data.guests, data.message)
  }

  /**
   * The calendar's `disabled` rule on instants (milliseconds): a day is
   * selectable unless it lies before now or after now plus three months.
   */
  predicate DaySelectable(day: int, now: int, threeMonthsLater: int) {
    !(day < now || day > threeMonthsLater)
  }

  /**
   * The picker hands over the day at midnight, so once today has begun
   * today itself is disabled; the last selectable day is the one three
   * months ahead.
   */
  lemma SelectableRange(day: int, now: int, threeMonthsLater: int)
    ensures DaySelectable(day, now, threeMonthsLater) <==> now <= day <= threeMonthsLater
    ensures day < now ==> !DaySelectable(day, now, threeMonthsLater)
  {
  }

  /** The form component's state. */
  class ReservationFormState {
    var values: ReservationInput
    var submitting: bool
    var success: bool

    constructor()
      ensures values == DefaultInput && !submitting && !success
    {
      values := DefaultInput;
      submitting := false;
      success := false;
    }

    /** Typing into the fields, picking a day, a time or a number of guests: only the values change. */
    method EditForm(v: ReservationInput)
      modifies this
      ensures values == v && submitting == old(submitting) && success == old(success)
    {
      values := v;
    }

    /**
     * `form.handleSubmit(onSubmit)`: values the schema rejects never reach
     * `onSubmit`, and nothing changes. Otherwise the body posted is the values
     * with their own day formatted as `dd/MM/yyyy`; `responseOk` is whether
     * the request succeeded. Success is set only on an OK response, and
     * `submitting` is false afterwards on every path.
     */
    method OnSubmit(isEmail: string -> bool, responseOk: bool) returns (body: Option<ReservationBody>)
      modifies this
      ensures body.None? <==> !Valid(values, isEmail)
      ensures body.Some? ==> values.date.Some? && body.value == SubmitBody(values, FormatDate(values.date.value))
      ensures body.Some? ==> ParseDate(body.value.date) == values.date
      ensures body.None? ==> submitting == old(submitting) && success == old(success)
      ensures body.Some? ==> !submitting && (responseOk ==> success) && (!responseOk ==> success == old(success))
      ensures values == old(values)
    {
      if !Valid(values, isEmail) {
        return None;
      }
      ValidIff(values, isEmail);
      submitting := true;
      var formattedDate := FormatDate(values.date.value);
      FormatDateRoundTrip(values.date.value);
      body := Some(SubmitBody(values, formattedDate));
      if responseOk {
        success := true;
      }
      submitting := false;
    }

    /** The timer three seconds after a success: reset the form and clear the flag. */
    method ResetAfterSuccess()
      modifies this
      ensures values == DefaultInput && !success && submitting == old(submitting)
    {
      values := DefaultInput;
      success := false;
    }
  }

  /**
   * Filling in the form, submitting it with an OK response, then the timer:
   * valid values are posted with their own day, which reads back from the
   * body, and the form ends on its defaults with no success shown.
   */
  method FillSubmitReset(v: ReservationInput, isEmail: string -> bool) returns (body: Option<ReservationBody>, after: ReservationInput)
    ensures body.Some? <==> Valid(v, isEmail)
    ensures body.Some? ==> v.date.Some? && ParseDate(body.value.date) == v.date
    ensures body.Some? ==> body.value.name == v.name && body.value.guests == v.guests
    ensures after == DefaultInput
  {
    var st := new ReservationFormState();
    st.EditForm(v);
    body := st.OnSubmit(isEmail, true);
    st.ResetAfterSuccess();
    after := st.values;
  }
}
