// client/src/components/admin/staff-management.tsx: the staff form, its
// prefill from the selected member, the create-or-update choice and the
// delete guard.
module StaffManagement {
  import opened Wrappers
  import opened Schema

  datatype StaffFormValues = StaffFormValues(name: string, position: string, bio: string, image: string)

  datatype StaffField = NameField | PositionField | BioField | ImageField

  /** The fields `staffFormSchema` reports; `isUrl` is zod's `.url()` check. */
  function StaffFormErrors(v: StaffFormValues, isUrl: string -> bool): set<StaffField> {
    (if |v.name| < 2 then {NameField} else {}) +
    (if |v.position| < 2 then {PositionField} else {}) +
    (if |v.bio| < 10 then {BioField} else {}) +
    (if !(isUrl(v.image) || v.image == "") then {ImageField} else {})
  }

  predicate StaffFormValid(v: StaffFormValues, isUrl: string -> bool) { StaffFormErrors(v, isUrl) == {} }

  /** The form passes exactly with a 2-character name and position, a 10-character bio, and a URL or no image. */
  lemma StaffFormValidIff(v: StaffFormValues, isUrl: string -> bool)
    ensures StaffFormValid(v, isUrl) <==>
      |v.name| >= 2 && |v.position| >= 2 && |v.bio| >= 10 && (isUrl(v.image) || v.image == "")
  {
    if |v.name| < 2 { assert NameField in StaffFormErrors(v, isUrl); }
    if |v.position| < 2 { assert PositionField in StaffFormErrors(v, isUrl); }
    if |v.bio| < 10 { assert BioField in StaffFormErrors(v, isUrl); }
    if !(isUrl(v.image) || v.image == "") { assert ImageField in StaffFormErrors(v, isUrl); }
  }

  const EmptyStaffForm := StaffFormValues("", "", "", "")

  /**
   * The form's `values`: the selected member's fields (`image || ""` keeps a
   * string image as it is), or an empty form with nobody selected.
   */
  function FormValuesFor(selected: Option<Staff>): (v: StaffFormValues)
    ensures selected.None? ==> v == EmptyStaffForm
    ensures selected.Some? ==> v.name == selected.value.name && v.position == selected.value.position
    ensures selected.Some? ==> v.bio == selected.value.bio && v.image == selected.value.image
  {
    if selected.Some? then StaffFormValues(selected.value.name, selected.value.position, selected.value.bio, selected.value.image)
    else EmptyStaffForm
  }

  /** Saving a member's prefilled form unchanged writes back exactly the member. */
  lemma PrefillRoundTrip(s: Staff)
    ensures var v := FormValuesFor(Some(s));
      ApplyStaffPatch(s, StaffPatch(Some(v.name), Some(v.position), Some(v.bio), Some(v.image))) == s
  {
  }

  datatype StaffRequest = CreateStaff(values: StaffFormValues) | UpdateStaff(id: int, updates: StaffFormValues)

  /**
   * The component's state. Besides the selection and the dialog flags it
   * holds the form: what the fields show, what `form.reset()` returns to, and
   * the `values` prop as it was last applied. React Hook Form applies the
   * `values` prop (resetting the fields and the defaults to it) only when it
   * differs from the one applied before.
   */
  class StaffManagementState {
    var selectedStaff: Option<Staff>
    var isEditing: bool
    var addDialogOpen: bool
    var deleteDialogOpen: bool
    var form: StaffFormValues
    var defaults: StaffFormValues
    var appliedValues: StaffFormValues

    constructor()
      ensures selectedStaff == None && !isEditing && !addDialogOpen && !deleteDialogOpen
      ensures form == EmptyStaffForm && defaults == EmptyStaffForm && appliedValues == EmptyStaffForm
      ensures ValuesApplied()
    {
      selectedStaff := None;
      isEditing := false;
      addDialogOpen := false;
      deleteDialogOpen := false;
      form := EmptyStaffForm;
      defaults := EmptyStaffForm;
      appliedValues := EmptyStaffForm;
    }

    /** The `values` prop of the current selection is the one last applied. */
    predicate ValuesApplied()
      reads this
    {
      appliedValues == FormValuesFor(selectedStaff)
    }

    /** The `values` prop after a render: applied to the fields and the defaults when it changed. */
    method ApplyValues()
      modifies this
      ensures var v := FormValuesFor(selectedStaff);
        appliedValues == v &&
        form == (if v != old(appliedValues) then v else old(form)) &&
        defaults == (if v != old(appliedValues) then v else old(defaults))
      ensures selectedStaff == old(selectedStaff) && isEditing == old(isEditing)
      ensures addDialogOpen == old(addDialogOpen) && deleteDialogOpen == old(deleteDialogOpen)
    {
      var v := FormValuesFor(selectedStaff);
      if v != appliedValues {
        form := v;
        defaults := v;
        appliedValues := v;
      }
    }

    /** `handleEditClick`: the member selected and editing on; the form shows the member unless its values were applied already. */
    method HandleEditClick(s: Staff)
      modifies this
      ensures selectedStaff == Some(s) && isEditing && ValuesApplied()
      ensures form == (if FormValuesFor(Some(s)) != old(appliedValues) then FormValuesFor(Some(s)) else old(form))
      ensures addDialogOpen == old(addDialogOpen) && deleteDialogOpen == old(deleteDialogOpen)
    {
      selectedStaff := Some(s);
      isEditing := true;
      ApplyValues();
    }

    method HandleDeleteClick(s: Staff)
      modifies this
      ensures selectedStaff == Some(s) && deleteDialogOpen && ValuesApplied()
      ensures form == (if FormValuesFor(Some(s)) != old(appliedValues) then FormValuesFor(Some(s)) else old(form))
      ensures isEditing == old(isEditing) && addDialogOpen == old(addDialogOpen)
    {
      selectedStaff := Some(s);
      deleteDialogOpen := true;
      ApplyValues();
    }

    /**
     * `handleAddClick`: the fields and defaults reset to empty and the dialog
     * opens; the selection is kept, so the `values` prop is not re-applied.
     */
    method HandleAddClick()
      modifies this
      ensures addDialogOpen && form == EmptyStaffForm && defaults == EmptyStaffForm
      ensures selectedStaff == old(selectedStaff) && isEditing == old(isEditing) && deleteDialogOpen == old(deleteDialogOpen)
      ensures appliedValues == old(appliedValues)
    {
      form := EmptyStaffForm;
      defaults := EmptyStaffForm;
      addDialogOpen := true;
    }

    /** Typing into the fields. */
    method EditForm(values: StaffFormValues)
      modifies this
      ensures form == values
      ensures selectedStaff == old(selectedStaff) && isEditing == old(isEditing) && defaults == old(defaults)
      ensures addDialogOpen == old(addDialogOpen) && deleteDialogOpen == old(deleteDialogOpen) && appliedValues == old(appliedValues)
    {
      form := values;
    }

    /** `handleConfirmDelete`: the id sent, only with a member selected. */
    method HandleConfirmDelete() returns (id: Option<int>)
      ensures id.Some? <==> selectedStaff.Some?
      ensures id.Some? ==> id.value == selectedStaff.value.id
    {
      id := if selectedStaff.Some? then Some(selectedStaff.value.id) else None;
    }

    /**
     * `form.handleSubmit(onSubmit)`: nothing for fields that fail the schema;
     * otherwise an update of the selected member while editing, a creation
     * otherwise, with the fields as they are.
     */
    method OnSubmit(isUrl: string -> bool) returns (req: Option<StaffRequest>)
      ensures req.None? <==> !StaffFormValid(form, isUrl)
      ensures req.Some? && req.value.UpdateStaff? <==> StaffFormValid(form, isUrl) && isEditing && selectedStaff.Some?
      ensures req.Some? && req.value.UpdateStaff? ==> req.value == UpdateStaff(selectedStaff.value.id, form)
      ensures req.Some? && req.value.CreateStaff? ==> req.value.values == form
    {
      if !StaffFormValid(form, isUrl) {
        req := None;
      } else if isEditing && selectedStaff.Some? {
        req := Some(UpdateStaff(selectedStaff.value.id, form));
      } else {
        req := Some(CreateStaff(form));
      }
    }

    /** The create mutation's `onSuccess`: the fields back to the defaults and the add dialog closed. */
    method StaffCreated()
      modifies this
      ensures form == defaults && !addDialogOpen
      ensures selectedStaff == old(selectedStaff) && isEditing == old(isEditing) && deleteDialogOpen == old(deleteDialogOpen)
      ensures defaults == old(defaults) && appliedValues == old(appliedValues)
    {
      form := defaults;
      addDialogOpen := false;
    }

    /** The update mutation's `onSuccess`: no selection and not editing; the empty values are applied if they changed. */
    method StaffUpdated()
      modifies this
      ensures selectedStaff == None && !isEditing && ValuesApplied()
      ensures form == (if EmptyStaffForm != old(appliedValues) then EmptyStaffForm else old(form))
      ensures addDialogOpen == old(addDialogOpen) && deleteDialogOpen == old(deleteDialogOpen)
    {
      selectedStaff := None;
      isEditing := false;
      ApplyValues();
    }

    /** The delete mutation's `onSuccess`. */
    method StaffDeleted()
      modifies this
      ensures selectedStaff == None && !deleteDialogOpen && ValuesApplied()
      ensures form == (if EmptyStaffForm != old(appliedValues) then EmptyStaffForm else old(form))
      ensures isEditing == old(isEditing) && addDialogOpen == old(addDialogOpen)
    {
      selectedStaff := None;
      deleteDialogOpen := false;
      ApplyValues();
    }

    /** Closing the add/edit dialog: both flags go down; the selection and the fields are kept. */
    method CloseEditDialog()
      modifies this
      ensures !isEditing && !addDialogOpen
      ensures selectedStaff == old(selectedStaff) && deleteDialogOpen == old(deleteDialogOpen)
      ensures form == old(form) && defaults == old(defaults) && appliedValues == old(appliedValues)
    {
      isEditing := false;
      addDialogOpen := false;
    }
  }

  /**
   * Edit, close, then add: the add dialog opens on empty fields although the
   * member is still selected, and saving it creates a new member.
   */
  method EditCloseAdd(s: Staff, isUrl: string -> bool) returns (req: Option<StaffRequest>)
    ensures req.None? <==> !StaffFormValid(EmptyStaffForm, isUrl)
    ensures req.Some? ==> req.value == CreateStaff(EmptyStaffForm)
  {
    var st := new StaffManagementState();
    st.HandleEditClick(s);
    st.CloseEditDialog();
    st.HandleAddClick();
    assert st.selectedStaff == Some(s) && st.form == EmptyStaffForm && !st.isEditing;
    req := st.OnSubmit(isUrl);
  }
}
