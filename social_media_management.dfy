// client/src/components/admin/social-media-management.tsx: the link form, the
// icon lookup, the create-or-update choice and the bodies it sends.
module SocialMediaManagement {
  import opened Wrappers
  import opened Text
  import opened Schema

  datatype SocialFormValues = SocialFormValues(name: string, url: string, icon: string, isActive: Option<bool>)

  datatype SocialField = NameField | UrlField | IconField

  /** The fields `socialMediaFormSchema` reports; `isUrl` is zod's `.url()` check. */
  function SocialFormErrors(v: SocialFormValues, isUrl: string -> bool): set<SocialField> {
    (if |v.name| < 1 then {NameField} else {}) +
    (if !isUrl(v.url) || |v.url| < 1 then {UrlField} else {}) +
    (if |v.icon| < 1 then {IconField} else {})
  }

  predicate SocialFormValid(v: SocialFormValues, isUrl: string -> bool) { SocialFormErrors(v, isUrl) == {} }

  /** The form passes exactly with a name, an icon and a non-empty URL. */
  lemma SocialFormValidIff(v: SocialFormValues, isUrl: string -> bool)
    ensures SocialFormValid(v, isUrl) <==> v.name != "" && v.icon != "" && v.url != "" && isUrl(v.url)
  {
    if |v.name| < 1 { assert NameField in SocialFormErrors(v, isUrl); }
    if !isUrl(v.url) || |v.url| < 1 { assert UrlField in SocialFormErrors(v, isUrl); }
    if |v.icon| < 1 { assert IconField in SocialFormErrors(v, isUrl); }
  }

  /** The parsed values: `isActive` defaults to true. */
  datatype SocialBody = SocialBody(name: string, url: string, icon: string, isActive: bool)

  function ParsedBody(v: SocialFormValues): (b: SocialBody)
    ensures b.name == v.name && b.url == v.url && b.icon == v.icon
    ensures v.isActive.None? ==> b.isActive
    ensures v.isActive.Some? ==> b.isActive == v.isActive.value
  {
    SocialBody(v.name, v.url, v.icon, v.isActive.GetOr(true))
  }

  const EmptySocialForm := SocialFormValues("", "", "default", Some(true))

  /** The keys of `socialIcons`. */
  const IconNames: seq<string> := ["facebook", "twitter", "instagram", "youtube", "linkedin", "tiktok", "whatsapp", "default"]

  /**
   * What the icon cell renders: the icon listed under a name; nothing, for an
   * inherited function, which React does not render; or a render error, for
   * the prototype object, which React refuses as a child.
   */
  datatype IconView = Icon(name: string) | NoIcon | RenderError

  /**
   * `getIconComponent`: `socialIcons[iconName.toLowerCase()] || socialIcons.default`.
   * A listed name gets its icon; `__proto__` finds `Object.prototype` and
   * another inherited key a function, both truthy; anything else falls back
   * to the default icon.
   */
  function IconFor(iconName: string): (v: IconView)
    ensures v.Icon? ==> v.name in IconNames
    ensures ToLower(iconName) in IconNames ==> v == Icon(ToLower(iconName))
    ensures ToLower(iconName) == "__proto__" ==> v == RenderError
    ensures ToLower(iconName) in ObjectPrototypeKeys && ToLower(iconName) != "__proto__" ==> v == NoIcon
    ensures ToLower(iconName) !in IconNames && ToLower(iconName) !in ObjectPrototypeKeys ==> v == Icon("default")
  {
    var lowered := ToLower(iconName);
    if lowered in IconNames then Icon(lowered)
    else if lowered == "__proto__" then RenderError
    else if lowered in ObjectPrototypeKeys then NoIcon
    else Icon("default")
  }

  /** A stored icon "Constructor" renders nothing and "__PROTO__" fails to render; "Mastodon" gets the default. */
  lemma PrototypeIconsMisrender()
    ensures IconFor("Constructor") == NoIcon && IconFor("__PROTO__") == RenderError
    ensures IconFor("Mastodon") == Icon("default") && IconFor("Facebook") == Icon("facebook")
  {
    assert ToLower("Constructor") == "constructor";
    assert ToLower("__PROTO__") == "__proto__";
    assert ToLower("Mastodon") == "mastodon";
    assert ToLower("Facebook") == "facebook";
  }

  /** The lookup ignores case. */
  lemma IconForIgnoresCase(iconName: string)
    ensures IconFor(ToLower(iconName)) == IconFor(iconName)
  {
    ToLowerIdempotent(iconName);
  }

  datatype SocialRequest = CreateSocial(body: SocialBody) | UpdateSocial(id: int, patch: SocialMediaPatch)

  /** The update body: the form's fields, without the id. */
  function UpdatePatch(b: SocialBody): SocialMediaPatch {
    SocialMediaPatch(Some(b.name), Some(b.url), Some(b.icon), Some(b.isActive))
  }

  /** The switch's body: only `isActive`. */
  function TogglePatch(isActive: bool): SocialMediaPatch {
    SocialMediaPatch(None, None, None, Some(isActive))
  }

  /**
   * An update overwrites every field of the link but its id; the switch
   * changes only `isActive`.
   */
  lemma PatchesSpec(s: SocialMedia, b: SocialBody, isActive: bool)
    ensures ApplySocialMediaPatch(s, UpdatePatch(b)) == SocialMedia(s.id, b.name, b.url, b.icon, b.isActive)
    ensures ApplySocialMediaPatch(s, TogglePatch(isActive)) == s.(isActive := isActive)
  {
  }

  /**
   * The page's state. `form` is what the fields show and `defaults` what a
   * bare `form.reset()` returns to: React Hook Form's `reset(values)` sets
   * both, so `defaults` holds the values last passed to it.
   */
  class SocialMediaState {
    var selected: Option<SocialMedia>
    var dialogOpen: bool
    var deleteDialogOpen: bool
    var form: SocialFormValues
    var defaults: SocialFormValues

    constructor()
      ensures selected == None && !dialogOpen && !deleteDialogOpen
      ensures form == EmptySocialForm && defaults == EmptySocialForm
    {
      selected := None;
      dialogOpen := false;
      deleteDialogOpen := false;
      form := EmptySocialForm;
      defaults := EmptySocialForm;
    }

    /** The add buttons: no selection, the form reset to empty values with the default icon, the dialog open. */
    method HandleAddClick()
      modifies this
      ensures selected == None && dialogOpen
      ensures form == EmptySocialForm && defaults == EmptySocialForm
      ensures deleteDialogOpen == old(deleteDialogOpen)
    {
      selected := None;
      form := EmptySocialForm;
      defaults := EmptySocialForm;
      dialogOpen := true;
    }

    /** `handleEditClick`: the link selected and the form reset to its fields. */
    method HandleEditClick(s: SocialMedia)
      modifies this
      ensures selected == Some(s) && dialogOpen
      ensures form == SocialFormValues(s.name, s.url, s.icon, Some(s.isActive)) && defaults == form
      ensures deleteDialogOpen == old(deleteDialogOpen)
    {
      selected := Some(s);
      form := SocialFormValues(s.name, s.url, s.icon, Some(s.isActive));
      defaults := form;
      dialogOpen := true;
    }

    method HandleDeleteClick(s: SocialMedia)
      modifies this
      ensures selected == Some(s) && deleteDialogOpen
      ensures form == old(form) && defaults == old(defaults) && dialogOpen == old(dialogOpen)
    {
      selected := Some(s);
      deleteDialogOpen := true;
    }

    /** The edit dialog's `onOpenChange`: only its open flag follows. */
    method SetDialogOpen(open: bool)
      modifies this
      ensures dialogOpen == open
      ensures selected == old(selected) && deleteDialogOpen == old(deleteDialogOpen)
      ensures form == old(form) && defaults == old(defaults)
    {
      dialogOpen := open;
    }

    /** The delete dialog's `onOpenChange`: only its open flag follows. */
    method SetDeleteDialogOpen(open: bool)
      modifies this
      ensures deleteDialogOpen == open
      ensures selected == old(selected) && dialogOpen == old(dialogOpen)
      ensures form == old(form) && defaults == old(defaults)
    {
      deleteDialogOpen := open;
    }

    /** Typing into the fields: only the fields change. */
    method EditForm(v: SocialFormValues)
      modifies this
      ensures form == v
      ensures selected == old(selected) && dialogOpen == old(dialogOpen)
      ensures deleteDialogOpen == old(deleteDialogOpen) && defaults == old(defaults)
    {
      form := v;
    }

    /**
     * `form.handleSubmit(onSubmit)`: fields the schema rejects (`isUrl` is
     * zod's `.url()` check) are not sent; otherwise an update of the selected
     * link, or a creation with nothing selected.
     */
    method OnSubmit(isUrl: string -> bool) returns (req: Option<SocialRequest>)
      ensures req.None? <==> !SocialFormValid(form, isUrl)
      ensures req.Some? ==> (req.value.UpdateSocial? <==> selected.Some?)
      ensures req.Some? && req.value.UpdateSocial? ==> req.value == UpdateSocial(selected.value.id, UpdatePatch(ParsedBody(form)))
      ensures req.Some? && req.value.CreateSocial? ==> req.value.body == ParsedBody(form)
    {
      if !SocialFormValid(form, isUrl) {
        return None;
      }
      var body := ParsedBody(form);
      if selected.Some? {
        req := Some(UpdateSocial(selected.value.id, UpdatePatch(body)));
      } else {
        req := Some(CreateSocial(body));
      }
    }

    /** The delete button: the id sent, only with a link selected. */
    method ConfirmDelete() returns (id: Option<int>)
      ensures id.Some? <==> selected.Some?
      ensures id.Some? ==> id.value == selected.value.id
    {
      id := if selected.Some? then Some(selected.value.id) else None;
    }

    /** The create mutation's `onSuccess`: the dialog closes and `reset()` puts back the last reset values. */
    method SocialCreated()
      modifies this
      ensures !dialogOpen && form == old(defaults) && defaults == old(defaults)
      ensures selected == old(selected) && deleteDialogOpen == old(deleteDialogOpen)
    {
      dialogOpen := false;
      form := defaults;
    }

    /** The delete mutation's `onSuccess`. */
    method SocialDeleted()
      modifies this
      ensures !deleteDialogOpen && selected == None
      ensures form == old(form) && defaults == old(defaults) && dialogOpen == old(dialogOpen)
    {
      deleteDialogOpen := false;
      selected := None;
    }

    /** The update mutation's `onSuccess`: the dialog closes, the selection clears, and `reset()` as above. */
    method SocialUpdated()
      modifies this
      ensures !dialogOpen && selected == None
      ensures form == old(defaults) && defaults == old(defaults)
      ensures deleteDialogOpen == old(deleteDialogOpen)
    {
      dialogOpen := false;
      selected := None;
      form := defaults;
    }
  }

  /** Adding then creating a link leaves the empty values in the form, whatever was edited before. */
  method AddThenCreate(earlier: SocialMedia) returns (form: SocialFormValues)
    ensures form == EmptySocialForm
  {
    var st := new SocialMediaState();
    st.HandleEditClick(earlier);
    st.HandleAddClick();
    st.SocialCreated();
    form := st.form;
  }

  /** Editing a link then saving it leaves the link's own values in the form, not the empty ones. */
  method EditThenUpdate(s: SocialMedia) returns (form: SocialFormValues)
    ensures form == SocialFormValues(s.name, s.url, s.icon, Some(s.isActive))
  {
    var st := new SocialMediaState();
    st.HandleEditClick(s);
    st.SocialUpdated();
    form := st.form;
  }

  /** Editing a link and submitting its form unchanged rewrites it as it was. */
  lemma EditRoundTrip(s: SocialMedia)
    ensures ApplySocialMediaPatch(s, UpdatePatch(ParsedBody(SocialFormValues(s.name, s.url, s.icon, Some(s.isActive))))) == s
  {
  }
}
