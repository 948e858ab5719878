# Pepito's House — a Dafny model

A model of the restaurant site's core: the shopping cart and its WhatsApp
checkout, the public menu and the reservation form, the admin panel's
components, the Express routes, the storage layer over the database tables,
the password-change handler and the serverless handlers under `api/`.

Each source file becomes one module:

- **Pure logic** (slugs, text truncation, form schemas, message templates,
  filters) becomes functions with lemmas about them.
- **State** (the cart provider, each component's dialogs and selections,
  the database) becomes a class. Its methods carry `modifies` clauses and
  state their whole new state.
- **Routes** become functions when they only read and methods when they
  write. Each answers with a `Response(status, body)`.

The database is the `DatabaseStorage` class. Its `tables` field holds the
seven tables as sequences of rows, in insertion order. Its invariant,
`DbOk`, states the schema's constraints:

- unique ids in every table;
- unique usernames, setting keys and category slugs;
- every id below the next fresh id;
- at most one location row.

Every write keeps `DbOk`. An insert that would break a unique column fails
with `Violation` and changes nothing, as the database's rejected insert
does.

Modules `Wrappers`, `Seqs` and `Text` are shared helpers:

- `Option`;
- filtering, finding and subsequences over sequences;
- characters, lower-casing, digits and decimal numerals.

## Model

| member | source | states |
|---|---|---|
| Cart.LineFor | client/src/hooks/use-cart.tsx:65 | the line found holds that menu item and sits at an index before which no line holds it; none is found exactly when no line holds it |
| Cart.BumpLines | client/src/hooks/use-cart.tsx:68-72 | every line holding the menu item gets the extra quantity; every other line, and the order, is unchanged |
| Cart.AddLineSpec | client/src/hooks/use-cart.tsx:63-85 | `AddLine`: adding an item already held by line k raises exactly that line's quantity by q; every other line is unchanged |
| Cart.AddLineNew | client/src/hooks/use-cart.tsx:74-80 | `AddLine`: an item not yet in the cart becomes exactly one new line at the end, with its quantity |
| Cart.AddLineKeepsUnique | client/src/hooks/use-cart.tsx:63-85 | adding keeps at most one line per menu item |
| Cart.RemoveLinesSpec | client/src/hooks/use-cart.tsx:87-89 | `RemoveLines` keeps exactly the lines with another line id, in order; removing an absent id changes nothing |
| Cart.RemoveLinesKeepsUnique | client/src/hooks/use-cart.tsx:87-89 | removal keeps at most one line per menu item |
| Cart.SetLines | client/src/hooks/use-cart.tsx:94-97 | the lines with that id get the new quantity; every other line is unchanged |
| Cart.UpdateLinesSpec | client/src/hooks/use-cart.tsx:91-98 | `UpdateLines`: a quantity below 1 changes nothing; otherwise only the matching lines change, and the menu items per line are kept |
| Cart.EmptyTotals | client/src/hooks/use-cart.tsx:113-118 | both totals (`SumQuantities`, `SumPrices`) of an empty cart are 0 |
| Cart.SumsAppend | client/src/hooks/use-cart.tsx:113-118 | the totals add up over concatenated carts |
| Cart.BumpLinesSums | client/src/hooks/use-cart.tsx:68-72 | merging q into the line of a menu item raises the item total by q and the price total by q times its price |
| Cart.AddLineTotals | client/src/hooks/use-cart.tsx:63-85 | after adding q of an item, the item total grows by exactly q and the price total by q times the price (together with lines 113-118) |
| Cart.FormatCents | client/src/hooks/use-cart.tsx:135-137 | `toFixed(2)` of an amount: a minus sign exactly for a negative amount, then digits, a point and exactly two digits |
| Cart.FormatCentsReadBack | client/src/hooks/use-cart.tsx:135-137 | the digits before the point read back as the whole units and the two after it as the remaining cents; a negative amount prints as its magnitude after a minus sign |
| Cart.FormatWholeCents | client/src/hooks/use-cart.tsx:135-137 | the printed amount of a non-negative sum has no sign and ends in a point and two digits |
| Cart.FormatCentsInjective | client/src/hooks/use-cart.tsx:135-137 | different non-negative amounts print differently |
| Cart.OrderLinesStep | client/src/hooks/use-cart.tsx:133-136 | the loop's next step appends exactly the next cart line's text, so the lines appear in cart order |
| Cart.CheckoutOutcome | client/src/hooks/use-cart.tsx:120-147 | checkout without a phone fails with the configuration toast; with a phone it opens a `wa.me` link to the digits of the phone carrying the order message |
| Cart.OrderMessageShape | client/src/hooks/use-cart.tsx:131-137 | `OrderMessage` starts with the header and ends with the formatted total of the cart |
| Cart.EmptyCartMessage | client/src/hooks/use-cart.tsx:131-137 | an empty cart still sends the header and a total of 0.00 |
| Cart.CartStore.constructor | client/src/hooks/use-cart.tsx:37-38 | an empty, closed cart |
| Cart.CartStore.AddItem | client/src/hooks/use-cart.tsx:63-85 | the lines become the merge-or-append of the item, and the drawer opens; `TotalItems` grows by the quantity and `TotalPrice` by the quantity times the price of the line it lands in (together with lines 113-118) |
| Cart.CartStore.RemoveItem | client/src/hooks/use-cart.tsx:87-89 | the lines become those with another id; the drawer is unchanged |
| Cart.CartStore.UpdateQuantity | client/src/hooks/use-cart.tsx:91-98 | a quantity below 1 changes nothing; otherwise the lines with that id get it |
| Cart.CartStore.ClearCart | client/src/hooks/use-cart.tsx:101-103 | the cart becomes empty, so `TotalItems` and `TotalPrice` are 0; the drawer is unchanged |
| Cart.CartStore.OpenCart | client/src/hooks/use-cart.tsx:105-107 | the drawer opens and the lines are unchanged |
| Cart.CartStore.CloseCart | client/src/hooks/use-cart.tsx:109-111 | the drawer closes and the lines are unchanged |
| Cart.CartStore.Checkout | client/src/hooks/use-cart.tsx:120-147 | the outcome is the one `CheckoutOutcome` defines for the current lines; the cart is not changed |
| ReservationManagement.FormatPhone | client/src/components/admin/reservation-management.tsx:58-65 | only digits, always starting with 58: the digits with 58 in front exactly when they do not already start with 58, the digits alone otherwise |
| ReservationManagement.FormatPhoneIdempotent | client/src/components/admin/reservation-management.tsx:58-65 | formatting an already formatted phone changes nothing |
| ReservationManagement.WhatsAppUrl | client/src/components/admin/reservation-management.tsx:58-72 | the link is `https://wa.me/` followed by the formatted phone and the encoded message, so it always goes to a number starting with 58 |
| ReservationManagement.CartRecipientLacksCountryCode | client/src/hooks/use-cart.tsx:140-143 | the cart's checkout link goes to the bare digits; it differs from the panel's recipient exactly when the digits do not start with 58 |
| ReservationManagement.GuestsWord | client/src/components/admin/reservation-management.tsx:76 | "persona" for one guest (or fewer), "personas" otherwise |
| ReservationManagement.ConfirmationMessage | client/src/components/admin/reservation-management.tsx:75-77 | the row's WhatsApp message greets the guest by name and ends with the party's size, the word `GuestsWord` picks for it, and the closing |
| ReservationManagement.ConfirmationExtendsConfirmed | client/src/components/admin/reservation-management.tsx:75-83 | the row's message is the "confirmed" status message up to its final full stop, followed by the party's size and the closing |
| ReservationManagement.StatusChangeMessage | client/src/components/admin/reservation-management.tsx:80-89 | the message is empty exactly for a status with no template; every other message greets the customer by name |
| ReservationManagement.StatusBadge | client/src/components/admin/reservation-management.tsx:91-107 | each known status has its own badge; a key of `Object.prototype` gives the blank badge; the pending badge exactly for "pending" or any other status |
| ReservationManagement.PrototypeStatusBlank | client/src/components/admin/reservation-management.tsx:100 | the statuses "constructor", "__proto__" and "toString" draw the blank badge, while an unknown word draws the pending one |
| ReservationManagement.StatusBadgeDistinct | client/src/components/admin/reservation-management.tsx:91-107 | the known statuses carry pairwise different labels |
| ReservationManagement.TabFilterSpec | client/src/components/admin/reservation-management.tsx:125-128 | `TabFilter`: tab "all" lists every reservation; any other tab lists exactly those with that status, in order; nothing before loading |
| ReservationManagement.ReservationPanel.constructor | client/src/components/admin/reservation-management.tsx:110-114 | the "all" tab, nothing selected, both dialogs closed |
| ReservationManagement.ReservationPanel.SelectTab | client/src/components/admin/reservation-management.tsx:215 | only the active tab changes |
| ReservationManagement.ReservationPanel.HandleChangeStatus | client/src/components/admin/reservation-management.tsx:175-179 | the reservation is selected, the picker shows its current status, the status dialog opens |
| ReservationManagement.ReservationPanel.PickStatus | client/src/components/admin/reservation-management.tsx:342 | only the picked status changes |
| ReservationManagement.ReservationPanel.HandleDeleteReservation | client/src/components/admin/reservation-management.tsx:181-184 | the reservation is selected and the delete dialog opens |
| ReservationManagement.ReservationPanel.SetStatusDialogOpen | client/src/components/admin/reservation-management.tsx:329 | the status dialog's open flag follows `onOpenChange`, and "Cancelar" closes it (line 376); nothing else changes |
| ReservationManagement.ReservationPanel.SetDeleteDialogOpen | client/src/components/admin/reservation-management.tsx:388 | the delete dialog's open flag follows `onOpenChange`, and "Cancelar" closes it (line 398); nothing else changes |
| ReservationManagement.ReservationPanel.StatusRequest | client/src/components/admin/reservation-management.tsx:186-190 | an update is sent exactly when a reservation is selected and a status is picked, with that id and status |
| ReservationManagement.ReservationPanel.DeleteRequest | client/src/components/admin/reservation-management.tsx:192-196 | a deletion is sent exactly when a reservation is selected, with its id |
| ReservationManagement.ReservationPanel.EnabledSaveSendsChange | client/src/components/admin/reservation-management.tsx:356 | when Save is enabled, the request carries a status different from the current one, and the preview is shown (together with line 379) |
| ReservationManagement.ReservationPanel.StatusUpdated | client/src/components/admin/reservation-management.tsx:142 | the status dialog closes |
| ReservationManagement.ReservationPanel.ReservationDeleted | client/src/components/admin/reservation-management.tsx:164 | the delete dialog closes |
| ReservationForm.ValidIff | client/src/components/home/reservation-form.tsx:36-48 | the form validates exactly when the name has 3 characters, the e-mail is valid, the phone has 7 characters, a date and time are chosen, and the guests are a number from 1 to 20; `Errors` lists exactly the failing fields |
| ReservationForm.FractionalGuestsAccepted | client/src/components/home/reservation-form.tsx:46 | 2.5 guests pass the schema |
| ReservationForm.TimeAndMessageUnchecked | client/src/components/home/reservation-form.tsx:43-47 | any chosen time string and any message pass, including times outside the offered slots (together with lines 53-56); `TimeSlots` is only what the select offers |
| ReservationForm.DefaultInputInvalid | client/src/components/home/reservation-form.tsx:67-73 | the untouched form reports the name, phone, date and time, but not the guests |
| ReservationForm.SanitizePhone | client/src/components/home/reservation-form.tsx:174-179 | the phone is a prefix of its digits and `-` characters in order, at most 11 long, and all of them when there are at most 11 |
| ReservationForm.SanitizePhoneIdempotent | client/src/components/home/reservation-form.tsx:174-179 | sanitizing twice is sanitizing once |
| ReservationForm.FormatDateRoundTrip | client/src/components/home/reservation-form.tsx:81 | `FormatDate`: the `dd/MM/yyyy` text of a day has at least ten characters and reads back as that day |
| ReservationForm.SubmitBody | client/src/components/home/reservation-form.tsx:88-91 | the posted body is the form data with the date replaced by its formatted text |
| ReservationForm.SelectableRange | client/src/components/home/reservation-form.tsx:231-233 | `DaySelectable`: a day is selectable exactly when it lies between now and three months from now, ends included |
| ReservationForm.ReservationFormState.constructor | client/src/components/home/reservation-form.tsx:61-74 | not submitting, no success, the default values |
| ReservationForm.ReservationFormState.EditForm | client/src/components/home/reservation-form.tsx:136-290 | typing into the fields or picking a day, a time or a party size changes only the values |
| ReservationForm.ReservationFormState.OnSubmit | client/src/components/home/reservation-form.tsx:76-120 | values the schema rejects send nothing and change nothing; otherwise the body sent is `SubmitBody` of the values with their own day formatted, which reads back as that day; an ok response sets success and any other leaves it; submitting ends false |
| ReservationForm.ReservationFormState.ResetAfterSuccess | client/src/components/home/reservation-form.tsx:106-109 | the form returns to its defaults and the success flag clears |
| ReservationForm.FillSubmitReset | client/src/components/home/reservation-form.tsx:76-120 | filled-in values are posted exactly when they validate, with their own day, which reads back from the body; after an ok response and the timer the form is back on its defaults |
| FoodDialog.FoodItemDialog.constructor | client/src/components/food-item-dialog.tsx:26 | the quantity starts at 1 |
| FoodDialog.FoodItemDialog.HandleQuantityChange | client/src/components/food-item-dialog.tsx:29-34 | a parsed value of at least 1 is taken; anything else leaves the quantity unchanged |
| FoodDialog.FoodItemDialog.DecreaseQuantity | client/src/components/food-item-dialog.tsx:36-40 | one less, never below 1 |
| FoodDialog.FoodItemDialog.IncreaseQuantity | client/src/components/food-item-dialog.tsx:42-44 | exactly one more |
| FoodDialog.FoodItemDialog.HandleAddToCart | client/src/components/food-item-dialog.tsx:46-50 | the cart receives the item with the chosen quantity and opens, the dialog closes, and the quantity resets to 1 |
| MenuSection.ShownItemsSpec | client/src/components/home/menu-section.tsx:24-30 | `ShownItems`: a dish is shown exactly when it is available and the tab is "all" or its category; shown dishes keep their order |
| MenuSection.CategoryButtonShows | client/src/components/home/menu-section.tsx:28-30 | after a category's button, a dish is shown exactly when it is available and belongs to that category (together with line 69) |
| MenuSection.MenuSectionState.constructor | client/src/components/home/menu-section.tsx:10 | the "all" tab |
| MenuSection.MenuSectionState.SelectAll | client/src/components/home/menu-section.tsx:56 | the "all" tab |
| MenuSection.MenuSectionState.SelectCategory | client/src/components/home/menu-section.tsx:69 | the tab is the category id as text |
| Dashboard.ComputeStats | client/src/components/admin/dashboard.tsx:36-40 | for loaded lists, the number of dishes, of available and of featured dishes, of categories and of staff; 0 for a list not loaded; the dish counts never exceed the total |
| Dashboard.Slices | client/src/components/admin/dashboard.tsx:46-51 | one slice per category, in order, with that category's name and its number of dishes; `ItemsIn` counts at most every dish, and is 0 exactly when no dish has that category |
| Dashboard.CategoryData | client/src/components/admin/dashboard.tsx:43-53 | no data unless both lists are loaded, and no slice with value 0 |
| Dashboard.CategoryDataSpec | client/src/components/admin/dashboard.tsx:43-53 | a slice is in the chart exactly when it counts a listed category's dishes and is not 0, in category order |
| Dashboard.SumValuesDropsZeros | client/src/components/admin/dashboard.tsx:52 | dropping the empty slices keeps the total of the chart |
| Dashboard.CategoriesOfAtMostOne | client/src/components/admin/dashboard.tsx:47 | with unique category ids a dish is counted under at most one category |
| Dashboard.CategoryDataBounded | client/src/components/admin/dashboard.tsx:43-53 | the slices add up to at most the number of dishes |
| AdminPage.PendingReservationsSpec | client/src/pages/admin-page.tsx:61 | `PendingReservations`: the badge counts exactly the pending reservations, and none before loading |
| AdminPage.SettingValue | client/src/pages/admin-page.tsx:63-67 | the value of the first setting with the key, or "" when the settings are not loaded or the key is missing |
| AdminPage.SettingValueOfStored | client/src/pages/admin-page.tsx:63-67 | with unique keys, the value read is the one stored under the key |
| AdminPage.OrDefault | client/src/pages/admin-page.tsx:69-70 | a non-empty value is kept; the empty one is replaced by the default |
| AdminPage.HeaderNeverEmpty | client/src/pages/admin-page.tsx:69-70 | the header's name and logo are never empty: the defaults stand in for missing or empty values |
| AdminPage.ResolveSection | client/src/pages/admin-page.tsx:72-91 | a first login is sent to the password change; a known section opens in place; anything else goes to the dashboard; the tab is always one of the eight sections |
| AdminPage.AdminPageState.constructor | client/src/pages/admin-page.tsx:48-49 | the dashboard tab and a closed mobile menu |
| AdminPage.AdminPageState.SectionEffect | client/src/pages/admin-page.tsx:72-91 | the tab and location become what `ResolveSection` decides, and the location is kept when it decides no redirect; the mobile menu is unchanged |
| AdminPage.AdminPageState.HandleTabChange | client/src/pages/admin-page.tsx:93-97 | the tab, the matching location, and a closed mobile menu |
| AdminPage.SectionEffectSyncs | client/src/pages/admin-page.tsx:72-91 | run on its own route, the effect leaves the location naming the active tab |
| ProtectedRoute.DecideSpec | client/src/lib/protected-route.tsx:15-42 | `Decide`: the spinner exactly while loading; `/auth` exactly without a user; the password change exactly for a first login off that page; the component otherwise |
| ProtectedRoute.FirstLoginConfined | client/src/lib/protected-route.tsx:33-40 | a first-login user reaches a component only on a path holding the password-change page, and does reach it there |
| ProtectedRoute.RedirectSettles | client/src/lib/protected-route.tsx:33-40 | following the redirect does not redirect again |
| MenuManagement.DefaultItemFormInvalid | client/src/components/admin/menu-management.tsx:78-82 | the empty dish form is refused, and stays refused with only a price or only a category filled in (together with lines 306-318) |
| MenuManagement.ItemForm | client/src/components/admin/menu-management.tsx:291-304 | the edit form holds the dish's own values, its category id as a number, and 0 for a missing category |
| MenuManagement.UncategorisedItemMustPickCategory | client/src/components/admin/menu-management.tsx:80 | a dish without a category cannot be saved unchanged (together with line 299) |
| MenuManagement.FilteredMenuItemsSpec | client/src/components/admin/menu-management.tsx:286-289 | `FilteredMenuItems`: a dish is listed exactly when the lower-cased term occurs in its lower-cased name or description; the empty term lists everything |
| MenuManagement.SearchIgnoresCase | client/src/components/admin/menu-management.tsx:286-289 | a term and its lower-cased form list the same dishes |
| MenuManagement.CategoryName | client/src/components/admin/menu-management.tsx:373-377 | "Sin categoría" for a missing or 0 id, an unloaded list or an unknown id; otherwise the first matching category's name |
| MenuManagement.CategoryNameOfListed | client/src/components/admin/menu-management.tsx:373-377 | with unique ids, a listed category is named by its own name |
| MenuManagement.SubmittedSlug | client/src/components/admin/menu-management.tsx:343-349 | a filled-in slug is kept; an empty one becomes the slug of the name |
| MenuManagement.SubmittedSlugWellFormed | client/src/components/admin/menu-management.tsx:343-349 | a derived slug has only `[a-z0-9_-]` characters and no `--` |
| MenuManagement.ToggleAvailabilityFlips | client/src/components/admin/menu-management.tsx:239-244 | `ToggleAvailabilityPatch`: the switch flips availability and changes nothing else; applied twice it gives the dish back |
| MenuManagement.MenuManagementState.constructor | client/src/components/admin/menu-management.tsx:93-135 | empty search, nothing edited, dialogs closed, and both forms and their reset targets on the `useForm` defaults |
| MenuManagement.MenuManagementState.SetSearchTerm | client/src/components/admin/menu-management.tsx:418 | only the search term changes |
| MenuManagement.MenuManagementState.HandleEditItem | client/src/components/admin/menu-management.tsx:291-304 | the dish is edited, the fields and the reset target hold its values, the dialog opens; the rest is unchanged |
| MenuManagement.MenuManagementState.HandleAddItem | client/src/components/admin/menu-management.tsx:306-319 | nothing edited, the fields and the reset target on the empty values, the dialog open |
| MenuManagement.MenuManagementState.HandleEditCategory | client/src/components/admin/menu-management.tsx:321-328 | the category is edited, its name and slug are in the fields and the reset target, the dialog opens |
| MenuManagement.MenuManagementState.HandleAddCategory | client/src/components/admin/menu-management.tsx:330-337 | nothing edited, the fields and the reset target empty, the dialog open |
| MenuManagement.MenuManagementState.SetItemDialogOpen | client/src/components/admin/menu-management.tsx:624 | the dish dialog's open flag follows `onOpenChange`; nothing else changes |
| MenuManagement.MenuManagementState.SetCategoryDialogOpen | client/src/components/admin/menu-management.tsx:813 | the category dialog's open flag follows `onOpenChange`; nothing else changes |
| MenuManagement.MenuManagementState.HandleItemSubmit | client/src/components/admin/menu-management.tsx:147-158 | a PUT to the edited dish exactly when one is edited, a POST otherwise, with the values unchanged (together with lines 339-341) |
| MenuManagement.MenuManagementState.HandleCategorySubmit | client/src/components/admin/menu-management.tsx:182-193 | a PUT exactly when a category is edited, a POST otherwise, with the submitted slug (together with lines 343-349) |
| MenuManagement.MenuManagementState.HandleNameChange | client/src/components/admin/menu-management.tsx:363-370 | the name follows the input; the slug follows it unless a category with a slug is being edited |
| MenuManagement.MenuManagementState.PickItemToDelete | client/src/components/admin/menu-management.tsx:527 | the trash button makes the dish the one to delete; nothing else changes |
| MenuManagement.MenuManagementState.PickCategoryToDelete | client/src/components/admin/menu-management.tsx:605 | the trash button makes the category the one to delete; nothing else changes |
| MenuManagement.MenuManagementState.HandleDeleteItem | client/src/components/admin/menu-management.tsx:351-355 | the chosen dish's id, and nothing without a choice |
| MenuManagement.MenuManagementState.HandleDeleteCategory | client/src/components/admin/menu-management.tsx:357-361 | the chosen category's id, and nothing without a choice |
| MenuManagement.MenuManagementState.ItemAlertOpenChange | client/src/components/admin/menu-management.tsx:881 | closing the dish alert forgets the dish, opening it keeps it; nothing else changes |
| MenuManagement.MenuManagementState.CategoryAlertOpenChange | client/src/components/admin/menu-management.tsx:909 | closing the category alert forgets the category, opening it keeps it; nothing else changes |
| MenuManagement.MenuManagementState.ItemDeleted | client/src/components/admin/menu-management.tsx:220-227 | after a delete no dish is chosen, so the alert closes; nothing else changes |
| MenuManagement.MenuManagementState.CategoryDeleted | client/src/components/admin/menu-management.tsx:268-275 | after a delete no category is chosen; nothing else changes |
| MenuManagement.MenuManagementState.ItemSaved | client/src/components/admin/menu-management.tsx:159-171 | the dish dialog closes, nothing is edited, and `reset()` puts the fields back to the values of the last `reset(values)` |
| MenuManagement.MenuManagementState.CategorySaved | client/src/components/admin/menu-management.tsx:194-205 | the category dialog closes, nothing is edited, and the fields return to the last reset values |
| MenuManagement.EditThenSaveItem | client/src/components/admin/menu-management.tsx:159-171 | after editing a dish and saving it, the form holds that dish's values (together with lines 291-304) |
| MenuManagement.EditThenSaveCategory | client/src/components/admin/menu-management.tsx:194-205 | after editing a category and saving it, the form holds its name and slug (together with lines 321-328) |
| MenuManagement.PickThenDeleteItem | client/src/components/admin/menu-management.tsx:351-355 | the trash button then the confirm sends the dish's id, and the delete's success leaves no dish chosen (together with lines 527 and 223) |
| MenuManagement.PickThenDeleteCategory | client/src/components/admin/menu-management.tsx:357-361 | the trash button then the confirm sends the category's id, and success leaves none chosen (together with lines 605 and 270) |
| MenuManagement.PickThenCancelItem | client/src/components/admin/menu-management.tsx:881 | cancelling the alert after the trash button leaves nothing to delete (together with lines 351-355) |
| UserManagement.UserFormValidIff | client/src/components/admin/user-management.tsx:54-61 | the form passes exactly with a 3-character username, a 6-character password and a matching confirmation; a mismatch is reported on the confirmation |
| UserManagement.ResetRequest | client/src/components/admin/user-management.tsx:189-196 | a reset is sent exactly when a user is selected and the password is not empty |
| UserManagement.ResetBypassesSchema | client/src/components/admin/user-management.tsx:189-196 | a 3-character password that the schema refuses is still sent as a reset |
| UserManagement.DeletableSpec | client/src/components/admin/user-management.tsx:280 | `Deletable`: every user but "admin" gets a delete button, in order; "admin" never does |
| UserManagement.UserManagementState.constructor | client/src/components/admin/user-management.tsx:65-90 | nothing selected, dialogs closed, the empty form |
| UserManagement.UserManagementState.HandleAddClick | client/src/components/admin/user-management.tsx:164-171 | the empty form in the open add dialog |
| UserManagement.UserManagementState.HandleResetPasswordClick | client/src/components/admin/user-management.tsx:173-176 | the user is selected and the reset dialog opens |
| UserManagement.UserManagementState.HandleDeleteClick | client/src/components/admin/user-management.tsx:178-181 | the user is selected and the delete dialog opens |
| UserManagement.UserManagementState.EditForm | client/src/components/admin/user-management.tsx:424-439 | typing into the fields, such as the reset dialog's password, changes only the form |
| UserManagement.UserManagementState.HandleConfirmDelete | client/src/components/admin/user-management.tsx:183-187 | the selected user's id, and nothing without a selection |
| UserManagement.UserManagementState.HandleResetPassword | client/src/components/admin/user-management.tsx:189-196 | the request `ResetRequest` gives |
| UserManagement.UserManagementState.OnSubmit | client/src/components/admin/user-management.tsx:198-201 | nothing for fields failing the schema; otherwise the typed username and password, without the confirmation (together with line 325) |
| UserManagement.UserManagementState.UserCreated | client/src/components/admin/user-management.tsx:98-106 | the form resets and the add dialog closes |
| UserManagement.UserManagementState.PasswordWasReset | client/src/components/admin/user-management.tsx:122-130 | the selection clears and the reset dialog closes |
| UserManagement.UserManagementState.UserDeleted | client/src/components/admin/user-management.tsx:146-154 | the selection clears and the delete dialog closes |
| UserManagement.ResetAfterTyping | client/src/components/admin/user-management.tsx:189-196 | the reset button, a typed password and "Guardar" send the user's id and that password exactly when it is not empty (together with lines 173-176 and 426) |
| ChangePasswordForm.PasswordFormValidIff | client/src/components/admin/change-password.tsx:30-37 | the form passes exactly with a current password, a 6-character new one and a matching confirmation |
| ChangePasswordForm.SamePasswordAccepted | client/src/components/admin/change-password.tsx:30-37 | a new password equal to the current one passes |
| ChangePasswordForm.ChangePasswordState.constructor | client/src/components/admin/change-password.tsx:45-56 | the empty form, no redirect scheduled |
| ChangePasswordForm.ChangePasswordState.EditForm | client/src/components/admin/change-password.tsx:119-173 | typing into the fields changes only the form |
| ChangePasswordForm.ChangePasswordState.OnSubmit | client/src/components/admin/change-password.tsx:74-79 | nothing is sent while the button is disabled (pending or already succeeded) or when the typed values fail the schema; otherwise the payload is the typed current and new password only (together with lines 118 and 182) |
| ChangePasswordForm.ChangePasswordState.ChangeSucceeded | client/src/components/admin/change-password.tsx:59 | the mutation's success flag is set; the form, the location and the redirect are unchanged |
| ChangePasswordForm.ChangePasswordState.SuccessEffect | client/src/components/admin/change-password.tsx:59-72 | the form is cleared, and a redirect is scheduled exactly on a first login |
| ChangePasswordForm.ChangePasswordState.RedirectTimer | client/src/components/admin/change-password.tsx:65-69 | a scheduled redirect moves to the dashboard |
| ChangePasswordForm.TypeThenSubmit | client/src/components/admin/change-password.tsx:74-79 | typed values are sent exactly when no request is pending and they pass the schema, as the current and new password only (together with line 118) |
| ChangePasswordForm.NoSecondChange | client/src/components/admin/change-password.tsx:59-72 | after a successful change and its effect nothing more is sent, even with the same values typed again, and a first login is redirected (together with line 182) |
| StaffManagement.StaffFormValidIff | client/src/components/admin/staff-management.tsx:53-58 | the form passes exactly with 2-character name and position, a 10-character bio, and a URL or no image |
| StaffManagement.FormValuesFor | client/src/components/admin/staff-management.tsx:88-98 | the selected member's fields, or the empty form without a selection |
| StaffManagement.PrefillRoundTrip | client/src/components/admin/staff-management.tsx:88-98 | saving a member's prefilled form unchanged writes back exactly the member (together with lines 199-204) |
| StaffManagement.StaffManagementState.constructor | client/src/components/admin/staff-management.tsx:64-98 | nothing selected, not editing, dialogs closed, and the fields, defaults and applied values all empty |
| StaffManagement.StaffManagementState.ApplyValues | client/src/components/admin/staff-management.tsx:88-98 | the `values` prop of the selection is applied to the fields and defaults exactly when it differs from the one applied before |
| StaffManagement.StaffManagementState.HandleEditClick | client/src/components/admin/staff-management.tsx:173-176 | the member is selected and editing starts; the fields show the member unless those values were already applied |
| StaffManagement.StaffManagementState.HandleDeleteClick | client/src/components/admin/staff-management.tsx:178-181 | the member is selected and the delete dialog opens |
| StaffManagement.StaffManagementState.HandleAddClick | client/src/components/admin/staff-management.tsx:183-191 | the fields and defaults become empty and the add dialog opens; the selection is kept |
| StaffManagement.StaffManagementState.EditForm | client/src/components/admin/staff-management.tsx:88-98 | typing changes the fields and nothing else |
| StaffManagement.StaffManagementState.HandleConfirmDelete | client/src/components/admin/staff-management.tsx:193-197 | the selected member's id, and nothing without a selection |
| StaffManagement.StaffManagementState.OnSubmit | client/src/components/admin/staff-management.tsx:199-208 | nothing for fields failing the schema; otherwise an update of the selected member with the fields exactly while editing with a selection, a creation of the fields otherwise |
| StaffManagement.StaffManagementState.StaffCreated | client/src/components/admin/staff-management.tsx:106-114 | the fields go back to the defaults and the add dialog closes |
| StaffManagement.StaffManagementState.StaffUpdated | client/src/components/admin/staff-management.tsx:131-139 | no selection and no editing; the empty values are applied if they changed |
| StaffManagement.StaffManagementState.StaffDeleted | client/src/components/admin/staff-management.tsx:155-163 | no selection and the delete dialog closed |
| StaffManagement.StaffManagementState.CloseEditDialog | client/src/components/admin/staff-management.tsx:317-322 | editing stops and the add dialog closes; the selection and the fields are kept |
| StaffManagement.EditCloseAdd | client/src/components/admin/staff-management.tsx:173-191 | after editing a member, closing and pressing Add, saving sends a creation of the empty fields, or nothing as they fail the schema |
| SocialMediaManagement.SocialFormValidIff | client/src/components/admin/social-media-management.tsx:48-53 | the form passes exactly with a name, an icon and a non-empty valid URL |
| SocialMediaManagement.ParsedBody | client/src/components/admin/social-media-management.tsx:52 | `isActive` defaults to true when left out |
| SocialMediaManagement.IconFor | client/src/components/admin/social-media-management.tsx:208-210 | a lower-cased name among the eight keys gets its icon; "__proto__" gives a render error and another inherited key renders nothing; anything else gets the default icon |
| SocialMediaManagement.PrototypeIconsMisrender | client/src/components/admin/social-media-management.tsx:208-210 | "Constructor" renders nothing and "__PROTO__" fails to render, while "Mastodon" gets the default icon and "Facebook" its own |
| SocialMediaManagement.IconForIgnoresCase | client/src/components/admin/social-media-management.tsx:208-210 | the icon does not depend on the case of the name |
| SocialMediaManagement.PatchesSpec | client/src/components/admin/social-media-management.tsx:116-121 | `UpdatePatch`, `TogglePatch`: the edit body rewrites the four fields; the switch's body changes only `isActive` (together with lines 163-167) |
| SocialMediaManagement.EditRoundTrip | client/src/components/admin/social-media-management.tsx:184-193 | editing a link and submitting unchanged rewrites it as it was (together with lines 200-206) |
| SocialMediaManagement.SocialMediaState.constructor | client/src/components/admin/social-media-management.tsx:69-91 | dialogs closed, nothing selected, and the fields and reset target on the `useForm` defaults |
| SocialMediaManagement.SocialMediaState.HandleAddClick | client/src/components/admin/social-media-management.tsx:220-229 | nothing selected, the fields and reset target on the empty values with the default icon, the dialog open |
| SocialMediaManagement.SocialMediaState.HandleEditClick | client/src/components/admin/social-media-management.tsx:184-193 | the link selected, its values in the fields and the reset target, the dialog open |
| SocialMediaManagement.SocialMediaState.HandleDeleteClick | client/src/components/admin/social-media-management.tsx:195-198 | the link selected and the delete dialog open |
| SocialMediaManagement.SocialMediaState.SetDialogOpen | client/src/components/admin/social-media-management.tsx:325 | the edit dialog's open flag follows `onOpenChange`; nothing else changes |
| SocialMediaManagement.SocialMediaState.SetDeleteDialogOpen | client/src/components/admin/social-media-management.tsx:454 | the delete dialog's open flag follows `onOpenChange`; nothing else changes |
| SocialMediaManagement.SocialMediaState.EditForm | client/src/components/admin/social-media-management.tsx:340-418 | typing into the fields changes only the fields |
| SocialMediaManagement.SocialMediaState.OnSubmit | client/src/components/admin/social-media-management.tsx:200-206 | nothing for fields failing the schema; otherwise an update of the selected link exactly with a selection, a creation otherwise, from the typed fields (together with line 339) |
| SocialMediaManagement.SocialMediaState.ConfirmDelete | client/src/components/admin/social-media-management.tsx:473 | the selected link's id, and nothing without a selection |
| SocialMediaManagement.SocialMediaState.SocialCreated | client/src/components/admin/social-media-management.tsx:98-106 | the dialog closes and `reset()` puts back the values of the last `reset(values)` |
| SocialMediaManagement.SocialMediaState.SocialDeleted | client/src/components/admin/social-media-management.tsx:145-153 | the delete dialog closes and the selection clears |
| SocialMediaManagement.SocialMediaState.SocialUpdated | client/src/components/admin/social-media-management.tsx:122-131 | the dialog closes, the selection clears, and `reset()` puts back the last reset values |
| SocialMediaManagement.AddThenCreate | client/src/components/admin/social-media-management.tsx:98-106 | whatever was edited before, a creation after the add button leaves the empty values in the form (together with lines 220-229) |
| SocialMediaManagement.EditThenUpdate | client/src/components/admin/social-media-management.tsx:122-131 | after editing a link and saving it, the form holds that link's values (together with lines 184-193) |
| Utils.ReplaceRuns | client/src/lib/utils.ts:37 | a non-empty text keeps a first character, which is the replacement when the text starts with a matching character; with the lemmas below, runs collapse to one character |
| Utils.ReplaceRunsSeparated | client/src/lib/utils.ts:37 | when the replacement matches, no two neighbours of the result match (together with line 39) |
| Utils.ReplaceRunsNoMatch | client/src/lib/utils.ts:37-39 | with nothing matching, replacing runs changes nothing |
| Utils.Trim | client/src/lib/utils.ts:36 | the result neither starts nor ends with white space |
| Utils.TrimSpec | client/src/lib/utils.ts:36 | the result is a slice of the input with only white space cut off before and after it; it is empty exactly when the input is all white space |
| Utils.SlugifyChars | client/src/lib/utils.ts:32-40 | `Slugify`: a slug has only characters of `[a-z0-9_-]` |
| Utils.SlugifyNoDoubleDash | client/src/lib/utils.ts:32-40 | `Slugify`: a slug never has two `-` in a row |
| Utils.SlugifyIdempotent | client/src/lib/utils.ts:32-40 | `Slugify`: a slug is its own slug |
| Utils.TruncateText | client/src/lib/utils.ts:15-18 | a text that fits is returned as it is; otherwise its first characters and `...` |
| Utils.TruncateTextIdempotent | client/src/lib/utils.ts:15-18 | for a non-negative limit, truncating twice is truncating once |
| Utils.PlaceholderDefault | client/src/lib/utils.ts:21-29 | `PlaceholderImage` without an argument returns the food placeholder |
| Schema.NewUser | shared/schema.ts:7-20 | an inserted user keeps its username and password, is a first login unless stated, and is an admin unless stated |
| Schema.NewMenuItem | shared/schema.ts:41-52 | an inserted dish is available and not featured unless stated, and gets the creation time (together with lines 67-76) |
| Schema.NewSocialMedia | shared/schema.ts:102-110 | an inserted link is active unless stated |
| Schema.NewReservation | shared/schema.ts:135-151 | an inserted reservation is pending unless a status is supplied |
| Schema.ClientStatusAccepted | shared/schema.ts:148-151 | a client can create an already confirmed reservation |
| Schema.StripPassword | api/users.ts:7 | the public user carries every field but the password |
| Schema.StripPasswordHides | api/users.ts:7 | two users differing only in password look the same once stripped |
| Schema.ApplyUserPatch | server/storage.ts:106-113 | each field in the patch is overwritten and each field left out is kept; the id never changes |
| Schema.ApplyMenuItemPatch | server/storage.ts:180-187 | the id and creation time are kept; each of name, description, price, image, ingredients, category, availability and featured is the patch's value when it has one and the old value otherwise |
| Schema.ApplyCategoryPatch | server/storage.ts:213-220 | the id is kept, and the name and slug are overwritten exactly when the patch has them |
| Schema.ApplyStaffPatch | server/storage.ts:241-248 | the id is kept; each of name, position, bio and image is the patch's value when it has one and the old value otherwise |
| Schema.ApplyLocationPatch | server/storage.ts:289-298 | the id is kept; each of address, phone, email, map coordinates and hours is the patch's value when it has one and the old value otherwise |
| Schema.LocationFromPatch | server/storage.ts:299-305 | a patch becomes a new location row exactly when it supplies all five not-null columns, and the row holds the given id and those five values |
| Schema.ApplySocialMediaPatch | server/storage.ts:323-330 | the id is kept; each of name, url, icon and `isActive` is the patch's value when it has one and the old value otherwise |
| Schema.ApplyUserPatchIdempotent | server/storage.ts:106-113 | applying a patch twice is applying it once |
| Schema.UsernameNamesOneUser | shared/schema.ts:9 | in a table keeping its constraints, looking up a user's username finds that user |
| Storage.AvailableMenuSpec | server/storage.ts:147-152 | `AvailableMenu`: the menu lists exactly the available dishes, each as often as stored, featured dishes first |
| Storage.MenuQueriesSpec | server/storage.ts:159-173 | `FeaturedMenu` holds exactly the dishes that are available and featured; `CategoryMenu` those of that category that are available; both keep table order |
| Storage.UpsertSettingSpec | server/storage.ts:264-281 | `UpsertSetting`: the key then reads back the new value; every other key is unchanged; the table grows by one exactly when the key was new |
| Storage.UpsertSettingIdempotent | server/storage.ts:264-281 | writing the same value twice is writing it once |
| Storage.UpsertSettingKeepsOk | server/storage.ts:264-281 | the upsert keeps ids and keys unique |
| Storage.WithSettingKeepsOk | server/storage.ts:264-281 | `WithSetting`, the upsert on the whole database, keeps its invariant and never lowers the id counter |
| Storage.DefaultSlugShape | server/storage.ts:140 | `DefaultSlug`: a default slug has no upper-case letter and no white space |
| Storage.ReplaceRunsDropsRuns | server/storage.ts:140 | replacing runs of white space leaves none |
| Storage.SeedCategoriesSpec | server/storage.ts:136-142 | the loop keeps the constraints and the rows already there; when no slug is taken it appends one category per name, in order, with fresh ids and default slugs; it stops at the first slug that is taken |
| Storage.SeedWithKeepsOk | server/storage.ts:136-142 | for any slug rule, the loop keeps ids and slugs unique and ids below the counter, and never lowers the counter |
| Storage.SeedWithKeepsRows | server/storage.ts:136-142 | for any slug rule, the categories already there stay in front, unchanged |
| Storage.SeedWithAppends | server/storage.ts:136-142 | for any slug rule, a loop that finishes leaves exactly the old categories followed by one row per name in order, with successive ids |
| Storage.DefaultAdmin | server/storage.ts:122-129 | the admin seed: username "admin", the given hash, a first login, the admin role |
| Storage.WithAdminSpec | server/storage.ts:122-129 | the first stage keeps the invariant and makes "admin" find the default admin |
| Storage.WithSeedSettingsSpec | server/storage.ts:132-133 | the second stage keeps the invariant, stores the default name and logo, and touches only the settings and the id counter |
| Storage.WithSeedCategoriesSpec | server/storage.ts:135-142 | the third stage keeps the invariant, keeps the rows already there, and touches only the categories and the id counter |
| Storage.SeedSpec | server/storage.ts:119-144 | `Seed`: the seed keeps the invariant, adds the default admin, stores the default name and logo, keeps the existing categories, and leaves dishes, staff, location and links untouched |
| Storage.DatabaseStorage.constructor | server/storage.ts:86 | an empty database |
| Storage.DatabaseStorage.CreateUser | server/storage.ts:101-104 | a taken username is a violation that changes nothing; otherwise the new user is appended and returned |
| Storage.DatabaseStorage.UpdateUser | server/storage.ts:106-113 | an unknown id is missing; a patch taking another user's name is a violation; otherwise the row is patched in place |
| Storage.DatabaseStorage.DeleteUser | server/storage.ts:115-117 | the users with another id are kept, in order |
| Storage.DatabaseStorage.UpdateSetting | server/storage.ts:264-281 | the database becomes the upsert of the key, and the row stored is returned |
| Storage.DatabaseStorage.InitializeDefaultAdmin | server/storage.ts:119-144 | with an admin present nothing changes; otherwise the database becomes the seed and the result says whether the category loop finished; in every case an admin exists afterwards |
| Storage.DatabaseStorage.InsertCategories | server/storage.ts:136-142 | the categories table and id counter become what `SeedCategories` gives; nothing else changes |
| Storage.DatabaseStorage.CreateMenuItem | server/storage.ts:175-178 | the new dish is appended with a fresh id and returned |
| Storage.DatabaseStorage.UpdateMenuItem | server/storage.ts:180-187 | an unknown id is missing; otherwise the row is patched in place |
| Storage.DatabaseStorage.DeleteMenuItem | server/storage.ts:189-191 | the dishes with another id are kept, in order |
| Storage.DatabaseStorage.CreateCategory | server/storage.ts:208-211 | a taken slug is a violation; otherwise the category is appended |
| Storage.DatabaseStorage.UpdateCategory | server/storage.ts:213-220 | missing, a slug violation, or the row patched in place |
| Storage.DatabaseStorage.DeleteCategory | server/storage.ts:222-224 | the categories with another id are kept |
| Storage.DatabaseStorage.CreateStaffMember | server/storage.ts:236-239 | the member is appended with a fresh id |
| Storage.DatabaseStorage.UpdateStaffMember | server/storage.ts:241-248 | missing, or the row patched in place |
| Storage.DatabaseStorage.DeleteStaffMember | server/storage.ts:250-252 | the members with another id are kept |
| Storage.DatabaseStorage.UpdateLocation | server/storage.ts:289-306 | an existing row is patched; with none, a complete patch inserts one and an incomplete one is a violation; there is never more than one row |
| Storage.DatabaseStorage.CreateSocialMedia | server/storage.ts:318-321 | the link is appended with a fresh id |
| Storage.DatabaseStorage.UpdateSocialMedia | server/storage.ts:323-330 | missing, or the row patched in place |
| Storage.DatabaseStorage.DeleteSocialMedia | server/storage.ts:332-334 | the links with another id are kept |
| Storage.FindByKey | server/storage.ts:87-95 | the `Get*` readers by id find a row exactly when one has the id, and what they find has the id |
| Storage.UpdateReadsBack | server/storage.ts:106-113 | after an update, the lookup by id gives the patched row |
| Storage.FindOwnKey | server/storage.ts:154-157 | with unique ids, the lookup by a row's id finds that row |
| Storage.CreateReadsBack | server/storage.ts:101-104 | after an insert, the lookup by the fresh id gives the new row |
| Storage.DeleteSpec | server/storage.ts:115-117 | after a delete, the id is not found, every row with another id stays, and order is kept |
| Routes.Guard | server/routes.ts:17-25 | 401 exactly without a session user, 403 exactly for a user who is not an admin, and no answer otherwise |
| Routes.GetMenuItemsAsWritten | server/routes.ts:28-45 | the route as written: an admin's request calls a storage method that does not exist and answers 500 |
| Routes.AdminMenuAlwaysFails | server/routes.ts:31-34 | on every database, an admin's request for the menu answers 500 |
| Routes.GetMenuItems | server/routes.ts:28-45 | the corrected route: an admin gets every stored dish, anyone else the available menu |
| Routes.GetMenuItemsSpec | server/routes.ts:28-45 | an admin sees every dish, hidden ones included; the public sees exactly the available dishes |
| Routes.GetFeaturedMenuItems | server/routes.ts:47-54 | 200 with the featured available dishes |
| Routes.GetMenuItem | server/routes.ts:56-67 | 500 for an id that does not parse, 404 for an unknown one, else 200 with the dish of that id |
| Routes.GetSettingByKey | server/routes.ts:204-214 | 404 when the key is missing or holds "", else 200 with the key and its value |
| Routes.GetSocialMedia | server/routes.ts:259-270 | 404 for an unknown id, else 200 with the link of that id |
| Routes.GetUsersAsWritten | server/routes.ts:308-318 | the route as written: admins get the user rows with their passwords |
| Routes.UsersLeakPasswords | server/routes.ts:308-318 | an admin's listing carries every user's password hash |
| Routes.GetUsers | server/routes.ts:308-318 | the corrected route: admins get each user without the password |
| Routes.GetUsersSpec | server/routes.ts:308-318 | the listing has one public user per stored user, in order, and no password |
| Routes.PostMenuItem | server/routes.ts:69-77 | without an admin nothing changes; otherwise 201 with the new dish, which then reads back |
| Routes.PutMenuItem | server/routes.ts:79-92 | guard; 400 for an id that does not parse; 404 for an unknown id; 400 for a body the database refuses, with nothing changed; else 200 with the patched dish, which then reads back |
| Routes.DeleteMenuItem | server/routes.ts:94-102 | guard; 500 for an id that does not parse; otherwise 204 and the dish is gone |
| Routes.PostCategory | server/routes.ts:114-122 | guard; 400 for an invalid body or a taken slug, with nothing changed; otherwise 201 with the new category, which then reads back |
| Routes.PutCategory | server/routes.ts:124-137 | guard; 400 for a bad id, 404 for an unknown one, 400 for a body the database refuses or a slug violation, each with nothing changed; or 200 with the patched category |
| Routes.DeleteCategory | server/routes.ts:139-147 | guard; 500 for a bad id; otherwise 204 and the category is gone |
| Routes.PostStaff | server/routes.ts:159-167 | guard; 400 for an invalid body; otherwise 201 with the new member |
| Routes.PutStaff | server/routes.ts:169-182 | guard; 400 for a bad id, 404 for an unknown one, 400 for a body the database refuses, each with nothing changed; or 200 with the patched member |
| Routes.DeleteStaff | server/routes.ts:184-192 | guard; 500 for a bad id; otherwise 204 and the member is gone |
| Routes.PutSetting | server/routes.ts:216-228 | guard; 400 for a missing or empty value; otherwise the upsert, after which the key reads back with 200 |
| Routes.PutLocation | server/routes.ts:240-247 | guard; 500 for a body the database refuses; 200 with the patched or inserted location, which then reads back; 500 when there is none and the patch is incomplete |
| Routes.PostSocialMedia | server/routes.ts:272-280 | guard; 400 for an invalid body; otherwise 201 with the new link |
| Routes.PutSocialMedia | server/routes.ts:282-295 | guard; 400 for a bad id, 404 for an unknown one, 400 for a body the database refuses, each with nothing changed; or 200 with the patched link |
| Routes.DeleteSocialMedia | server/routes.ts:297-305 | guard; 500 for a bad id; otherwise 204 and the link is gone |
| Routes.PostUser | server/routes.ts:320-345 | guard; 400 for a taken username, and 400 when hashing the password fails, each with nothing changed; otherwise 201 with a first-login admin holding the hash, returned without the password, which the username then finds |
| Routes.NameFreeWhenNotFound | server/routes.ts:327-332 | a username the lookup does not find is free for an insert |
| Routes.NamedUserReadsBack | server/routes.ts:320-345 | after a successful creation the username finds the new user |
| Routes.ResetPassword | server/routes.ts:347-371 | guard; 400 without a password; 500 for a bad id; 404 for an unknown user; else 200 and the user now has the new hash and must change it at next login; `ResetPatch` is that hash with the first-login flag set |
| Routes.DeleteUser | server/routes.ts:373-393 | guard; 500 for a bad id; 404 for an unknown user; 400 for "admin"; otherwise 200 and the user is gone; the "admin" user is never removed |
| Routes.OnlyRowWithId | server/routes.ts:373-393 | with unique ids, the user found by id is the only one the delete removes |
| Auth.ChangePasswordAsWritten | server/auth.ts:11-50 | the handler as written: 401 without a user, and otherwise 500 |
| Auth.ChangePasswordAlwaysFails | server/auth.ts:22 | every authenticated request answers 500 |
| Auth.ChangePassword | server/auth.ts:11-50 | the corrected handler: 401 without a user, 400 for a wrong password, 404 for an unknown user, otherwise 200 with the user holding the new hash and no longer on a first login |
| ApiHandlers.Login | api/login.ts:3-19 | 405 for a method other than POST; 401 for an unknown user; 401 for a password that differs; 200 with the user otherwise |
| ApiHandlers.LoginSpec | api/login.ts:3-19 | login succeeds exactly for a stored username with its stored password, and returns that user |
| ApiHandlers.ChangePassword | api/change-password.ts:3-25 | 405 for a method other than PUT; 404 for an unknown user; 401 for a wrong old password; otherwise the new password is stored as the setting `user:<name>:password`; the users table never changes (`PasswordSettingKey`) |
| ApiHandlers.LoginIgnoresPasswordChange | api/change-password.ts:17 | storing the changed password leaves every login answer as it was: the old password still logs in, and the new one logs in only if it equals the stored one |
| ApiHandlers.Users | api/users.ts:3-33 | GET lists users without passwords; POST gives 400 for a body the database refuses or a taken username and otherwise 201 with the user without its password; DELETE gives 500 when the name is not an id and otherwise 204; any other method 405 |
| ApiHandlers.AdminDeletable | api/users.ts:22-30 | a DELETE naming the admin's id removes the admin user |

## Left out

- I/O is not modelled. This covers the network, `fetch`, toasts, `window.open`, `setTimeout`'s clock, `localStorage` and console logging. A timer firing is a method of its own.
- Time is a parameter: `Date.now()` for line ids and creation times, and "now" for the calendar.
- Library functions the model cannot evaluate are function-typed parameters:
  - `encodeURIComponent`;
  - date-fns formatting of a reservation day;
  - zod's `.email()` and `.url()` checks;
  - password hashing;
  - parsing a route id.
- Prices are whole cents, not floating point. `toFixed(2)` is modelled on whole cents (`Cart.FormatCents`); `formatPrice` (`client/src/lib/utils.ts:8-13`) and its `Intl.NumberFormat` are not modelled.
- `toLowerCase` is modelled for ASCII letters only. Strings are sequences of characters, with no UTF-16 surrogates.
- SQL returns no defined order among dishes with the same `isFeatured` flag. The model keeps table order within each group.
- One id counter serves every table. The database has a serial column per table; the model relies only on ids being unique.
- The database's foreign-key check from a dish to its category (`shared/schema.ts:48`) is not modelled. The database would refuse to delete a category that still has dishes, and the route would answer 500; the model deletes the category and keeps its dishes, which the pages show as "Sin categoría".
- Patches never hold the primary key. A request body that rewrites `id` is not modelled. Any other body the database refuses (a `null` in a NOT NULL column, text in a number column) is one `None` answered by the route's catch; which column refused it is not modelled.
- Some read routes pass a storage result through unchanged, so they have no member of their own:
  - GET categories, staff, settings, location and social-media lists;
  - GET dishes by category;
  - GET a category by slug.
- The login, register, logout and current-user routes are not part of this model. `server/routes.ts:4` and `server/storage.ts:15` import `setupAuth` and `hashPassword` from `./auth`, but `server/auth.ts` defines only `changePassword`. The model takes the hash as a parameter.
- `client/src/components/admin/site-settings.tsx` and the other pages outside the core are not part of this model.
- `ReservationForm.ValidIff`: follows the client schema, which accepts a fractional number of guests such as 2.5. The `guests` column is an integer (`shared/schema.ts:142`), so the model does not promise a whole number.
- `Schema.NewReservation`: follows the insert schema, which keeps a client-supplied status. The column's default of "pending" (`shared/schema.ts:144`) applies only when no status is sent, so the model does not promise that every new reservation is pending.
- `ApiHandlers.ChangePassword`: follows the code, which writes the new password to a setting; `login` never reads that setting.
- `ApiHandlers.Users`: DELETE has no session or admin check in the code, and the model adds none.
- `ApiHandlers.ChangePassword`: the 500 answer at `api/change-password.ts:19-21` is not modelled. No storage call in the model throws.
- `ReservationManagement.StatusChangeMessage`: does not model a key of `Object.prototype`, for which the lookup at `reservation-management.tsx:88` would return an inherited function instead of "". The status select offers only the five statuses (lines 177 and 348-356), so no such key reaches it.
- React's rendering is not modelled. `SocialMediaManagement.IconView` and `ReservationManagement.BlankBadge` name what it shows for each lookup result.
- `StaffManagement.StaffManagementState.ApplyValues`: React Hook Form compares the `values` prop after every render. The model applies it at the end of each handler that changes the selection, which is when the prop can change.
- `Storage.DatabaseStorage.InsertCategories`: a helper that holds the seeding loop of `initializeDefaultAdmin`. It is not a storage method of the source.

## Findings

| source | as written | input that shows it | evidently intended | confidence | as-written member | corrected member |
|---|---|---|---|---|---|---|
| server/routes.ts:31-34 | an admin's GET `/api/menu-items` calls `storage.getAllMenuItems`, which the storage does not define, so the route throws and answers 500 | any signed-in admin requesting the menu | admins get every dish, hidden ones included | not executed | Routes.AdminMenuAlwaysFails | Routes.GetMenuItemsSpec |
| server/routes.ts:308-318 | GET `/api/users` returns the user rows as stored, password hashes included | an admin listing the users of any non-empty table | users listed without passwords, as `api/users.ts:7` does | not executed | Routes.UsersLeakPasswords | Routes.GetUsersSpec |
| server/auth.ts:22 | `changePassword` calls `storage.validatePassword`, which the storage does not define, so every authenticated request reaches the catch and answers 500 | any signed-in user submitting any passwords | 401, 400, 404 or 200 with the updated user | not executed | Auth.ChangePasswordAlwaysFails | Auth.ChangePassword |
