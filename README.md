# Pottery storefront: a Dafny model of its client logic and order-mail function

This project models the logic core of a pottery studio's web shop, written in TypeScript and
React, together with one of its Supabase edge functions. Each source file is one Dafny
module:

- **Carts.** A cart for signed-in visitors (`useCart.tsx`) and a guest cart kept in local
  storage (`useGuestCart.tsx`).
  - Both share the line logic in `CartLines`: add, remove, update a quantity, totals,
    shipping, and migrating a guest cart to a user.
  - Invariant: one line per product or workshop, and every quantity at least 1.
- **Wishlist** (`useWishlist.tsx`): a list of products with unique ids, saved to storage.
- **Order-mail function** (`send-custom-order-email/index.ts`):
  - checks the caller and the request, in a fixed order;
  - sends one of five templated mails;
  - then moves the custom order's status and appends to its log of sent mails.
- **Admin notification bell** (`AdminNotifications.tsx`).
- **Password strength meter** (`PasswordStrengthIndicator.tsx`).
- **Custom order request form** (`CustomOrders.tsx`): required fields and at most five
  reference images.
- **Media page** (`Media.tsx`): category filter, lightbox navigation, and the checks on a
  testimonial video and its upload.
- **Studio virtual tour** (`VirtualTourGallery.tsx`): a fullscreen view stepping through
  six photographs.
- **Admin pages** for custom order requests and corporate inquiries.

**How each kind of source code is modelled**

- **React state holders become classes.** Each of their `useState` variables becomes a
  field. Each handler becomes a method with a `modifies` clause.
- **Pure expressions become functions**, with named results and contracts.
- **Remote calls become parameters.** Every query, insert, update, delete, RPC, storage call
  and SMTP send is an input to the method that awaits it: rows, an error flag, a fresh id
  or a timestamp.
- **The remote calls a handler issues are returned as values**: `RemoteCall`, `Update`,
  `Reply`.
- **JavaScript semantics are written out where they matter:**
  - truthiness of nullable text and numbers (`Truthy`, `PriceGiven`);
  - `%`, whose sign follows the dividend (`JsRem`);
  - `trim` (`Trim`);
  - string length in UTF-16 code units (`Utf16Length`);
  - `Math.ceil` on reals (`Ceil`).

**One divergence between the code and the system's description.** The description says the
order-mail function only ever moves an order's status forward. The code does not look at
the current status. For example, a payment request sent for a delivered order sets it back
to `payment_pending`. The model follows the code, and `OrderEmail.StatusCanMoveBackward`
states the backward move.

## Model

| member | source | states |
|---|---|---|
| Common.Filter | src/hooks/useCart.tsx:292 | `filter` keeps exactly the elements passing the test and never lengthens the list |
| Common.FilterAppend | src/hooks/useCart.tsx:292 | filtering distributes over concatenation, so the kept elements keep their order |
| Common.FilterIdempotent | src/hooks/useGuestCart.tsx:255 | filtering twice with one test is filtering once |
| Common.Count | src/components/admin/AdminNotifications.tsx:56 | `filter(p).length` is at most the length, and 0 exactly when no element passes |
| Common.CountIsFilterLength | src/components/admin/AdminNotifications.tsx:56 | the count equals the length of the filtered list |
| Common.CountAppend | src/components/admin/AdminNotifications.tsx:56 | counting distributes over concatenation |
| Common.CountFilter | src/components/admin/AdminNotifications.tsx:132 | filtering a list never raises the count of any test |
| Common.CountDisjoint | src/pages/admin/AdminCustomOrders.tsx:310-313 | two tests that never hold together count, between them, the elements passing either, and no more than the length |
| Common.OrEmpty | src/pages/admin/AdminCorporateInquiries.tsx:152 | `o \|\| ""` is empty exactly for a null or empty value, else that value |
| Common.NullIfEmpty | src/pages/admin/AdminCustomOrders.tsx:248-252 | `s \|\| null` is null exactly for the empty text |
| Common.NullableTextRoundTrip | src/pages/admin/AdminCustomOrders.tsx:231-253 | a nullable text shown as `o \|\| ""` and saved as `s \|\| null` comes back unchanged, except that a stored "" comes back null; text survives the other order of the two steps |
| Common.JsRem | src/pages/Media.tsx:230-231 | JavaScript `%`: for a non-negative dividend it is the mathematical remainder, else it lies in (-n, 0] |
| Common.TrimStartShape | src/pages/Media.tsx:264 | removes exactly the leading JavaScript white space |
| Common.TrimEndShape | src/pages/Media.tsx:264 | removes exactly the trailing JavaScript white space |
| Common.TrimEmptyIffBlank | src/pages/Media.tsx:264 | `trim()` is empty exactly when every character is white space |
| Common.TrimIdempotent | src/pages/Media.tsx:291-295 | trimming twice is trimming once |
| CartLines.WellFormedAt | src/hooks/useCart.tsx:241-325 | in a well-formed cart, two different positions never share a line id, product id or workshop id |
| CartLines.AllLinesOk | src/hooks/useCart.tsx:241-325 | every line of a well-formed cart has quantity at least 1 and the shape of its type |
| CartLines.WellFormedSnoc | src/hooks/useCart.tsx:274 | appending a line keeps the invariant exactly when the line is valid and clashes with no earlier line |
| CartLines.WellFormedSameKeys | src/hooks/useCart.tsx:249-253 | changing only quantities, to values of at least 1, keeps the invariant |
| CartLines.WellFormedFilter | src/hooks/useCart.tsx:292 | any filtered sub-list of a well-formed cart is well formed |
| CartLines.FindIndex | src/hooks/useCart.tsx:242-245 | `findIndex` returns the first matching line, or -1 exactly when no line matches |
| CartLines.Matches | src/hooks/useCart.tsx:242-245 | a product request matches on the product id, a workshop request on the workshop id; `FindIndex` and `MatchUnique` state what the search finds |
| CartLines.GuestAdd | src/hooks/useCart.tsx:241-276 | the guest add; `GuestAddMeaning`, `GuestAddAt` and `GuestAddNew` state its result, `GuestAddPreservesWellFormed` and `GuestAddTotals` its invariant and totals |
| CartLines.GuestAddAt | src/hooks/useCart.tsx:247-256 | a product whose first matching line is k gets exactly that line raised by one |
| CartLines.GuestAddNew | src/hooks/useCart.tsx:262-276 | a request with no matching line appends the new line |
| CartLines.GuestAddMeaning | src/hooks/useCart.tsx:241-276 | guest add: an existing product's first matching line gets +1, an existing workshop leaves the cart unchanged, and anything else is appended with quantity 1 |
| CartLines.MatchUnique | src/hooks/useCart.tsx:242-245 | in a well-formed cart at most one line matches a valid request |
| CartLines.AddExistingProduct | src/hooks/useCart.tsx:247-256 | adding a product already in the cart raises that line by exactly 1, adds no line, and leaves every other line unchanged |
| CartLines.AddExistingWorkshop | src/hooks/useCart.tsx:257-260 | adding a workshop already in the cart returns the cart unchanged |
| CartLines.GuestAddPreservesWellFormed | src/hooks/useCart.tsx:241-276 | guest add keeps the invariant, for a valid request and an unused fresh id |
| CartLines.Remove | src/hooks/useCart.tsx:291-295 | every line with the id goes, and the rest are kept in order |
| CartLines.RemoveIdempotent | src/hooks/useGuestCart.tsx:254-256 | removing twice is removing once |
| CartLines.RemoveAppend | src/hooks/useGuestCart.tsx:254-256 | removal keeps the order of the remaining lines |
| CartLines.RemovePreservesWellFormed | src/hooks/useCart.tsx:291-295 | removal keeps the invariant |
| CartLines.SetQuantity | src/hooks/useCart.tsx:317-323 | only lines with the id get the new quantity; the others are unchanged |
| CartLines.UpdateQuantity | src/hooks/useCart.tsx:299-325 | a quantity of 0 or less is a removal; otherwise only matching lines change |
| CartLines.UpdateToZeroRemoves | src/hooks/useGuestCart.tsx:258-266 | after an update to 0 or less, no line carries the id |
| CartLines.UpdateQuantityPreservesWellFormed | src/hooks/useCart.tsx:299-325 | updating a quantity keeps the invariant |
| CartLines.UnitPrice | src/hooks/useCart.tsx:347 | the product price if it is non-zero, else the workshop price if it is non-zero, else 0 |
| CartLines.Ceil | src/hooks/useCart.tsx:359 | `Math.ceil`: the least integer not below x |
| CartLines.Total | src/hooks/useCart.tsx:345-350 | `total`, the sum of unit price times quantity; `TotalAppend`, `TotalsAfterQuantityChange` and `GuestAddTotals` state how it moves |
| CartLines.ItemCount | src/hooks/useCart.tsx:362 | `itemCount`, the sum of quantities; `TotalAppend`, `GuestAddTotals` and `ItemCountAtLeastLines` state how it moves and its lower bound |
| CartLines.TotalWeight | src/hooks/useCart.tsx:353-358 | the weight summed over weighted lines; `TotalAppend`, `NoWeightNoShipping` and `ShippingNonNegative` state its properties |
| CartLines.AppendOneTotals | src/hooks/useCart.tsx:345-362 | appending a line of quantity 1 raises the item count by 1 and the total by its unit price |
| CartLines.ExistingLineTotals | src/hooks/useCart.tsx:247-256 | raising an existing product line raises the item count by 1 and the total by its unit price |
| CartLines.NewLineTotals | src/hooks/useCart.tsx:262-276 | appending a new line raises the item count by 1 and the total by its unit price |
| CartLines.ShippingCost | src/hooks/useCart.tsx:352-360 | 100 for each started kilogram of the weighted total |
| CartLines.TotalAppend | src/hooks/useCart.tsx:345-362 | total, item count and weight are additive over concatenation |
| CartLines.TotalsAfterQuantityChange | src/hooks/useCart.tsx:317-323 | changing one line's quantity by d moves the item count by d and the total by d times that line's price |
| CartLines.GuestAddTotals | src/hooks/useCart.tsx:241-276 | every accepted guest add raises the item count by 1 and the total by the unit price |
| CartLines.ItemCountAtLeastLines | src/hooks/useCart.tsx:362 | in a well-formed cart the item count is at least the number of lines |
| CartLines.NoWeightNoShipping | src/hooks/useCart.tsx:352-360 | with no weighted line, shipping is 0 |
| CartLines.ShippingNonNegative | src/hooks/useCart.tsx:352-360 | with non-negative weights and quantities, shipping is a non-negative multiple of 100 |
| CartLines.TwiceAddedPot | src/hooks/useCart.tsx:241-276 | a 500-priced 1.2 kg pot added twice gives one line of 2, a subtotal of 1000 and shipping of 300 |
| CartLines.AddAllExisting | src/hooks/useCart.tsx:247-256 | n adds of a product already in the cart raise its line by n and change nothing else |
| CartLines.RepeatedProductAdds | src/hooks/useCart.tsx:241-276 | n adds of a new product give exactly one line for it, at the end, with quantity n |
| CartLines.SyncInsertions | src/hooks/useCart.tsx:155-167 | the sync inserts exactly the local lines whose product or workshop id is not on the server, in order and with their quantities |
| CartLines.SyncCoversLocal | src/hooks/useCart.tsx:155-179 | after the sync each local product is on the server exactly once |
| CartLines.SameProductAtMostOnce | src/hooks/useCart.tsx:155-167 | a well-formed list holds a product on at most one line |
| CartLines.SyncSkipsKnownProduct | src/hooks/useCart.tsx:155-167 | a guest cart {A, B} synced against a server holding A inserts only B |
| CartLines.OrNull | src/hooks/useCart.tsx:173-174 | `x \|\| null`: an absent or empty id is sent as null |
| CartLines.InsertRowsFor | src/hooks/useCart.tsx:170-177 | one insert row per line, stamped with the session and the user, keeping the line's type and quantity |
| CartLines.GetStoredCart | src/hooks/useCart.tsx:64-71 | a missing or unparsable entry reads back as the empty cart |
| Cart.QuantityCall | src/hooks/useCart.tsx:299-315 | signed in: a quantity of 0 or less deletes the row, anything else updates it |
| Cart.SignedInAdd | src/hooks/useCart.tsx:207-238 | signed in: an existing product is raised through `updateQuantity`, an existing workshop issues nothing, and anything else is inserted with quantity 1 |
| Cart.CartProvider.constructor | src/hooks/useCart.tsx:77-82 | starts empty, signed out and unsynced |
| Cart.CartProvider.AddToCart | src/hooks/useCart.tsx:200-279 | a guest's lines become `GuestAdd` and are saved unless nothing changed; signed in, the lines stay and the call is `SignedInAdd` |
| Cart.CartProvider.RemoveFromCart | src/hooks/useCart.tsx:281-297 | a guest's lines lose the id and are saved; signed in, a delete of that row |
| Cart.CartProvider.UpdateQuantity | src/hooks/useCart.tsx:299-325 | a guest's lines become `UpdateQuantity` and are saved; signed in, the `QuantityCall` |
| Cart.CartProvider.ClearCart | src/hooks/useCart.tsx:327-343 | a guest's cart and storage are emptied; signed in, the lines empty only when the delete succeeds |
| Cart.CartProvider.FetchCart | src/hooks/useCart.tsx:106-141 | signed in, the server rows, or no change on an error; as a guest, the stored cart |
| Cart.CartProvider.AuthStateChange | src/hooks/useCart.tsx:86-95 | signing out clears the sync flag and shows the stored cart again |
| Cart.CartProvider.SyncLocalCartToUser | src/hooks/useCart.tsx:144-189 | a no-op for an empty stored cart, no user, or a done sync; otherwise inserts `SyncInsertions`, drops storage and sets the flag; an exception changes nothing |
| Cart.LoadForUser | src/hooks/useCart.tsx:192-198 | an unsynced signed-in visitor syncs and then fetches; everyone else only fetches |
| Cart.SyncTwice | src/hooks/useCart.tsx:146 | after a successful sync, a second one issues nothing |
| GuestCart.LookupFor | src/hooks/useGuestCart.tsx:182-187 | the lookup column follows the item type, and the value is the product id, or the workshop id when that is blank |
| GuestCart.SessionIdFor | src/hooks/useGuestCart.tsx:178-179 | a stored non-empty session id is kept, else the fresh one is used |
| GuestCart.SessionIdStable | src/hooks/useGuestCart.tsx:178-179 | once a non-empty session id is stored, later reads return it |
| GuestCart.SignedInAdd | src/hooks/useGuestCart.tsx:189-216 | a product found gets quantity+1 on its row, a workshop found issues nothing, an insert happens only when nothing was found, and there is never a delete |
| GuestCart.GuestCartProvider.constructor | src/hooks/useGuestCart.tsx:67-71 | starts empty, loading and unsynced |
| GuestCart.GuestCartProvider.Persist | src/hooks/useGuestCart.tsx:99-103 | once loading is over, storage holds exactly the shown lines |
| GuestCart.GuestCartProvider.Mount | src/hooks/useGuestCart.tsx:93-96 | shows the stored cart (empty if unreadable), ends loading and saves it back |
| GuestCart.GuestCartProvider.AddToCart | src/hooks/useGuestCart.tsx:163-252 | signed in, a session id is ensured, and a lookup and `SignedInAdd` are issued with the local lines unchanged; as a guest, the lines become `GuestAdd`, saved once loading is over unless nothing changed |
| GuestCart.GuestCartProvider.RemoveFromCart | src/hooks/useGuestCart.tsx:254-256 | the lines become `Remove` and stay persisted |
| GuestCart.GuestCartProvider.UpdateQuantity | src/hooks/useGuestCart.tsx:258-266 | the lines become `UpdateQuantity` and stay persisted |
| GuestCart.GuestCartProvider.ClearCart | src/hooks/useGuestCart.tsx:268-271 | the lines are empty; storage is removed, then the save effect writes the empty cart once loaded |
| GuestCart.GuestCartProvider.SyncCartToUser | src/hooks/useGuestCart.tsx:106-154 | a no-op when already synced or empty; otherwise a session id is ensured, `SyncInsertions` is inserted, the lines empty and the flag is set; an exception keeps the lines |
| GuestCart.GuestCartProvider.ShouldAutoSync | src/hooks/useGuestCart.tsx:158 | the auto-sync condition: a user, at least one line and no sync yet; `AutoSync` states that nothing happens without it |
| GuestCart.GuestCartProvider.AutoSync | src/hooks/useGuestCart.tsx:157-161 | without a user, lines or with a sync done, nothing changes; otherwise a session id is ensured and, unless the calls throw, the `SyncInsertions` insert for that user and session is issued and the cart emptied |
| GuestCart.GuestCartProvider.AuthStateChange | src/hooks/useGuestCart.tsx:75-83 | replaces the user; signing out clears the sync flag and keeps the lines |
| GuestCart.SyncThenAutoSync | src/hooks/useGuestCart.tsx:106-161 | after a successful migration the cart is empty and auto-sync issues nothing |
| Wishlist.Stamp | src/hooks/useWishlist.tsx:59 | the new item is the product stamped with `addedAt` |
| Wishlist.Contains | src/hooks/useWishlist.tsx:54 | `some(item => item.id === id)`; `ContainsAfterAddRemove` and the provider's mutators state how it changes |
| Wishlist.Add | src/hooks/useWishlist.tsx:52-62 | an id already present leaves the list unchanged; otherwise exactly one item is appended; the id is then present, and uniqueness is kept |
| Wishlist.Remove | src/hooks/useWishlist.tsx:64-72 | drops every item with the id and keeps exactly the others; an absent id leaves the list unchanged |
| Wishlist.RemoveKeepsOrder | src/hooks/useWishlist.tsx:66 | removal works item by item (over a concatenation it removes from each part, and one item goes exactly when it has the id), so the kept items stay in their order |
| Wishlist.RemoveUniqueLength | src/hooks/useWishlist.tsx:64-72 | for a unique list, removal shortens it by exactly one when the id is present and not at all otherwise |
| Wishlist.RemoveNotice | src/hooks/useWishlist.tsx:67-69 | the notice shows exactly when the list shrank, that is when the id was present |
| Wishlist.ShrinksWhenPresent | src/hooks/useWishlist.tsx:66-69 | when the id is present, removal makes the list shorter (the fact `RemoveNotice` relies on) |
| Wishlist.RemoveIdempotent | src/hooks/useWishlist.tsx:64-72 | removing twice is removing once |
| Wishlist.UniqueFilter | src/hooks/useWishlist.tsx:66 | filtering keeps ids unique |
| Wishlist.RemovePreservesUnique | src/hooks/useWishlist.tsx:64-72 | removal keeps ids unique |
| Wishlist.ContainsAfterAddRemove | src/hooks/useWishlist.tsx:52-76 | `isInWishlist` holds right after add and fails right after remove |
| Wishlist.Toggle | src/components/WishlistButton.tsx:23-32 | the heart button's click removes a present item and adds an absent one (the calls are `Remove` and `Add` of src/hooks/useWishlist.tsx:52-72) |
| Wishlist.ToggleTwice | src/components/WishlistButton.tsx:23-32 | two clicks on a product that was not wished restore the list |
| Wishlist.GetStoredWishlist | src/hooks/useWishlist.tsx:26-33 | a missing or unparsable entry reads as the empty list |
| Wishlist.WishlistProvider.constructor | src/hooks/useWishlist.tsx:39-50 | loads the stored list and saves it back |
| Wishlist.WishlistProvider.AddToWishlist | src/hooks/useWishlist.tsx:52-62 | the list becomes `Add` and stays persisted; the count grows by one exactly when the id was absent, and `isInWishlist` then holds |
| Wishlist.WishlistProvider.RemoveFromWishlist | src/hooks/useWishlist.tsx:64-72 | the list becomes `Remove`, stays persisted, and the notice shows exactly when the id was present; on a unique list the count drops by one exactly then; `isInWishlist` then fails |
| Wishlist.WishlistProvider.ClearWishlist | src/hooks/useWishlist.tsx:78-81 | the list is empty and persisted, and the count is 0 |
| Wishlist.WishlistProvider.ItemCount | src/hooks/useWishlist.tsx:83 | `wishlistCount`; its changes are stated by `AddToWishlist` (+1 exactly for a new id), `RemoveFromWishlist` (-1 exactly for a present id on a unique list) and `ClearWishlist` (0) |
| Wishlist.WishlistProvider.IsInWishlist | src/hooks/useWishlist.tsx:74-76 | `isInWishlist`: holds after `AddToWishlist` of the id and fails after `RemoveFromWishlist` of it |
| OrderEmail.TemplateError | supabase/functions/send-custom-order-email/index.ts:111-117 | an error exactly for a payment request without a truthy price, or a custom mail without a truthy message |
| OrderEmail.Subject | supabase/functions/send-custom-order-email/index.ts:103-189 | the subject of each of the five templates; empty exactly for an unknown type |
| OrderEmail.NextStatus | supabase/functions/send-custom-order-email/index.ts:289-303 | the status table; custom and unknown types keep the current status |
| OrderEmail.StatusCanMoveBackward | supabase/functions/send-custom-order-email/index.ts:289-303 | the new status ignores the current one, so a delivered order can go back to payment_pending |
| OrderEmail.AppendSent | supabase/functions/send-custom-order-email/index.ts:306-310 | the old log (or [] for null) with exactly one entry of that type and time appended |
| OrderEmail.SendAndRecord | supabase/functions/send-custom-order-email/index.ts:264-340 | the mail goes to the order's address with the template's subject; an SMTP failure gives 500 and no update; otherwise 200 with the next status and the log with one entry appended, whether or not the update succeeds |
| OrderEmail.Handle | supabase/functions/send-custom-order-email/index.ts:32-340 | OPTIONS gets a preflight reply; then 401, 401, 403, 500, 404, 400 and 500 in order, each with no mail and no update; an SMTP failure gives 500 with no update; otherwise 200 with the status update and the log append, whether or not the update succeeds |
| Notifications.UnreadCount | src/components/admin/AdminNotifications.tsx:56 | at most the list's length, and 0 exactly when every notification is read |
| Notifications.Ids | src/components/admin/AdminNotifications.tsx:112 | `map(n => n.id)` keeps the length and gives each position's id |
| Notifications.UnreadIds | src/components/admin/AdminNotifications.tsx:112 | one id per unread notification, covering all of them |
| Notifications.UnreadIdsFromUnread | src/components/admin/AdminNotifications.tsx:112 | every id sent belongs to an unread notification |
| Notifications.UnreadIdsInOrder | src/components/admin/AdminNotifications.tsx:112 | the ids are collected row by row (over a concatenation, each part's ids in turn; one row gives its id exactly when unread), so they follow the list's order |
| Notifications.Push | src/components/admin/AdminNotifications.tsx:73 | the new notification goes at index 0, the rest are unchanged, there is no de-duplication, and the unread count grows by one exactly for an unread one |
| Notifications.MarkOne | src/components/admin/AdminNotifications.tsx:105-107 | only the read flag may change, and it is set exactly when the row has the id or was already read |
| Notifications.MarkRead | src/components/admin/AdminNotifications.tsx:105-107 | only rows with the id become read |
| Notifications.MarkReadUnread | src/components/admin/AdminNotifications.tsx:98-108 | the unread count drops exactly by the unread rows with that id, and never grows |
| Notifications.MarkAll | src/components/admin/AdminNotifications.tsx:121 | every row becomes read and the unread count is 0 |
| Notifications.Delete | src/components/admin/AdminNotifications.tsx:132 | removes every row with the id, keeps exactly the others, and never raises the unread count |
| Notifications.DeleteKeepsOrder | src/components/admin/AdminNotifications.tsx:132 | deletion works row by row (over a concatenation it deletes from each part, and one row goes exactly when it has the id), so the kept rows stay in their order |
| Notifications.BadgeFor | src/components/admin/AdminNotifications.tsx:146-154 | hidden at 0, "9+" above 9, otherwise the number |
| Notifications.ConfigFor | src/components/admin/AdminNotifications.tsx:24-50 | each known type's icon; any other type gets the default config |
| Notifications.NotificationFeed.constructor | src/components/admin/AdminNotifications.tsx:53 | the list starts empty |
| Notifications.NotificationFeed.Fetch | src/components/admin/AdminNotifications.tsx:83-96 | an error keeps the list; otherwise the rows, or [] for null |
| Notifications.NotificationFeed.OnInsert | src/components/admin/AdminNotifications.tsx:71-74 | the list becomes `Push` |
| Notifications.NotificationFeed.MarkAsRead | src/components/admin/AdminNotifications.tsx:98-109 | `MarkRead` on success; unchanged on an error |
| Notifications.NotificationFeed.MarkAllAsRead | src/components/admin/AdminNotifications.tsx:111-123 | nothing when no row is unread; otherwise requests the unread ids and, on success, marks all read |
| Notifications.NotificationFeed.DeleteNotification | src/components/admin/AdminNotifications.tsx:125-134 | `Delete` on success; unchanged on an error |
| Notifications.NotificationFeed.ShownBadge | src/components/admin/AdminNotifications.tsx:146-154 | the badge is hidden exactly when every notification is read, and a number shows the unread count |
| Password.Label | src/components/PasswordStrengthIndicator.tsx:7-12 | the four requirement labels, in the listed order; `Indicator` shows one check per label |
| Password.Utf16Length | src/components/PasswordStrengthIndicator.tsx:8 | `length` counts UTF-16 code units, at least one per character |
| Password.ValidatePassword | src/components/PasswordStrengthIndicator.tsx:14-16 | `validatePassword`, every requirement passes; `ValidIffRules`, `ValidIffAllPassed` and `GreenIffValid` state what that means |
| Password.ValidIffRules | src/components/PasswordStrengthIndicator.tsx:7-16 | valid exactly when the length is at least 8 and there is a lowercase letter, an uppercase letter and a digit |
| Password.PassedCount | src/components/PasswordStrengthIndicator.tsx:21 | between 0 and 4 |
| Password.ValidIffAllPassed | src/components/PasswordStrengthIndicator.tsx:14-21 | valid exactly when all four requirements pass |
| Password.StrengthPercent | src/components/PasswordStrengthIndicator.tsx:22 | 25 times the number of requirements passed, at most 100 |
| Password.StrengthColor | src/components/PasswordStrengthIndicator.tsx:24-29 | the bar colour by percentage; `ColorByCount` states it per number of requirements met and its growth with that number |
| Password.ColorByCount | src/components/PasswordStrengthIndicator.tsx:24-29 | 0 or 1 passed is destructive, 2 orange, 3 yellow, 4 green, and the colour rises with the count |
| Password.Indicator | src/components/PasswordStrengthIndicator.tsx:19-63 | nothing exactly for the empty password; otherwise the percentage and one check per requirement |
| Password.GreenIffValid | src/components/PasswordStrengthIndicator.tsx:14-29 | the bar is green exactly for a valid password |
| CustomOrders.SetField | src/pages/CustomOrders.tsx:51-54 | only the named field changes |
| CustomOrders.Take | src/pages/CustomOrders.tsx:62 | `slice(0, n)` is the first min(n, length) elements |
| CustomOrders.RemoveAt | src/pages/CustomOrders.tsx:65-67 | removes exactly the i-th element and keeps the order; an out-of-range i leaves the list unchanged |
| CustomOrders.CustomOrderForm.constructor | src/pages/CustomOrders.tsx:39-48 | a blank form with size "medium" and no images |
| CustomOrders.CustomOrderForm.HandleInputChange | src/pages/CustomOrders.tsx:51-54 | the form becomes `SetField` |
| CustomOrders.CustomOrderForm.SetSize | src/pages/CustomOrders.tsx:340-341 | only the size field changes, to the chosen value |
| CustomOrders.CustomOrderForm.HandleFileChange | src/pages/CustomOrders.tsx:56-63 | a batch that would pass 5 is refused and the list is unchanged; otherwise it is appended in order; the list never exceeds 5 |
| CustomOrders.CustomOrderForm.RemoveImage | src/pages/CustomOrders.tsx:65-67 | the list becomes `RemoveAt` and stays within 5 |
| CustomOrders.CustomOrderForm.HandleSubmit | src/pages/CustomOrders.tsx:69-90 | sent exactly when name, email and usage are filled in; a refusal keeps the form; a send resets it to blank with no images |
| Media.FilteredImages | src/pages/Media.tsx:191-193 | "all" gives every image; otherwise exactly the images of that category |
| Media.Step | src/pages/Media.tsx:228-234 | for n > 0, next and prev stay in [0, n) with their explicit values; with no image the index is not a number (None) |
| Media.StepInverse | src/pages/Media.tsx:228-234 | next then prev, and prev then next, return to the start |
| Media.VideoError | src/pages/Media.tsx:239-246 | accepted exactly for at most 50 MiB and an MP4, WebM or QuickTime type; the size check comes first |
| Media.FileExtensionMeaning | src/pages/Media.tsx:273 | `split('.').pop()` is the text after the last dot, and contains no dot |
| Media.FileExtension | src/pages/Media.tsx:273 | `split('.').pop()`; `FileExtensionMeaning` states that it is the dot-free text after the last dot |
| Media.ExtensionAfterDot | src/pages/Media.tsx:273 | a dot-free text after a dot is read back as the extension |
| Media.StoragePath | src/pages/Media.tsx:273-274 | the storage path `user/stamp.ext`; `StoragePathShape` states its folder and extension |
| Media.StoragePathShape | src/pages/Media.tsx:273-274 | the path lies in the uploader's folder and has the chosen file's extension |
| Media.NullIfBlank | src/pages/Media.tsx:292-295 | null exactly when the trimmed text is empty; otherwise the trimmed text |
| Media.NullIfBlankMeaning | src/pages/Media.tsx:292-295 | null exactly for blank input; the value has no surrounding white space |
| Media.RowForShape | src/pages/Media.tsx:290-298 | the inserted row has the trimmed title, nullable trimmed optional fields, the uploader and `is_approved` false |
| Media.RowFor | src/pages/Media.tsx:290-298 | the row inserted for an upload; `RowForShape` states its fields |
| Media.FailureText | src/pages/Media.tsx:308 | the shown error is never empty: the error's message when it has one, else "Failed to upload video" |
| Media.UploadRefusal | src/pages/Media.tsx:254-267 | refused, with that message, for no user, no video or a blank title, in that order |
| Media.MediaPage.constructor | src/pages/Media.tsx:169-188 | category "all", no lightbox, nothing playing, no video selected |
| Media.MediaPage.Shown | src/pages/Media.tsx:191-193 | the images of the active category; `FilteredImages` states which, and `NavigateLightbox` steps through them |
| Media.MediaPage.OpenLightbox | src/pages/Media.tsx:217-221 | the lightbox shows the image at that index |
| Media.MediaPage.CloseLightbox | src/pages/Media.tsx:223-226 | the lightbox closes and the index is kept |
| Media.MediaPage.NavigateLightbox | src/pages/Media.tsx:228-234 | with images shown, the index becomes `Step` and the shown image is the filtered image at it (none when that index falls outside the list); with no image shown, the image is cleared and the index kept |
| Media.MediaPage.HandleVideoSelect | src/pages/Media.tsx:236-249 | no file changes nothing; a file over 50 MiB or of another type is refused and the selection kept; otherwise it is selected |
| Media.MediaPage.HandleUploadSubmit | src/pages/Media.tsx:251-312 | refusals make no call; otherwise the storage path is `user/stamp.ext`, an upload error stops before the insert, and success resets the form and selection; the category, lightbox and playing video are left alone |
| Media.MediaPage.ToggleVideoPlay | src/pages/Media.tsx:314-320 | the playing id becomes null if it was this video, else this video |
| Media.ToggleTwice | src/pages/Media.tsx:314-320 | two clicks on a video that was not playing start it and stop it, so nothing plays afterwards |
| VirtualTour.NextIndex | src/components/studio/VirtualTourGallery.tsx:81-85 | `(i + 1) % 6`; `StepsInverse`, `StepMod` and `ForwardAround` state its range and wrap-around |
| VirtualTour.PrevIndex | src/components/studio/VirtualTourGallery.tsx:75-79 | `(i - 1 + 6) % 6`; `StepsInverse` states its range, wrap-around and that it undoes `NextIndex` |
| VirtualTour.StepsInverse | src/components/studio/VirtualTourGallery.tsx:75-85 | both steps stay in [0, 6) with their wrap-around values, and undo each other |
| VirtualTour.StepMod | src/components/studio/VirtualTourGallery.tsx:81-85 | one step forward from a remainder mod 6 is the remainder of the next number |
| VirtualTour.ForwardAround | src/components/studio/VirtualTourGallery.tsx:81-85 | k steps forward land at (i + k) mod 6, so six steps return to the start |
| VirtualTour.TourGallery.constructor | src/components/studio/VirtualTourGallery.tsx:61-62 | closed, with autoplay off |
| VirtualTour.TourGallery.OpenFullscreen | src/components/studio/VirtualTourGallery.tsx:64-67 | shows that photograph |
| VirtualTour.TourGallery.CloseFullscreen | src/components/studio/VirtualTourGallery.tsx:69-73 | the index is null and autoplay is off |
| VirtualTour.TourGallery.GoToNext | src/components/studio/VirtualTourGallery.tsx:81-85 | null stays null; otherwise the next index, in range |
| VirtualTour.TourGallery.GoToPrevious | src/components/studio/VirtualTourGallery.tsx:75-79 | null stays null; otherwise the previous index, in range |
| VirtualTour.TourGallery.StartTour | src/components/studio/VirtualTourGallery.tsx:169-172 | index 0, with autoplay on |
| VirtualTour.TourGallery.HandleKey | src/components/studio/VirtualTourGallery.tsx:88-98 | every key is ignored while closed; Escape closes, ArrowLeft goes back, ArrowRight goes forward, and other keys do nothing |
| VirtualTour.TourGallery.AutoplayTick | src/components/studio/VirtualTourGallery.tsx:101-109 | advances only with autoplay on and the view open |
| VirtualTour.TourLoops | src/components/studio/VirtualTourGallery.tsx:101-109 | six ticks after starting the tour come back to the first photograph |
| AdminCustomOrders.TemplatesKnown | src/pages/admin/AdminCustomOrders.tsx:69-75 | every template the panel offers has a subject line in the order-mail function |
| AdminCustomOrders.StatsFor | src/pages/admin/AdminCustomOrders.tsx:309-314 | a list not yet loaded counts 0 everywhere; each group is at most the total |
| AdminCustomOrders.StatsWithinTotal | src/pages/admin/AdminCustomOrders.tsx:310-313 | Pending, In Progress and Delivered together never exceed the total |
| AdminCustomOrders.IndexFrom | src/pages/admin/AdminCustomOrders.tsx:143 | the first occurrence of the separator at or after a position, or none |
| AdminCustomOrders.ImagePath | src/pages/admin/AdminCustomOrders.tsx:143-145 | none exactly when the marker does not occur |
| AdminCustomOrders.ImagePathOfUrl | src/pages/admin/AdminCustomOrders.tsx:143-145 | a URL of the form prefix + marker + path, with no other occurrence, gives that path back |
| AdminCustomOrders.ImageDeletion | src/pages/admin/AdminCustomOrders.tsx:141-160 | no marker fails before any call; a storage failure stops before the row update; otherwise the list written back is `KeptImages`: every copy of the URL leaves it, and only those copies |
| AdminCustomOrders.KeptImages | src/pages/admin/AdminCustomOrders.tsx:153 | the URL is gone, every other image stays, and the length drops by the URL's number of copies |
| AdminCustomOrders.KeptImagesInOrder | src/pages/admin/AdminCustomOrders.tsx:153 | the filter works image by image (over a concatenation it filters each part, and one image stays exactly when it is not the URL), so the kept images stay in their order |
| AdminCustomOrders.FilterCountsRest | src/pages/admin/AdminCustomOrders.tsx:153 | filtering a URL out shortens the list by its number of copies |
| AdminCustomOrders.AlreadySent | src/pages/admin/AdminCustomOrders.tsx:582 | `emails_sent?.some(e => e.type === template)`; `SentAfterSend` states that a send makes it true and never makes it false |
| AdminCustomOrders.SentAfterSend | src/pages/admin/AdminCustomOrders.tsx:582 | after the function logs a template its "Sent" badge shows, and no badge disappears |
| AdminCustomOrders.PrepareEmail | src/pages/admin/AdminCustomOrders.tsx:180-209 | skipped without a selection or type; refused for a payment request without a price or a blank custom message; the message is sent only for custom |
| AdminCustomOrders.PageChecksCoverFunction | src/pages/admin/AdminCustomOrders.tsx:180-188 | a body the page posts always passes the function's template checks for the same row |
| AdminCustomOrders.EditFor | src/pages/admin/AdminCustomOrders.tsx:231-243 | the edit fields show null notes and date as "" and keep status and price |
| AdminCustomOrders.UpdateFrom | src/pages/admin/AdminCustomOrders.tsx:245-255 | empty notes and date are saved as null |
| AdminCustomOrders.SaveUneditedKeeps | src/pages/admin/AdminCustomOrders.tsx:231-255 | saving an unedited request writes its own values back, with a stored "" turned into null |
| AdminCustomOrders.AdminCustomOrdersPage.constructor | src/pages/admin/AdminCustomOrders.tsx:79-89 | nothing selected, with empty fields |
| AdminCustomOrders.AdminCustomOrdersPage.OpenDetail | src/pages/admin/AdminCustomOrders.tsx:231-243 | selects the request, fills `EditFor`, clears the mail panel and opens the dialog |
| AdminCustomOrders.AdminCustomOrdersPage.HandleUpdate | src/pages/admin/AdminCustomOrders.tsx:245-255 | nothing without a selection; otherwise issues `UpdateFrom` and closes the dialog |
| AdminCustomOrders.AdminCustomOrdersPage.DeleteImage | src/pages/admin/AdminCustomOrders.tsx:141-170 | the result is `ImageDeletion`; on success the open request shows the new list when it is the one changed |
| AdminCustomOrders.AdminCustomOrdersPage.SendEmail | src/pages/admin/AdminCustomOrders.tsx:180-229 | refusals change nothing; a post clears the panel on success, reports the reply's error (or a default) on failure, and always ends not sending |
| CorporateInquiries.FindOption | src/pages/admin/AdminCorporateInquiries.tsx:142 | `find` gives the first option with the value, or none exactly when none has it |
| CorporateInquiries.StatusBadge | src/pages/admin/AdminCorporateInquiries.tsx:141-144 | the listed colour of a known status, else the muted colour |
| CorporateInquiries.MenuValuesDistinct | src/pages/admin/AdminCorporateInquiries.tsx:51-59 | no two status options share a value |
| CorporateInquiries.RequestTypeLabel | src/pages/admin/AdminCorporateInquiries.tsx:61-65 | the label of a known request type, else the raw type |
| CorporateInquiries.FilteredInquiries | src/pages/admin/AdminCorporateInquiries.tsx:146-148 | "all" gives every inquiry; otherwise exactly those with the status; a list not loaded stays absent |
| CorporateInquiries.FilterKeepsOrder | src/pages/admin/AdminCorporateInquiries.tsx:146-148 | the filter keeps the original order |
| CorporateInquiries.FilterTwice | src/pages/admin/AdminCorporateInquiries.tsx:146-148 | filtering twice is filtering once |
| CorporateInquiries.CorporateInquiriesPage.constructor | src/pages/admin/AdminCorporateInquiries.tsx:68-70 | no inquiry open, empty notes, filter "all" |
| CorporateInquiries.CorporateInquiriesPage.SetFilter | src/pages/admin/AdminCorporateInquiries.tsx:175 | the filter becomes the chosen status, which `FilteredInquiries` then applies |
| CorporateInquiries.CorporateInquiriesPage.OpenDetail | src/pages/admin/AdminCorporateInquiries.tsx:150-153 | selects the inquiry and shows null notes as "" |
| CorporateInquiries.CorporateInquiriesPage.CloseDetail | src/pages/admin/AdminCorporateInquiries.tsx:265 | closing the dialog leaves no inquiry open |
| CorporateInquiries.CorporateInquiriesPage.ChangeStatus | src/pages/admin/AdminCorporateInquiries.tsx:388-392 | issues the status update and changes only the open inquiry's status |
| CorporateInquiries.CorporateInquiriesPage.SaveNotes | src/pages/admin/AdminCorporateInquiries.tsx:375-378 | saves the notes exactly as typed for the open inquiry |
| CorporateInquiries.CorporateInquiriesPage.DeleteInquiry | src/pages/admin/AdminCorporateInquiries.tsx:123-139 | a successful delete closes the dialog; a failed one keeps it |

## Left out

- **Supabase I/O.** Every query, insert, update, delete, RPC, storage call, realtime
  subscription and `getSession` is a parameter or a returned value. Network failures
  beyond the flags modelled are not represented.
- **Time, ids and randomness.** `crypto.randomUUID`, `Date.now` and `new Date()` are passed
  in as parameters.
- **React.**
  - Effect scheduling, batching of state updates and concurrency between awaited calls are
    not modelled.
  - Each handler runs to completion on the state it starts from.
  - Toasts, `console` output, dialogs' open flags that only drive rendering, query
    invalidation and all JSX are left out.
- **Numbers.**
  - Prices are integers, and weights and the estimated price are reals.
  - JavaScript floating-point rounding, `parseFloat`, `toString` and NaN are not
    reproduced.
  - `AdminCustomOrders.EditData`'s price field holds the parsed number, or None for the
    empty field, instead of its text.
- **Stored JSON** is read as absent, unparsable or a list. A parsable non-array value is not
  distinguished.
- **The server-side limit of 30 notifications** on the fetch is the server's concern; the
  model takes whatever rows arrive.
- **Order-mail function.**
  - The HTML bodies of the mails are left out; the model keeps the recipient and the
    subject.
  - CORS headers are left out.
  - A request whose `emailType` is missing reaches the template switch like an unknown
    type.
  - The exception path around a failed `req.json()` is the only thrown error modelled.
- **Lookup tables keyed by arbitrary strings.** `Notifications.ConfigFor` and
  `CorporateInquiries.RequestTypeLabel` do not model JavaScript's inherited object keys
  (such as `constructor`): a type named like a prototype member would read a function, not
  the fallback.
- **Cart.CartProvider** leaves out the `loading` flag. It only drives rendering.
- **Cart.CartProvider.AddToCart, signed in.** `AddToCart` returns the one call it makes and
  relies on the next fetch for the new lines. The chained `updateQuantity` call is returned
  as that call.
- **Media.Step**: navigation with no image divides by zero in JavaScript and yields NaN.
  The model returns None there.
- **Media.MediaPage.NavigateLightbox**: where JavaScript would store NaN as
  `lightboxIndex` (no image shown), the method keeps the old index and clears the image.
  An index stepped outside the list (reachable only from an index the page never sets) is
  stored as JavaScript stores it, with no image.
- **Media.MediaPage** leaves out the video list fetch, the dialog's own open and close
  events (`onOpenChange`) and `document.body.style.overflow`. Closing the dialog after a
  successful upload is modelled.
- **Presentation.** The virtual tour's photographs and captions, the corporate page's
  display-only columns, and the custom order page's display-only columns and inline status
  change pass values through unchanged and are not modelled.
