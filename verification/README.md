# A verified model of the shop backend

This project models the behaviour of an Express and Mongoose shop backend in Dafny and proves
properties of whole runs of it: paging, orders and stock, accounts and tokens, presence and rate
limits, the Apple key encoder, the catalogue, chat, saved addresses, idempotency and escaping.

Each MongoDB collection is a map or a sequence, each request handler is one atomic step, time is an
integer that each request carries, and money is in pence. Where the source updates objects or rows in
place there is a class (`ShopService`, `AuthService`, `Store`, `SavedAddresses`, `Conversations`,
`ChatRateLimit`, `PresenceHandlers`, `IdempotencyMiddleware`) whose methods follow the source step by
step; each is proved equal to a specification function on the abstract state, and the laws are
lemmas about runs of those functions. The verdicts of signature checks and
of the payment provider, and random codes, are inputs of a step; a password matches when it equals
the stored one. SHA-256 is taken to be injective and each `jti` to be new.

`dafny verify dfyconfig.toml` checks everything.

| file | contents |
|---|---|
| `Common.dfy` | Option, Result and integer helpers |
| `Pagination.dfy`, `PageOrder.dfy`, `CursorWalk.dfy`, `FieldWalk.dfy` | one page; the order of its rows; a client that follows `nextCursor` by `_id`; the same by other fields |
| `Listings.dfy` | the product and brand lists: lookups by name, and their page metadata |
| `Orders.dfy`, `OrderLaws.dfy`, `OrderInvariants.dfy`, `Payments.dfy`, `StockConservation.dfy`, `CartLaws.dfy`, `Tracking.dfy`, `LampShop.dfy`, `OrderStore.dfy` | cart, checkout and payment: the steps, their laws, a small shop for worked runs, the services |
| `Accounts.dfy`, `Lockout.dfy`, `Rotation.dfy`, `Onboarding.dfy`, `AccountLaws.dfy`, `TokenRows.dfy`, `SignIn.dfy`, `Sessions.dfy`, `AuthStore.dfy` | accounts and tokens: the steps, their laws, two accounts followed step by step, the services |
| `Presence.dfy`, `RateLimit.dfy` | the realtime handlers |
| `Base64.dfy`, `Der.dfy` | the JWK to PEM encoder and a reader for it |
| `Slugs.dfy`, `SlugLaws.dfy`, `Attributes.dfy`, `Catalogue.dfy`, `CatalogueLaws.dfy`, `CatalogueCases.dfy`, `CatalogueStore.dfy` | categories, brands, products, facets: the steps and their laws, worked runs, the services |
| `Addresses.dfy`, `Chat.dfy`, `Idempotency.dfy`, `Escaping.dfy` | the smaller components |

Where the code differs from its documentation the model follows the code: logging out revokes no
refresh token (`Rotation.LogoutRevokesNothing`), and neither changing the password nor asking for
another code revokes anything (`Rotation.NothingElseRevokes`). Properties that one might expect and
that fail are stated with an input at which they fail and the exact condition under which they
hold: a cursor walk by a field other than `_id`, orders paid only on a final transaction and only on
one of their own, one order per transaction, orders that never go back to an earlier status, stock
that stays at or above zero, a product whose brand is in its category, a product found under its
category and brand, brand rows that add up, completed accounts that are approved, lists that agree
with the plugin, locks deleted only by their own request, and the sign of a key's modulus. The counter helpers of
`auth.service.ts` (lines 89 and 96) read `user.id` on plain rows that only carry `_id`; the model
takes the user's id there, as meant.

## Model

| member | source | states |
|---|---|---|
| `Pagination.ToSafeLimit` | src/infrastructure/database/plugins/paginate.plugin.ts:12 | a page size is always 1 to 100, and one in that range is kept |
| `Pagination.OffsetPagesTile` | src/infrastructure/database/plugins/paginate.plugin.ts:38-65 | pages 1..totalPages laid end to end are the whole filtered, sorted list |
| `PageOrder.OffsetPageInOrder` | src/infrastructure/database/plugins/paginate.plugin.ts:17-65 | the rows of an offset page never have a smaller value before a greater one when the sort text is `-field`, missing values last; never a greater before a smaller for `field`; newest first for no text |
| `PageOrder.AllPagesInOrder` | src/infrastructure/database/plugins/paginate.plugin.ts:17-65 | all pages laid end to end are exactly the matching documents in that order |
| `Pagination.OffsetMetaExact` | src/infrastructure/database/plugins/paginate.plugin.ts:52-63 | `hasNextPage` holds exactly when a row with index >= page*limit exists; `total` is the length of the list |
| `Pagination.ListMetaAgrees` | src/modules/products/product.service.ts:226-237 | past the early return, the metadata the product and brand lists compute by hand equals the plugin's for every total, page and limit |
| `Listings.SelectedIffNamesExist` | src/modules/products/product.service.ts:148-179 | the product list goes past its early return if and only if the category it names exists and a brand with one of the titles is in it |
| `Listings.ListFindsAskedIff` | src/modules/products/product.service.ts:148-179 | what the list finds is among the products whose own category and brand have the names asked for, and is all of them if and only if not both are asked for or each such product's brand is in its category |
| `Listings.MovedBrandHidesProduct` | src/modules/products/product.service.ts:164-167 | after a run that moves a brand, its product is not found under its category and brand |
| `Listings.ProductListAgreesIff` | src/modules/products/product.service.ts:148-237 | the product list, `emptyResult` included, answers with the plugin's metadata for what it finds if and only if the names asked for exist or the page is the first |
| `Listings.BrandListAgreesIff` | src/modules/brands/brand.service.ts:70-101 | the same for the brand list, which looks up its category |
| `Listings.UnknownCategoryPageTwo` | src/modules/products/product.service.ts:153-155 | page 2 of a category nobody has: the list says there is no previous page, the plugin says there is |
| `Listings.DefaultPages` | src/modules/products/product.service.ts:124-125 | without parameters the first page, of 8 products or of 12 brands |
| `Pagination.PaginateCursor` | src/infrastructure/database/plugins/paginate.plugin.ts:67-110 | one cursor call is the first `limit` rows of the query the cursor gives, with the look-ahead row deciding `hasNext` and the next cursor, or a cast error |
| `PageOrder.CursorPageInOrder` | src/infrastructure/database/plugins/paginate.plugin.ts:67-110 | a cursor page comes in the order its sort text asks for, newest first without one |
| `PageOrder.HasNextIff` | src/infrastructure/database/plugins/paginate.plugin.ts:92-109 | on the first call `hasNext` holds if and only if a matching document is not on the page |
| `CursorWalk.RowsMeaning` | src/infrastructure/database/plugins/paginate.plugin.ts:87-90 | the rows are sorted, are exactly the matching documents, and repeat no id |
| `CursorWalk.CursorConditionReplaces` | src/infrastructure/database/plugins/paginate.plugin.ts:75-84 | a cursor's condition keeps all other conditions and drops the one the filter had on the sort field |
| `CursorWalk.WalkNeverRepeats` | src/infrastructure/database/plugins/paginate.plugin.ts:67-109 | by `_id`, in either direction, with rows inserted and deleted between calls, no document is returned twice |
| `CursorWalk.WalkMissesNothing` | src/infrastructure/database/plugins/paginate.plugin.ts:67-109 | every document present at each call is returned by a walk that finished |
| `CursorWalk.QuietWalkIsWholeList` | src/infrastructure/database/plugins/paginate.plugin.ts:67-109 | on a fixed collection of n rows the pages concatenate to the whole list in exactly max(1, ceil(n/limit)) calls |
| `CursorWalk.NextRemaining` | src/infrastructure/database/plugins/paginate.plugin.ts:78-100 | the next call sees exactly the rows that this call left over |
| `FieldWalk.NextCallReachesRestIff` | src/infrastructure/database/plugins/paginate.plugin.ts:81-100 | by any field but `_id`, every row left over stays reachable if and only if the boundary rows and the last one have the field and, for numbers, the boundary values differ and the last one returned is not zero, or, for dates (the default order), the first row left over lies beyond the last returned one cut to its second |
| `FieldWalk.NextCallRepeatsIff` | src/infrastructure/database/plugins/paginate.plugin.ts:81-100 | a row already returned stays reachable if and only if the order ascends by a date whose last value is not at a whole second |
| `FieldWalk.EachRowOnceIff` | src/infrastructure/database/plugins/paginate.plugin.ts:67-110 | a client that follows the cursors by such a field gets the whole sorted list, each row once, if and only if every page boundary is clean |
| `FieldWalk.WalkEndsIff` | src/infrastructure/database/plugins/paginate.plugin.ts:67-110 | the walk ends if and only if the first page's last row has the field and, ascending by a date, no page length of rows lies within one second, past its start, with more rows to come |
| `FieldWalk.TiesAreLost` | src/infrastructure/database/plugins/paginate.plugin.ts:81-100 | two rows of one price, one a page: the walk ends with the first row alone |
| `FieldWalk.SameSecondIsLost` | src/infrastructure/database/plugins/paginate.plugin.ts:72 | in the default order, two rows of one second, one a page: the walk ends with the newer row alone |
| `FieldWalk.OldestFirstNeverEnds` | src/infrastructure/database/plugins/paginate.plugin.ts:96-100 | oldest first, rows at 1.5 s and 2.5 s, one a page: no number of calls ends the walk |
| `OrderStore.ShopService.Add` | src/modules/cart/cart.service.ts:31-51 | adds to the line or makes one, within the stock of a product on sale; a refusal changes nothing |
| `OrderStore.ShopService.UpdateQty` | src/modules/cart/cart.service.ts:53-77 | sets the quantity within stock, or removes the line below one |
| `OrderStore.ShopService.Remove` | src/modules/cart/cart.service.ts:79-84 | removes exactly the user's line of the product |
| `OrderStore.ShopService.Clear` | src/modules/cart/cart.service.ts:86-88 | no line of the user is left, every other line is there as often as before, and in the same order |
| `OrderStore.ShopService.WithinStock` | src/modules/orders/order.service.ts:109-113 | the loop accepts exactly the lists whose every line is within stock |
| `OrderStore.SumOf` | src/modules/orders/order.service.ts:125 | the subtotal is the sum of price times quantity |
| `OrderInvariants.SubtotalAdds` | src/modules/orders/order.service.ts:125 | that sum of some items and more is the sum of both, and one item's is its price times its quantity |
| `OrderStore.ShopService.Checkout` | src/modules/orders/order.service.ts:103-205 | creating the order first and deleting it when payment cannot start equals one step that leaves everything unchanged on refusal |
| `OrderStore.ShopService.DecrementStock` | src/modules/orders/order.service.ts:289-293 | the loop of `$inc` updates equals the recursive decrement of the product map |
| `OrderStore.ShopService.MarkPaidWithViva` | src/modules/orders/order.service.ts:295-310 | an unpaid order is paid, its stock taken and the cart cleared; a paid one is left alone |
| `OrderStore.ShopService.Lookup` | src/modules/orders/order.service.ts:208-220 | the lookups one after another equal the one precedence rule |
| `OrderStore.ShopService.Confirm` | src/modules/orders/order.service.ts:207-264 | looks the order up by id, code, then transaction; success means the order is the caller's and paid |
| `OrderStore.ShopService.FulfillFromVivaWebhook` | src/modules/orders/order.service.ts:266-287 | pays the first order with the code when the event is final or has no status |
| `OrderStore.ShopService.UpdateStatusByAdmin` | src/modules/orders/order.service.ts:46-73 | writes status, shipping details (only when on the way) and invoice of that order only |
| `OrderStore.ShopService.UpdateInvoiceByAdmin` | src/modules/orders/order.service.ts:75-83 | writes the invoice of that order only |
| `OrderStore.ShopService.ConfirmReceivedByUser` | src/modules/orders/order.service.ts:85-101 | only the owner, and only from on-the-way to delivered |
| `Orders.Looked` | src/modules/orders/order.service.ts:208-224 | an id that exists wins, then the first order with the code, then the first with the transaction; none means nothing matches |
| `OrderInvariants.CheckoutTakesTheCart` | src/modules/orders/order.service.ts:103-205 | a checkout adds one unpaid order that holds, product by product, the units of the shopper's cart on sale, at today's name and price, with the fee waived from the threshold on; nobody else's cart changes |
| `OrderInvariants.CheckoutSucceedsIff` | src/modules/orders/order.service.ts:104-113 | checkout succeeds if and only if some line is on sale, every such line is within stock and payment could start |
| `OrderInvariants.RunAddsUp` | src/modules/orders/order.service.ts:125-169 | in every reachable state each order's total is the sum of price times quantity plus its fee, and each cart has one line per product with quantity at least one |
| `CartLaws.NextCartQty` | src/modules/cart/cart.service.ts:31-88 | after any request, how many units of any product any user has in the cart: a checkout or a payment leaves nothing in the cart of the order's own user, an add gives the sum, an update the new number, a removal none, each within its checks, and nothing else changes |
| `CartLaws.CartIsOnesOwn` | src/modules/cart/cart.service.ts:31-88 | over any run in which nothing is the user's own cart request, checkout or payment, the cart of that user stays as it was |
| `CartLaws.CartRequestOkIff` | src/modules/cart/cart.service.ts:31-84 | a cart request succeeds if and only if it sets the quantity and the line to change or remove is there |
| `CartLaws.ConfirmOkIff` | src/modules/orders/order.service.ts:207-264 | a confirmation succeeds if and only if it settles an order: its payment is accepted, or it was paid |
| `CartLaws.CartRefusals` | src/modules/cart/cart.service.ts:31-77 | which check refuses an add or an update, in terms of what the user holds |
| `CartLaws.CheckoutRefusals` | src/modules/orders/order.service.ts:104-113 | an empty cart, too little stock or a payment that cannot start, in this order |
| `CartLaws.ConfirmRefusals` | src/modules/orders/order.service.ts:207-264 | no order, somebody else's, or not paid |
| `Tracking.NextTracked` | src/modules/orders/order.service.ts:46-101 | after any request, the status, shipping details, invoice, payment date and transaction of every order |
| `Tracking.GoesBackIff` | src/modules/orders/order.service.ts:302 | an order goes back to an earlier status if and only if an admin sets it so or it is paid after it was sent |
| `Tracking.SentThenPaid` | src/modules/orders/order.service.ts:302 | bought, sent by an admin, then paid: the order is PENDING again |
| `Tracking.DeliveredWas` | src/modules/orders/order.service.ts:85-101 | every order delivered in a run was set so by an admin or received by its owner while on the way |
| `Tracking.TrackingRefusals` | src/modules/orders/order.service.ts:46-101 | a request about an order after checkout fails if and only if there is no such order, it is not the user's, or it is not on the way |
| `Tracking.NextCatalogueAndDelivery` | src/modules/orders/order.service.ts:289-310 | only an admin changes the catalogue and the delivery prices; a payment takes exactly the units of its order from each product |
| `OrderLaws.DecrementedMeaning` | src/modules/orders/order.service.ts:289-293 | each product loses exactly its units in the order; no other field, product or key changes |
| `OrderLaws.RunExtends` | src/modules/orders/order.service.ts:46-310 | orders are never lost; owner, items, amounts and code never change, nor the date and transaction once paid |
| `OrderLaws.RunKeepsCatalogue` | src/modules/orders/order.service.ts:289-310 | runs that mix selling with administration keep the catalogue's integrity |
| `OrderLaws.FacetsExactWhileSelling` | src/modules/products/product.service.ts:243-287 | facets stay exact over runs that mix selling with administration |
| `StockConservation.NewlyPaidIsGrowth` | src/modules/orders/order.service.ts:295-310 | units in orders that became paid equal the growth of the paid quantity |
| `StockConservation.StepConserves` | src/modules/orders/order.service.ts:207-310 | a step that does not write a product's stock keeps stock plus paid units |
| `StockConservation.StockIsLastWriteLessPaid` | src/modules/orders/order.service.ts:207-310 | in every reachable state a live product's stock is the last value a create or update wrote less its units in orders that became paid since |
| `Payments.BecomesPaidIffAccepted` | src/modules/orders/order.service.ts:230-287 | a step makes an unpaid order paid if and only if it is a payment of that order that the service accepts, which need not mean that money arrived |
| `Payments.PaidSince` | src/modules/orders/order.service.ts:295-310 | every order paid in a run became paid at one step of it, by a payment accepted there |
| `Payments.PaidWithoutFinalIff` | src/modules/orders/order.service.ts:258-284 | an order becomes paid with no transaction that Viva reports as final if and only if its owner confirms with nothing but its own code, or a webhook about it has status `F` or none and names no transaction or one that is not final |
| `Payments.PaidOnlyOnFinalIff` | src/modules/orders/order.service.ts:236-287 | over any run, orders become paid only on transactions that Viva reports as final if and only if no step is such an unverified payment of an unpaid order |
| `Payments.OwnCodePays` | src/modules/orders/order.service.ts:186-191 | a shopper sends back the code that checkout gave out and the order is paid |
| `Payments.StatuslessWebhookPays` | src/modules/orders/order.service.ts:282-284 | a webhook without a status pays any unpaid order it names, whatever transaction it names |
| `Payments.WebhookWordIsTaken` | src/modules/orders/order.controller.ts:71-73 | a run in which a webhook that only says `F`, of no transaction or of one that is not final, pays an order: Viva is not asked |
| `Payments.PaidWithoutOwnIff` | src/modules/orders/order.service.ts:238-241 | an order becomes paid without a final transaction of its own code if and only if the payment is unverified, or its transaction is final under a code other than the order's |
| `Payments.PaidOnlyOnOwnIff` | src/infrastructure/viva/viva.service.ts:224-229 | over any run, orders become paid only by final transactions of their own code if and only if no step pays an unpaid order unverified or by such a foreign transaction |
| `Payments.OtherOrdersTransactionPays` | src/modules/orders/order.service.ts:238-241 | one shopper confirms with the final transaction of another shopper's order, and the first's order is paid |
| `Payments.StepKeepsOnceIff` | src/modules/orders/order.service.ts:238-241 | a step keeps every transaction on at most one order if and only if it accepts none that an order already carries |
| `Payments.TransactionsOnceIff` | src/modules/orders/order.service.ts:238-241 | the same over any run |
| `Payments.OneTransactionPaysTwo` | src/modules/orders/order.service.ts:236-242 | one final transaction pays two orders of one shopper |
| `Payments.NewOrdersAreUnpaid` | src/modules/orders/order.service.ts:154-169 | an order made in a step is unpaid and pending |
| `Payments.RepeatedPaymentsAreIdle` | src/modules/orders/order.service.ts:230-233 | any mix of further confirmations and webhooks about a paid order changes no product and no order |
| `StockConservation.PaymentKeepsNoDebtIff` | src/modules/orders/order.service.ts:289-293 | marking an unpaid order paid keeps every stock at or above zero if and only if every live product had the units ordered |
| `StockConservation.StepKeepsNoDebtIff` | src/modules/orders/order.service.ts:207-310 | an event of any kind keeps every stock at or above zero if and only if the order that becomes paid in it, if any, has enough stock |
| `StockConservation.RunKeepsNoDebtIff` | src/modules/orders/order.service.ts:207-310 | stock stays at or above zero throughout a run if and only if every order has enough stock when it becomes paid |
| `StockConservation.LastUnitSoldTwice` | src/modules/orders/order.service.ts:109-113 | two shoppers buy the last unit, each order is paid by a final transaction of its own, and the stock ends at -1 |
| `AuthStore.AuthService.CreateToken` | src/modules/token/token.service.ts:17-31 | stores a hashed token unless the unique index already has it |
| `AuthStore.AuthService.ValidateToken` | src/modules/token/token.repository.ts:40-58 | true exactly for a stored row, not blacklisted and not expired |
| `AuthStore.AuthService.RevokeToken` | src/modules/token/token.repository.ts:60-71 | blacklists that row only |
| `AuthStore.AuthService.RevokeAllByUser` | src/modules/token/token.repository.ts:73-83 | blacklists every row of the user and type, whatever the order of the updates |
| `AuthStore.AuthService.IssueTokenPair` | src/modules/auth/auth.service.ts:145-162 | stores one new refresh row and answers with its token |
| `AuthStore.AuthService.IncrementFailedAttempts` | src/modules/auth/auth.service.ts:82-93 | adds one, and locks from the threshold on |
| `AuthStore.AuthService.ResetFailedAttempts` | src/modules/auth/auth.service.ts:95-97 | sets the counter to zero and removes the lock |
| `AuthStore.AuthService.AssertUserIsApproved` | src/modules/auth/auth.service.ts:271-311 | lets admins and approved members through; an unverified member is sent a code and refused |
| `AuthStore.AuthService.Register` | src/modules/auth/auth.service.ts:384-493 | makes an account or revives the deleted one, revoking its tokens; the partial unique index may refuse it |
| `AuthStore.AuthService.Login` | src/modules/auth/auth.service.ts:495-528 | the checks in order, the failure counted, and the state left behind by each refusal |
| `AuthStore.AuthService.LoginWithMobileSocial` | src/modules/auth/auth.service.ts:328-382 | makes or updates the account, then the approval check, then tokens |
| `AuthStore.AuthService.RefreshTokens` | src/modules/auth/auth.service.ts:567-596 | spends one active refresh token for a new one |
| `AuthStore.AuthService.Logout` | src/modules/auth/auth.service.ts:598-605 | looks the access token up among the refresh rows |
| `AuthStore.AuthService.ForgotPassword` | src/modules/auth/auth.service.ts:607-647 | resets the counter, revokes earlier reset codes and stores one |
| `AuthStore.AuthService.VerifyResetCode` | src/modules/auth/auth.service.ts:649-696 | a wrong code is counted; a right one revokes every reset code |
| `AuthStore.AuthService.ChangePassword` | src/modules/auth/auth.service.ts:698-722 | changes the password only, after the old one matched |
| `AuthStore.AuthService.SetPassword` | src/modules/auth/auth.service.ts:833-853 | changes the password and revokes every refresh row of the user |
| `AuthStore.AuthService.ResendOtp` | src/modules/auth/auth.service.ts:724-750 | counts an attempt and stores another code |
| `AuthStore.AuthService.VerifyEmailAddress` | src/modules/auth/auth.service.ts:752-799 | a wrong code is counted; a right one verifies, writes the step and revokes the codes |
| `AuthStore.AuthService.CompleteProfile` | src/modules/auth/auth.service.ts:801-831 | puts a live account under review unless onboarding is complete |
| `AuthStore.AuthService.ApproveUser` | src/modules/user/user.service.ts:213-240 | approves a live member once |
| `AuthStore.AuthService.DeclineUser` | src/modules/user/user.service.ts:242-269 | puts a live member back under review, with the reason |
| `AuthStore.AuthService.DeleteById` | src/modules/user/user.service.ts:117-120 | marks a live account deleted and inactive |
| `AuthStore.AuthService.UpdateById` | src/modules/user/user.repository.ts:89-100 | rewrites that account only if it is live, else answers none and changes nothing |
| `AuthStore.AuthService.UpdateAnyUser` | src/modules/user/user.repository.ts:153-160 | rewrites that account whether it is deleted or not |
| `Accounts.FindLive` | src/modules/user/user.repository.ts:113-121 | finds a live account with the email, or there is none |
| `Accounts.FindAny` | src/modules/user/user.repository.ts:123-131 | finds an account with the email, deleted or not, or there is none |
| `SignIn.IssuedIff` | src/modules/auth/auth.service.ts:495-605 | any request answers with tokens if and only if it signs an account in, and then with the next refresh token of that account |
| `SignIn.LoginIssuesIff` | src/modules/auth/auth.service.ts:495-528 | email and password sign an account in if and only if neither is blank, the live account with that email has that password, is not locked or blocked, signs in locally, and is an admin or verified, approved and completed |
| `SignIn.LoginRefusals` | src/modules/auth/auth.service.ts:495-528 | why a login is refused: a locked account says so whatever the password, and blocked, other provider, unverified or under review come out only for the right password |
| `SignIn.LoginOfNobody` | src/modules/auth/auth.service.ts:495-504 | a blank, or no live account with the email |
| `SignIn.SocialIssuesIff` | src/modules/auth/auth.service.ts:530-565 | a provider's word signs an account in if and only if the live account with that email is the provider's, not blocked, and an admin or verified (now or before), approved and completed |
| `SignIn.SocialRefusals` | src/modules/auth/auth.service.ts:530-565 | why it is refused otherwise |
| `SignIn.RefreshIssuesIff` | src/modules/auth/auth.service.ts:567-596 | a refresh answers with tokens, those of the account in the token, if and only if the token is a genuine refresh token whose row is stored, not revoked and not expired, and that account is live and not blocked |
| `SignIn.RefreshRotates` | src/modules/auth/auth.service.ts:593-594 | the new token's row is good for the whole lifetime, the old row is revoked, and no other row and no account changes |
| `SignIn.RefreshRefusals` | src/modules/auth/auth.service.ts:567-592 | a refused refresh says blocked for a good token of a blocked account, invalid otherwise, and changes nothing |
| `SignIn.IssuedTokenAcceptedIff` | src/modules/auth/auth.service.ts:567-596 | over any run, a refresh token that was given out is accepted later, in time, if and only if no step between revoked its row and its account is live and not blocked |
| `SignIn.SentCodeWorksIff` | src/modules/auth/auth.service.ts:607-696 | over any run, a reset code that was sent is right later, in time, if and only if no step between revoked it and the account is live and not locked |
| `SignIn.LoginNeedsLastPassword` | src/modules/auth/auth.service.ts:508-512 | whoever logs in to an account made in the run gave the last password written for it |
| `SignIn.DoneIff` | src/modules/auth/auth.service.ts:384-853 | every other request is answered with success if and only if its conditions hold |
| `SignIn.EmailRefusals` | src/modules/auth/auth.service.ts:607-799 | why a forgotten password, a resend or an email verification is refused |
| `SignIn.ReviewRefusals` | src/modules/user/user.service.ts:213-269 | why a request about an account by id is refused |
| `SignIn.PasswordRefusals` | src/modules/auth/auth.service.ts:698-722 | a change without the current password, or with a wrong one |
| `SignIn.RegisterRefusals` | src/modules/auth/auth.service.ts:384-493 | a registration with the email of a live account never goes through |
| `AccountLaws.NextAccount` | src/modules/auth/auth.service.ts:384-853 | after any request, every field of every account that neither the lockout counter nor the review decides, and the step written |
| `AccountLaws.NextFresh` | src/modules/auth/auth.service.ts:328-493 | a request makes an account exactly when nobody has the email, and then an active member with the given email, password and provider, not approved |
| `AccountLaws.PasswordIsLastWritten` | src/modules/auth/auth.service.ts:698-853 | in every reachable state the password of an account made in the run is the last one written: by its making, a change that gave the current one or was a reset, a reset, or its registration again |
| `TokenRows.NextRow` | src/modules/token/token.repository.ts:40-83 | after any request, the row under every key: the refresh token of who is signed in, the code sent, the rows revoked, the expired rows swept, and all others as they were |
| `TokenRows.KeysDiffer` | src/modules/token/token.service.ts:17-31 | every code and every refresh token has a row of its own |
| `Lockout.NextMovesGuard` | src/modules/auth/auth.service.ts:70-97 | every step changes each account's counter and lock exactly as counted failures and resets say |
| `Lockout.LockedMeansInert` | src/modules/auth/auth.service.ts:506 | against a locked account login, both code checks, resend and forgotten password are refused and change nothing |
| `Lockout.FailuresAreBounded` | src/modules/auth/auth.service.ts:82-97 | between two resets, in any span T, at most maxFailedAttempts + floor(T / lockDuration) failures are counted over login, email verification, reset code and resend |
| `Rotation.NextMoves` | src/modules/token/token.service.ts:17-73 | every step either adds the one refresh row it answers with, or adds and reactivates none |
| `Rotation.RunKeepsTokensOk` | src/modules/auth/auth.service.ts:145-162 | every refresh row holds a refresh token of its own user, signed earlier |
| `Rotation.DeadStaysDead` | src/modules/token/token.repository.ts:60-83 | a refresh token blacklisted or gone is never active again |
| `Rotation.AcceptedAtMostOnce` | src/modules/auth/auth.service.ts:567-596 | in any run each refresh token is accepted at most once |
| `Rotation.RunKeepsChains` | src/modules/auth/auth.service.ts:593-594 | every run keeps at most one live token on each chain of rotated tokens |
| `Rotation.OneLiveTokenPerLogin` | src/modules/auth/auth.service.ts:567-596 | of the tokens that descend from one login at most one is not revoked |
| `Rotation.NoEarlierTokenAfterReset` | src/modules/auth/auth.service.ts:833-846 | after a password reset, or registration of the deleted account, no refresh token issued before is accepted |
| `Rotation.RunKeepsOneResetCode` | src/modules/auth/auth.service.ts:622-631 | no user ever has two reset codes that are not revoked |
| `Rotation.LogoutRevokesNothing` | src/modules/auth/auth.service.ts:598-605 | in every reachable state logging out changes nothing |
| `Rotation.NothingElseRevokes` | src/modules/auth/auth.service.ts:698-750 | changing the password and asking for another code leave every stored token as it was |
| `Onboarding.NextReview` | src/modules/auth/auth.service.ts:752-831 | only the step-writing operations touch an account's review, and only approval writes APPROVED |
| `Onboarding.RunKeepsComplete` | src/modules/user/user.service.ts:222-230 | APPROVED implies completed onboarding in every reachable state |
| `Onboarding.ApprovedIffLastWriteApproved` | src/modules/user/user.service.ts:213-269 | an account made in the run is APPROVED if and only if the last operation that wrote its step was an approval |
| `Onboarding.TokensNeedApproval` | src/modules/auth/auth.service.ts:271-292 | a login gives a member tokens only when verified, approved, live, not blocked and of that strategy |
| `Onboarding.TokensFollowApproval` | src/modules/auth/auth.service.ts:514-527 | every login that gives tokens follows an approval with no later decline, registration, profile submission or verification |
| `Onboarding.VerifyingUndoesApprovalIff` | src/modules/auth/auth.service.ts:774-784 | an approved account stays completed but loses its approval in a step if and only if an email verification goes through |
| `Onboarding.CompletedNotApprovedIff` | src/modules/auth/auth.service.ts:752-831 | in every reachable state an account made in the run is completed but not approved if and only if it was approved and its step was written since, by email verifications only |
| `Onboarding.RunKeepsEmails` | src/modules/user/user.model.ts:171 | no two live accounts share an email |
| `Sessions.SessionEndsWithReset` | src/modules/auth/auth.service.ts:384-853 | a member can register, verify, be approved and log in, and the token of that login is refused once the password is reset |
| `Sessions.VerifyingUndoesApproval` | src/modules/auth/auth.service.ts:774-784 | a member approved before verifying ends under review and completed |
| `Presence.PresenceHandlers.OnConnection` | src/infrastructure/realtime/socket.handlers.ts:61-92 | adds the socket; announces the user exactly when it had none |
| `Presence.PresenceHandlers.OnDisconnect` | src/infrastructure/realtime/socket.handlers.ts:271-284 | removes the socket; drops and announces the user exactly when it was the last |
| `Presence.PresenceIsExact` | src/infrastructure/realtime/socket.handlers.ts:38-92 | after any run the keys are exactly the users with a live socket, each set is exactly its sockets, and every observer's folded list equals the keys |
| `Presence.RunKeepsExact` | src/infrastructure/realtime/socket.handlers.ts:38-92 | the same as an invariant from any exact state, with no stored set empty |
| `Presence.AnnouncedIff` | src/infrastructure/realtime/socket.handlers.ts:61-92 | in every reachable state a connect is announced if and only if the user had no live socket, a disconnect if and only if it was the last one |
| `RateLimit.ChatRateLimit.Check` | src/infrastructure/realtime/socket.handlers.ts:42-58 | moves the window and counts as specified; accepts while the count is within 120 |
| `RateLimit.SlidingBound` | src/infrastructure/realtime/socket.handlers.ts:49-57 | any interval of `span` ms holds at most 120 * (span / 60001 + 2) - 1 accepted messages, whatever came before |
| `RateLimit.AtMost239` | src/infrastructure/realtime/socket.handlers.ts:34-58 | any interval of 60000 ms holds at most 239 accepted messages |
| `RateLimit.Reaches239` | src/infrastructure/realtime/socket.handlers.ts:34-58 | 239 is reached |
| `RateLimit.RefusedOnlyOverLimit` | src/infrastructure/realtime/socket.handlers.ts:42-58 | a message is refused only when at least 121, itself included, were sent in the last 60000 ms |
| `Base64.HexRoundTrip` | src/modules/auth/strategies/apple.strategy.ts:52-64 | reading hexadecimal undoes writing it |
| `Base64.Base64RoundTrip` | src/modules/auth/strategies/apple.strategy.ts:44-50 | decoding undoes both alphabets, padded or not |
| `Base64.LetterIsOfTable` | src/modules/auth/strategies/apple.strategy.ts:65 | the letters are those of table 1 of RFC 4648 |
| `Base64.EncodedLength` | src/modules/auth/strategies/apple.strategy.ts:65 | every three bytes, or what is left, take four characters |
| `Der.LengthRoundTrip` | src/modules/auth/strategies/apple.strategy.ts:72-84 | a reader that insists on the shortest form reads every length back and stops right after it |
| `Der.LengthToHex` | src/modules/auth/strategies/apple.strategy.ts:72-84 | the shifting loop writes exactly the length octets |
| `Der.TlvRoundTrip` | src/modules/auth/strategies/apple.strategy.ts:59-62 | a tag, length and value is read back with the rest untouched |
| `Der.DerRoundTrip` | src/modules/auth/strategies/apple.strategy.ts:59-64 | the bytes are one SEQUENCE of two INTEGERs with exactly the given contents and nothing left over (ITU-T X.690; RFC 8017 appendix A.1.1) |
| `Der.KeyOctets` | src/modules/auth/strategies/apple.strategy.ts:55-62 | the octets are 0x30, a length and twice 0x02, a length and the content |
| `Der.PublicKeyHex` | src/modules/auth/strategies/apple.strategy.ts:52-62 | the hexadecimal text assembled denotes those bytes |
| `Der.LinesRoundTrip` | src/modules/auth/strategies/apple.strategy.ts:67-69 | joining the lines gives the text back, and all lines but the last have 64 columns |
| `Der.PemRoundTrip` | src/modules/auth/strategies/apple.strategy.ts:64-69 | a PEM reader gets back exactly the two octet strings |
| `Der.PemText` | src/modules/auth/strategies/apple.strategy.ts:69 | the text starts and ends with the literal boundary lines |
| `Der.JwkToPem` | src/modules/auth/strategies/apple.strategy.ts:48-70 | the text built reads back as the modulus and exponent the JWK carries |
| `Der.JwkKeyRecovered` | src/modules/auth/strategies/apple.strategy.ts:48-70 | end to end from URL-safe base64 |
| `Der.SignReadsRightIff` | src/modules/auth/strategies/apple.strategy.ts:59 | with no 0x00 pad octet the INTEGER read equals the unsigned value if and only if the first octet is below 0x80, else it is negative |
| `Der.SignThroughPemIff` | src/modules/auth/strategies/apple.strategy.ts:48-70 | the same of the modulus that a reader of the whole PEM text gets |
| `Der.ModulusReadsNegative` | src/modules/auth/strategies/apple.strategy.ts:48-70 | a JWK with modulus 128 reads back as -128 |
| `Slugs.SlugifyIsSlug` | src/modules/products/product.service.ts:71-76 | a slug is empty or words of [a-z0-9] joined by single dashes |
| `Slugs.SlugifyIdempotent` | src/modules/products/product.service.ts:71-76 | slugifying a slug changes nothing |
| `SlugLaws.SlugifyIsWords` | src/modules/products/product.service.ts:71-76 | the slug is the words of the text in lower case, in order, joined by single dashes |
| `SlugLaws.BaseSlugIsWords` | src/modules/products/product.service.ts:78-79 | and `product` for a text without a word |
| `SlugLaws.TrimMeaning` | src/modules/products/product.service.ts:54 | trimming takes all white space off both ends and nothing else |
| `SlugLaws.SpacesAre` | src/modules/products/product.service.ts:54 | white space is that of ECMAScript |
| `Slugs.FirstFreeIsFree` | src/modules/products/product.service.ts:78-91 | the slug chosen is the first candidate not taken |
| `Slugs.UniqueSlug` | src/modules/products/product.service.ts:78-91 | the loop ends after at most one check more than there are taken slugs, with a well-formed slug that is free |
| `Attributes.SchemaIffLocked` | src/modules/category/category.constants.ts:10-14 | a category name has an entry of its own in the attribute schema if and only if it is locked |
| `Attributes.LockedNames` | src/modules/category/category.constants.ts:3-14 | the locked names are these four, whatever their case and surrounding white space |
| `Attributes.SanitizeAttributes` | src/modules/products/product.service.ts:51-69 | the loop reports the first field that fails |
| `Attributes.SanitizeMeaning` | src/modules/products/product.service.ts:51-69 | it succeeds if and only if the category is not called `constructor` and every field has one of its options, and keeps exactly the schema's keys, trimmed |
| `Attributes.CountField` | src/modules/products/product.service.ts:270-284 | one pass of increments gives each option's count |
| `Attributes.CountBrands` | src/modules/products/product.service.ts:256-267 | one pass of increments gives each brand's count |
| `Attributes.CountsAddUp` | src/modules/products/product.service.ts:270-286 | when every product has an option the option counts add up to the products |
| `Attributes.BrandRowsSumIff` | src/modules/products/product.service.ts:262-267 | counts of brands listed once each add up to the products if and only if every product's brand is listed |
| `Catalogue.BuildFacets` | src/modules/products/product.service.ts:243-287 | brand rows, one set of rows per schema field and the total, all counted over the same products; it throws exactly for the two names whose lookup finds something inherited |
| `Catalogue.AttachProductCounts` | src/modules/brands/brand.service.ts:31-54 | each brand listed gets the true number of its products, zero when the aggregate has no group for it |
| `Catalogue.IntegrityMakesFacetsExact` | src/modules/products/product.service.ts:270-286 | facets are exact in every state with integrity |
| `CatalogueLaws.BrandFacetExact` | src/modules/products/product.service.ts:256-267 | each brand row has a brand of the category and the true number of its products there, only the active ones when asked for those |
| `Catalogue.FacetsExactOverRuns` | src/modules/products/product.service.ts:243-287 | in every reachable state each option count is the true number of products and the counts add up to `_total` |
| `Catalogue.ProductRowIsGood` | src/modules/products/product.service.ts:289-328 | a row that passes the checks has existing references, a matching brand, a free SKU and slug and fitting attributes |
| `CatalogueLaws.ProductRowIff` | src/modules/products/product.service.ts:289-328 | the checks pass if and only if category and brand exist and belong together, the category takes products, the SKU is free and every field of the schema is given; the row then holds the payload trimmed, the first free slug and the schema's attributes only |
| `CatalogueLaws.ProductRefusals` | src/modules/products/product.service.ts:289-328 | which check refuses a product |
| `CatalogueLaws.NextProduct` | src/modules/products/product.service.ts:289-393 | the product under every id after any operation |
| `CatalogueLaws.NextCategory` | src/modules/category/category.service.ts:30-92 | the category under every id after any operation |
| `CatalogueLaws.CategoryRefusals` | src/modules/category/category.service.ts:30-92 | which check refuses it |
| `CatalogueLaws.NextBrand` | src/modules/brands/brand.service.ts:117-181 | the brand under every id after any operation |
| `CatalogueLaws.BrandRefusals` | src/modules/brands/brand.service.ts:117-181 | which check refuses it |
| `CatalogueLaws.NextIds` | src/modules/category/category.service.ts:30-44 | only a creation that succeeds uses up an id |
| `Catalogue.RunKeepsIntegrity` | src/modules/category/category.service.ts:30-92 | over any run references exist, names, SKUs and slugs stay distinct, and attributes fit |
| `Catalogue.LockedCategoriesStay` | src/modules/category/category.service.ts:30-92 | no run renames, removes or creates a locked category, under any id |
| `Catalogue.BrandRowsAddUpIff` | src/modules/products/product.service.ts:256-286 | the brand rows add up to `_total` if and only if the brand of every product counted is in the category |
| `Catalogue.MovingBrandKeepsMatchIff` | src/modules/brands/brand.service.ts:138-164 | moving a brand keeps brand and product categories equal if and only if all its products are in the new one |
| `Catalogue.OtherOpsKeepMatch` | src/modules/products/product.service.ts:302-304 | no other operation breaks it |
| `Catalogue.BrandsMatchThroughoutIff` | src/modules/brands/brand.service.ts:138-164 | brand and product categories are equal in every state of a run if and only if each brand update that succeeds finds all the brand's products in the new category |
| `CatalogueCases.MovedBrandLeavesProduct` | src/modules/brands/brand.service.ts:157 | for any plain names, a run from an empty catalogue that moves a brand with one product: the product stays behind and the brand rows no longer add up |
| `CatalogueCases.ConstructorCanBeMade` | src/modules/category/category.service.ts:30-44 | an admin can make a category called `constructor` |
| `CatalogueCases.ConstructorTakesNoProduct` | src/modules/products/product.service.ts:51-58 | no product can be put into a category of that name |
| `CatalogueCases.ConstructorThrowsIff` | src/modules/products/product.service.ts:289-328 | the checks end in the TypeError if and only if all before the attributes pass and the category has that name |
| `CatalogueStore.BuildRow` | src/modules/products/product.service.ts:333-381 | the checks in the source's order, then slug and attributes |
| `CatalogueStore.Store.AddCategory` | src/modules/category/category.service.ts:30-44 | creates, or refuses and changes nothing |
| `CatalogueStore.Store.ChangeCategory` | src/modules/category/category.service.ts:46-69 | renames, or refuses and changes nothing |
| `CatalogueStore.Store.DropCategory` | src/modules/category/category.service.ts:71-92 | removes an unlocked category that nothing uses |
| `CatalogueStore.Store.AddBrand` | src/modules/brands/brand.service.ts:117-136 | creates under an existing category |
| `CatalogueStore.Store.ChangeBrand` | src/modules/brands/brand.service.ts:138-164 | rewrites the brand under an existing category |
| `CatalogueStore.Store.DropBrand` | src/modules/brands/brand.service.ts:166-181 | removes a brand without products |
| `CatalogueStore.Store.AddProduct` | src/modules/products/product.service.ts:289-331 | stores the checked row under a new id |
| `CatalogueStore.Store.ChangeProduct` | src/modules/products/product.service.ts:333-385 | rewrites the row under its id |
| `CatalogueStore.Store.DropProduct` | src/modules/products/product.service.ts:387-393 | removes that product only |
| `Addresses.SavedAddresses.AddAddress` | src/modules/user/user.service.ts:122-151 | appends, as the default when asked for or first |
| `Addresses.SavedAddresses.UpdateAddress` | src/modules/user/user.service.ts:153-179 | rewrites one entry and may make it the default |
| `Addresses.SavedAddresses.RemoveAddress` | src/modules/user/user.service.ts:181-197 | removes one entry; the first one left inherits the default |
| `Addresses.SavedAddresses.SetDefaultAddress` | src/modules/user/user.service.ts:199-211 | makes one entry the default |
| `Addresses.SavedAddresses.SetFlags` | src/modules/user/user.service.ts:172-174 | the `forEach` in place equals rewriting the whole list |
| `Addresses.OneDefaultOverRuns` | src/modules/user/user.service.ts:122-211 | over any run a non-empty list has exactly one default |
| `Addresses.BodiesPreserved` | src/modules/user/user.service.ts:122-211 | the order and all other entries are untouched |
| `Addresses.WhichIsDefault` | src/modules/user/user.service.ts:122-211 | which entry is the default after each operation |
| `Chat.Conversations.StartUserSupportConversation` | src/modules/chat/chat.service.ts:90-117 | returns the user's conversation, made with an admin if there was none |
| `Chat.Conversations.StartAdminUserConversation` | src/modules/chat/chat.service.ts:119-153 | returns the target's conversation, made if there was none |
| `Chat.StartMeaning` | src/infrastructure/realtime/socket.handlers.ts:102-123 | a start ends with the shopper in a conversation, one that was there or one new one with an admin; it fails only without any admin or for a target that is nobody |
| `Chat.SupportIsActive` | src/modules/chat/chat.service.ts:78-88 | support is an admin who is not deleted as long as there is one, and offline if and only if there is no admin |
| `Chat.PartnerIsOther` | src/modules/chat/chat.service.ts:36-60 | the partner shown is the other one of two, whoever looks |
| `Chat.AtMostOneConversation` | src/modules/chat/chat.service.ts:90-153 | after any run of starts and messages, with accounts that appear, are deleted and are revived in between, a user who is not an admin is in at most one conversation |
| `Chat.GetConversations` | src/modules/chat/chat.service.ts:155-184 | the loop keeps exactly the shown rows with no earlier shown row of the same partner, in order |
| `Chat.KeptOncePerPartner` | src/modules/chat/chat.service.ts:166-183 | no partner is kept twice |
| `Chat.NoPartnerLost` | src/modules/chat/chat.service.ts:166-183 | every shown partner is kept |
| `Chat.ListDropsOnlyAdmins` | src/modules/chat/chat.service.ts:155-184 | in every reachable state only rows whose partner is an admin, shown to an admin, are dropped |
| `Idempotency.IdempotencyMiddleware.SetNx` | src/shared/middlewares/idempotency.ts:26-31 | takes the lock exactly when it is free or expired |
| `Idempotency.IdempotencyMiddleware.Handle` | src/shared/middlewares/idempotency.ts:11-46 | admits a request without a key, or with a free lock, which it takes |
| `Idempotency.IdempotencyMiddleware.OnFinish` | src/shared/middlewares/idempotency.ts:40-44 | releases the lock on a server error only |
| `Idempotency.AdmittedTwice` | src/shared/middlewares/idempotency.ts:10-58 | between two requests admitted on one key the whole lifetime passed or a response released the lock |
| `Idempotency.HoldersWereAdmitted` | src/shared/middlewares/idempotency.ts:40-44 | whoever can release a lock was admitted on that key earlier |
| `Idempotency.OnlyOwnDeletedIff` | src/shared/middlewares/idempotency.ts:26-44 | over any run, failing responses delete no live lock but their own request's if and only if none fails after its lock has run out while the key is locked |
| `Idempotency.OneRunsPerKey` | src/shared/middlewares/idempotency.ts:26-44 | in such a run no two requests on one key are ever under way within their locks' lifetimes |
| `Idempotency.LateFailureLetsThirdIn` | src/shared/middlewares/idempotency.ts:40-44 | lifetime 60: a request admitted at 0 fails at 61 and deletes the lock of the one admitted at 60, and a third is admitted at 62 while the second is under way |
| `Escaping.FivePassesAreOne` | src/shared/utils/landingPage.ts:10-17 | the five passes equal one simultaneous substitution |
| `Escaping.EscapeIsSafeAndReversible` | src/shared/utils/landingPage.ts:10-17 | no raw markup character is left and decoding gives the input back |

## Left out

- Der.JwkToPem: asks that the encoded key be shorter than 2^31 octets, because `>>=` works on 32 bits; no JavaScript string is that long.
- CursorWalk.WalkNeverRepeats: is about `_id` and a filter that does not constrain `_id`, which the cursor's condition would replace.
- FieldWalk.EachRowOnceIff: is about a collection nobody changes and a filter without a condition on the sort field; rows of equal value keep the order they are stored in, which the driver does not promise.
- FieldWalk.NextCallReachesRestIff: a cursor whose text belongs to a field of another type is refused, though the driver may read some numbers as dates.
- Pagination.PaginateCursor: a sort of `-` alone, and fields other than numbers and the two time stamps; a text field would behave like a number, with the empty text for zero.
- Onboarding.RunKeepsEmails: emails are lower-cased over ASCII only; so are names, SKUs and slugs elsewhere.
- AuthStore.AuthService.Login: does not issue the access token or store last-login, device and notification fields; an access token changes no stored state.
- AuthStore.AuthService.LoginWithMobileSocial: does not store avatar, last-login, device and notification fields.
- AuthStore.AuthService.VerifyResetCode: does not issue the short-lived reset token it answers with.
- AuthStore.AuthService.CompleteProfile: does not store avatar, phone, country code and address.
- OrderStore.ShopService.Checkout: leaves out order number, customer details and product picture, which it copies.
- Interleavings inside one handler: `markPaidWithViva` and `refreshTokens` read and then write across awaits, so every claim is per atomic request.
- Floating-point money; amounts are integers.
- Users and codes removed by the time-to-live index on accounts; expired token rows may vanish at any time (`Sweep`).
- A request that the schemas refuse, ill-formed ids, and a Redis that does not answer (the idempotency middleware then lets the request through).
- Presence across several server processes, and lost or reordered events.
- Product descriptions, pictures and the featured flag; brand descriptions and subtitles; list filters and search.
- Sending mail, push and chat messages; notifications; logging; file storage; health checks.
- JWT signing, bcrypt, Google and Facebook exchanges and the payment provider's calls; the amount of a transaction, which the code does not read.
- Reviews, wishlist, settings, subscribers and the seed scripts.
