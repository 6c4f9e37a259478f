# ICY backend core in Dafny

A model of the rules in the ICY/SellaOS Express and MongoDB backend, with proofs about them. The backend has two halves:

- **The point-of-sale half.** Stripe QR and NFC checkouts create sale records. The transaction webhook settles or expires them and lowers stock. Refunds and receipts sit on top of these records. A basic plan caps the paid sales a company can make in a month. The product and section catalogue is scoped to one company at a time. Subscriptions are kept in step with the provider by a second webhook. They are sold through a price-key lookup, and the access gate checks them on every request. The AI insights endpoint reads the last hundred sales.
- **The engagement-platform half.** Accounts register, verify their e-mail and log in with mailed codes. Members answer surveys for experience and coins, spend coins in a marketplace, earn badges and receive notifications. Departments group the members.

Each handler is a pure step function. It takes the stores it reads as immutable sequences of records and returns the reply status with the stores it writes. These services are inputs to the step rather than calls it makes:

- the payment provider, the mailer and the language model, each a `Fetch` that either returns a value or is unavailable;
- the JWT library and bcrypt, as functions;
- the random draws;
- the clock and the calendar windows (this month, today, yesterday), as integers in milliseconds.

Money is in integer cents.

The modules follow the source layout:

| module | models |
|---|---|
| `Common`, `Seqs`, `Sorting`, `Text` (common.dfy) | options, filters, skip/limit pages, stable sorting and top-n, lower/upper case, `split(' ')` |
| `PosRecords` | the transaction and product documents, keyed lookups, stock changes |
| `TransactionWebhook` | the Stripe checkout webhook: completion, expiry, acknowledgement |
| `TransactionQueries` | transaction listing, counting and `addTransaction` |
| `Checkout` | `generateQR`, `checkLatestTransactionStatus`, NFC `processPayment` |
| `PosLifecycle` | how checkout, settlement and expiry compose |
| `Refunds`, `Receipts` | the refund and receipt controllers |
| `Products`, `Sections` | the catalogue controllers |
| `Subscriptions` | the subscription webhook, status, cancel, details and plan checkout routes |
| `TransactionLimits` | the basic-plan monthly limit middleware |
| `AccessGate` | `authenticateToken` |
| `AiInsights` | `generateAIInsights` |
| `Codes` | hex codes: company reference ids, verification codes, reset tokens |
| `Accounts` | the auth controller |
| `ErrorFlow` | `createError` and the central error middleware |
| `Members`, `AuthMiddleware`, `Users` | the engagement user document, `protect`/`authorize`, the user controller |
| `Surveys`, `Marketplace`, `Achievements`, `Notifications`, `Departments` | the engagement controllers, models and notification service |

Where the written description of the system and the code disagree, the model follows the code:

- `charge.refunded` only logs. It does not move a sale to a refunded state.
- The refund controller refunds a sale in any state except "refunded", including a pending one. It does not require the sale to be settled first.
- Session expiry deletes the record whatever its status.
- The AI plan check compares the plan against lower-case names. Because of this it refuses every plan stored in the schema's capitalisation ("Pro", "Enterprise"). Only a lower-case name that the subscription webhook upserted without validators passes (see Findings).

## Model

| member | source | states |
|---|---|---|
| PosRecords.FindTransaction | server/src/webhooks/transactionWebhook.js:92-94 | the index of the first record whose `transactionId` is the id; none exactly when no record carries it |
| PosRecords.FoundTransactionIsOnly | server/src/mongodb_server/models/transaction.js:31 | with distinct transaction ids the record found is the only one carrying that id |
| PosRecords.SaveAt | server/src/mongodb_server/models/transaction.js:16-31 | a save over a record succeeds exactly when the record has every required path and no other record has its id; it then replaces that record only and keeps the collection valid |
| PosRecords.Insert | server/src/mongodb_server/models/transaction.js:16-31 | creating a record succeeds exactly when it has every required path and its id is new; it is then appended and the collection stays valid |
| PosRecords.DeleteTransaction | server/src/webhooks/transactionWebhook.js:182 | `findOneAndDelete` removes one record when the id is present and nothing otherwise; no record is invented, and with distinct ids none with that id remains |
| PosRecords.FindProduct | server/src/webhooks/transactionWebhook.js:148-152 | the first product with that (`product_id`, `company_id`) key; none exactly when no product has it |
| PosRecords.FindProductAfterReplace | server/src/mongodb_server/models/product.js:21 | replacing a product by one with the same key leaves every key lookup where it was |
| PosRecords.Decrement | server/src/webhooks/transactionWebhook.js:148-158 | `$inc` by minus the quantity changes only the stock count of the product with that key; a missing product is skipped |
| PosRecords.DecrementStock | server/src/webhooks/transactionWebhook.js:148-152 | the decremented key's stock drops by exactly the quantity, with no lower bound |
| PosRecords.StockChangeKeepsValidity | server/src/mongodb_server/models/product.js:3-21 | a change confined to stock counts keeps every required path and the unique key index |
| PosRecords.StockOfOtherKey | server/src/webhooks/transactionWebhook.js:148-152 | a decrement of one key leaves the stock of every other key as it was |
| TransactionWebhook.SettleStock | server/src/webhooks/transactionWebhook.js:144-158 | the settlement loop's writes change only stock counts |
| TransactionWebhook.SettleStockEffect | server/src/webhooks/transactionWebhook.js:144-158 | each product of the session's company loses exactly what the positionally paired line items take from it, possibly going negative; other companies' products are untouched and an absent product stays absent |
| TransactionWebhook.LoweredTwice | server/src/webhooks/transactionWebhook.js:150 | two decrements of a stock count add up |
| TransactionWebhook.CompleteSession | server/src/webhooks/transactionWebhook.js:82-177 | `handleCheckoutSessionCompleted`: an unavailable intent throws before any write; a missing record returns without writing; a failed line-item, payment-method or charge read throws with nothing changed, stock included; only the record keyed by the session id can change; a throw leaves the records unchanged; when every read answers and the settled record is valid, the session completes and exactly that record is replaced by its settlement; a valid store stays valid |
| TransactionWebhook.SettlementSucceeds | server/src/webhooks/transactionWebhook.js:101-177 | on a valid store, a found record, every provider read answering with a charge, a receipt and a payment method, enough line items and no other record holding the intent id, the session completes |
| TransactionWebhook.SettledRecord | server/src/webhooks/transactionWebhook.js:101-168 | a completed settlement re-keys the record by the payment intent id, remembers the session id, takes status, method, receipt and date from the provider, prices and counts each bought entry from its line item, totals the quantities and the session amount, and keeps device, company and product identities |
| TransactionWebhook.SettlementStock | server/src/webhooks/transactionWebhook.js:144-158 | once every provider read succeeds, the stock effect of the loop holds whether or not the later save fails |
| TransactionWebhook.ExpireSession | server/src/webhooks/transactionWebhook.js:179-188 | `handleCheckoutSessionExpired` deletes the record keyed by the session id, whatever its status, and never touches stock |
| TransactionWebhook.Handle | server/src/webhooks/transactionWebhook.js:42-73 | only the two checkout-session events write; every other event, refunds included, changes nothing |
| TransactionWebhook.HandleWebhook | server/src/webhooks/transactionWebhook.js:17-80 | an uninitialised client answers 500, a failed signature 400; otherwise 200 exactly when the handler completes and 500 exactly when it throws, with the handler's writes kept either way |
| TransactionWebhook.UnhandledAcknowledged | server/src/webhooks/transactionWebhook.js:67-75 | an unknown event type and `charge.refunded` are acknowledged with 200 and change nothing |
| TransactionWebhook.RedeliveryIsNoop | server/src/webhooks/transactionWebhook.js:92-102 | after a settlement re-keys the record, a redelivered completion for the same session finds nothing and changes nothing |
| TransactionWebhook.ExpiryAfterSettlementIsNoop | server/src/webhooks/transactionWebhook.js:182 | an expiry arriving after settlement deletes nothing |
| TransactionWebhook.FailedSaveDecrementsTwice | server/src/webhooks/transactionWebhook.js:144-170 | without a charge the save fails after the decrements, the record stays keyed by the session id, and the provider's retry decrements the same stock a second time |
| TransactionWebhook.SettleTwice | server/src/webhooks/transactionWebhook.js:144-158 | running the loop twice takes the paired quantities twice |
| TransactionWebhook.NoChargeSaveFails | server/src/webhooks/transactionWebhook.js:116-170 | with no latest charge the receipt stays null, so the save of the required `receiptUrl` fails after the stock loop has written |
| TransactionQueries.GetTransactions | server/src/mongodb_server/controllers/transactionController.js:3-35 | a negative skip fails with 500 and any other skip answers 200 with the page at `(page - 1) * limit` of the caller's company's records (today's only when asked), in stored order, at most `abs(limit)` of them, each a stored record of that company |
| TransactionQueries.GetTransactionCount | server/src/mongodb_server/controllers/transactionController.js:37-46 | the count is bounded by the collection and is zero for a company with no records |
| TransactionQueries.CountMatchesListing | server/src/mongodb_server/controllers/transactionController.js:24-41 | with limit 0 the listing returns every record of the company, and the count equals that listing's length |
| TransactionQueries.CountIgnoresOtherCompanies | server/src/mongodb_server/controllers/transactionController.js:39-41 | adding another company's record leaves the count unchanged |
| TransactionQueries.PagesAreConsecutive | server/src/mongodb_server/controllers/transactionController.js:6-26 | after a full page, the next page continues exactly where it stopped |
| TransactionQueries.WithDefaults | server/src/mongodb_server/models/transaction.js:23 | a record created without a status is "pending"; a given status, id and company are kept |
| TransactionQueries.AddTransaction | server/src/mongodb_server/controllers/transactionController.js:59-67 | 201 exactly when the body has every required path and a new id, appending it with the company from the body; otherwise 400 and nothing changes |
| TransactionQueries.AddTransactionKeepsForeignCompany | server/src/mongodb_server/controllers/transactionController.js:61 | the stored record keeps the body's company even when it is not the caller's |
| Checkout.UnitAmount | server/src/controllers/qrController.js:31-36 | the bonus discount applies only while the product is in bonus, a zero percentage changes nothing, and a percentage within 0-100 keeps the amount between 0 and the price |
| Checkout.BoughtMirrorsCart | server/src/controllers/qrController.js:82-94 | each bought entry carries the product, section, price and bonus flag of the cart entry and the quantity at its position, with a bonus price exactly when in bonus |
| Checkout.GenerateQR | server/src/controllers/qrController.js:21-120 | mismatched lengths answer 400 before any provider call; the session request prices each line by the bonus rule and carries the joined product ids; 200 exactly when the session is created and the pending record saves, which is then appended; otherwise 400 and nothing changes |
| Checkout.PendingRecordContents | server/src/controllers/qrController.js:76-107 | the pending record is keyed by the session id, says "pending" for status, method and receipt, totals the quantities and the line amounts, and carries one bought entry per cart product |
| Checkout.ProductIdsRoundTrip | server/src/controllers/qrController.js:65 | splitting the joined metadata at commas gives the product ids back when no id contains a comma |
| Checkout.Latest | server/src/controllers/qrController.js:127-129 | a record of the company with no later date among that company's records; none exactly when the company has no record |
| Checkout.CheckLatestTransactionStatus | server/src/controllers/qrController.js:122-155 | 404 exactly when the company has no record; otherwise the id, date, amount, receipt link and paid flag of one record of the company that no other record of it postdates |
| Checkout.ProcessPayment | server/src/controllers/nfcController.js:56-109 | 200 exactly when the confirmed intent succeeded, has a receipt and the paid record saves: the record appended is keyed by the intent, "nfc" and "paid", with the intent's device and amount, the caller's company and the cart's entries; any other outcome is 400 with nothing stored |
| Checkout.NfcNeedsReceipt | server/src/controllers/nfcController.js:90-96 | an intent without a first charge receipt leaves the required receipt null, so the save fails and the sale answers 400 |
| PosLifecycle.PairedQuantity | server/src/controllers/qrController.js:50-93 | pairing the pending record's bought entries with the session's line items position by position takes, for each product, exactly the quantities the cart gave it |
| PosLifecycle.ExpiryUndoesCheckout | server/src/webhooks/transactionWebhook.js:179-188 | an expired session removes exactly the pending record its checkout created |
| PosLifecycle.SettlementTakesCartQuantities | server/src/webhooks/transactionWebhook.js:144-158 | settling a checkout lowers each product of the company by the quantity the cart asked for |
| Refunds.ProcessRefund | server/src/controllers/refundController.js:15-68 | 404 for an unknown id and 400 for a refunded record, both before the provider is called; a permission error is 403 and any other provider failure 500, changing nothing; success marks only that record refunded and keeps the collection valid |
| Refunds.RefundOfValidRecordSucceeds | server/src/controllers/refundController.js:30-46 | a refund the provider accepts on a stored, unrefunded record succeeds, since the save cannot fail |
| Refunds.SecondRefundRejected | server/src/controllers/refundController.js:25-27 | a refunded record is refused with 400 without calling the provider again |
| Receipts.SendReceipt | server/src/controllers/receiptController.js:15-92 | 404 before the account check, 400 without an account; a Bancontact charge answers with the stored receipt link or 400; otherwise, each exactly when its case holds: no first charge is 400, a first charge without a receipt email is 400, a provider permission error is 403 and any other provider failure 500; the provider is asked to send exactly when a first charge with a receipt email exists, and success without a link means the send succeeded |
| Receipts.NotFoundBeforeAccountCheck | server/src/controllers/receiptController.js:23-29 | an unknown transaction is 404 even when the account id is missing |
| Receipts.SuccessMeansLinkOrSent | server/src/controllers/receiptController.js:46-75 | a 200 is either the stored receipt link or a receipt the provider sent |
| Products.AddProduct | server/src/mongodb_server/controllers/productController.js:4-19 | 201 exactly when the document with the caller's company has every required path and a new (`product_id`, `company_id`) key, appending it; otherwise 400 and nothing stored; the catalogue stays valid |
| Products.GetProduct | server/src/mongodb_server/controllers/productController.js:21-45 | 404 exactly when no product of the caller's company has that id; otherwise a stored product with that key |
| Products.AddThenGet | server/src/mongodb_server/models/product.js:3-18 | a product just added is read back as created, with stock 0, price 0, bonus 0, not in bonus and selling by default |
| Products.TotalPages | server/src/mongodb_server/controllers/productController.js:95 | the page count is the ceiling of count over limit, and a limit of 0 gives no finite count |
| Products.GetProductsBySection | server/src/mongodb_server/controllers/productController.js:60-107 | a negative skip fails with 500 and any other skip answers 200 with the requested page of the section's products of the caller's company, with the total and page count when the page is non-empty and zeros when it is empty |
| Products.ShownPageWithinTotal | server/src/mongodb_server/controllers/productController.js:86-101 | a non-empty page lies between 1 and the reported page count |
| Products.PageWithinCeiling | server/src/mongodb_server/controllers/productController.js:68-95 | a page whose skip is below the count is at most the page count |
| Products.PastTheEndHidesTotal | server/src/mongodb_server/controllers/productController.js:86-93 | a page past the end reports a total of 0 even though the section has products |
| Products.SearchProducts | server/src/mongodb_server/controllers/productController.js:118-140 | an empty or missing query is 400 and any other query 200; the result is exactly the caller's company's products whose name matches the query |
| Products.AddThenSearch | server/src/mongodb_server/controllers/productController.js:118-140 | a product just added is found by a non-empty query exactly when the query matches its name, and never by another company |
| Products.ParseColumn | server/src/mongodb_server/controllers/productController.js:151-178 | a column name parses exactly to the column with that display label |
| Products.SetColumn | server/src/mongodb_server/controllers/productController.js:149-184 | a value that casts sets exactly that column and the modification date, leaving every other column, the key and the section alone |
| Products.UpdateProductField | server/src/mongodb_server/controllers/productController.js:143-195 | an unknown column or a value failing its cast or validator is 400; a missing product is 404; otherwise only that product changes, by that column; failures change nothing and the catalogue stays valid |
| Products.DeleteProduct | server/src/mongodb_server/controllers/productController.js:197-208 | 404 exactly when the key is absent; otherwise one product goes, every product with another key stays, and under the unique index none with that key remains |
| Products.DeleteProducts | server/src/mongodb_server/controllers/productController.js:210-224 | exactly the listed products of the caller's company are removed, and the reported count plus what remains is the original size |
| Products.DeleteProductsSparesOthers | server/src/mongodb_server/controllers/productController.js:214-217 | another company's products are untouched, in order |
| Products.DeletedCount | server/src/mongodb_server/controllers/productController.js:219 | the reported count is the number of listed products of the caller's company |
| Sections.FindSection | server/src/mongodb_server/controllers/sectionController.js:28-31 | the first section with that (`section_id`, `company_id`) key; none exactly when absent |
| Sections.AddSection | server/src/mongodb_server/controllers/sectionController.js:9-23 | 201 exactly when id, company and colour are present and the key is new, appending the section under the caller's company; otherwise 400 and nothing changes |
| Sections.GetSection | server/src/mongodb_server/controllers/sectionController.js:25-39 | 404 exactly when the key is absent; otherwise a stored section with that key |
| Sections.AddThenGetSection | server/src/mongodb_server/controllers/sectionController.js:9-39 | a section just added is read back under the caller's company, with its colour and the creation time from the body or now |
| Sections.GetSectionsByCompanyId | server/src/mongodb_server/controllers/sectionController.js:148-172 | a negative skip fails with 500; otherwise the requested page of the caller's company's sections |
| Sections.ConsecutiveSectionPages | server/src/mongodb_server/controllers/sectionController.js:148-172 | two consecutive pages of the same size together are the double-size page from the first skip |
| Sections.MoveProducts | server/src/mongodb_server/controllers/sectionController.js:101-104 | `updateMany` moves exactly the company's products of the old section to the new one and changes nothing else about any product |
| Sections.MoveKeepsValidity | server/src/mongodb_server/models/product.js:3-21 | moving products to a present section id keeps every required path and key |
| Sections.UpdateSection | server/src/mongodb_server/controllers/sectionController.js:41-117 | 404 exactly when the section is absent; 500 exactly when a rename targets a key the company already uses; otherwise 200, a rename re-keying the section and moving its products and a same-id update only setting the colour; failures change nothing |
| Sections.MoveSparesOthers | server/src/mongodb_server/controllers/sectionController.js:101-104 | a rename leaves other companies' products as they were, in order |
| Sections.MoveCounts | server/src/mongodb_server/controllers/sectionController.js:101-104 | after a rename the new section holds its own products plus all those of the old one |
| Sections.MoveEmptiesSource | server/src/mongodb_server/controllers/sectionController.js:101-104 | after a rename the old section has no products left |
| Sections.DeleteSection | server/src/mongodb_server/controllers/sectionController.js:119-146 | 404 exactly when the section is absent; otherwise it goes, other sections stay, and the products kept are exactly those not in the deleted section of the company |
| Sections.DeleteSectionSparesOthers | server/src/mongodb_server/controllers/sectionController.js:137 | deleting a section's products leaves other companies' products as they were |
| Subscriptions.FindSubscription | server/src/routes/subscriptionPaymentMethodRoutes.js:80 | the index of the first record of the company, and none exactly when no record carries that company id |
| Subscriptions.ApplyChange | server/src/webhooks/subscriptionWebhook.js:66-98 | a swallowed write failure changes nothing; otherwise the company's first record is overwritten with the event's customer, id, status, period end (seconds to milliseconds) and present plan/cycle, keeping its creation time and early-access flag, or a record with the schema defaults is inserted; other companies' records are untouched and one-record-per-company is preserved |
| Subscriptions.HandleSubscriptionWebhook | server/src/webhooks/subscriptionWebhook.js:20-64 | 500 without a webhook secret, 400 when the signature does not verify, otherwise 200; created/updated/deleted events apply the change and every other event type leaves the store as it was |
| Subscriptions.DeletedEventKeepsRecord | server/src/webhooks/subscriptionWebhook.js:49-53 | a deletion event does not remove the company's record: a record with the event's status is there afterwards |
| Subscriptions.UpsertSkipsEnumCheck | server/src/mongodb_server/models/subscription.js:8 | a status outside the schema's enum still lands in the stored record, which then breaks the schema |
| Subscriptions.CheckStatus | server/src/routes/subscriptionPaymentMethodRoutes.js:77-86 | "inactive" when the company has no record, otherwise the first record's non-empty status; never empty |
| Subscriptions.InactiveMeansNoRecord | server/src/routes/subscriptionPaymentMethodRoutes.js:81 | over schema-valid records, "inactive" is reported exactly when the company has no record |
| Subscriptions.StatusAfterChange | server/src/webhooks/subscriptionWebhook.js:66-84 | after a subscription event whose write succeeds, the status route reports the event's status |
| Subscriptions.CancelSubscription | server/src/routes/subscriptionPaymentMethodRoutes.js:88-134 | 404 exactly when the company has no record or its record has no provider id; 500 when the provider call fails; on 200 only that record changes, to "canceled" with the update time |
| Subscriptions.CancelThenStatus | server/src/routes/subscriptionPaymentMethodRoutes.js:117-123 | after a successful cancel the status route reports "canceled" |
| Subscriptions.Details | server/src/routes/subscriptionPaymentMethodRoutes.js:137-177 | 404 exactly without a record, 500 exactly when the provider read fails; on 200 the provider's status, cancel flag and period end (in milliseconds) with the stored plan and cycle |
| Subscriptions.DetailsAfterChange | server/src/routes/subscriptionPaymentMethodRoutes.js:137-177 | after a subscription event whose write succeeds, the details route reports the provider's status, period end and cancel flag with the event's plan and cycle |
| Subscriptions.NormalisePlan | server/src/routes/subscriptionPaymentMethodRoutes.js:36 | the normalised plan name contains no whitespace and no character that lower-casing would change |
| Subscriptions.NormalisePlanByCharacter | server/src/routes/subscriptionPaymentMethodRoutes.js:36 | normalising works character by character: a concatenation normalises to the concatenation of the parts, a whitespace character to nothing and any other to its lower-case form |
| Subscriptions.LookupPrice | server/src/config.js:27-44 | only the six STRIPE_<PLAN>_<CYCLE>_PRICE_ID keys hold a price, and each holds its own configured value |
| Subscriptions.KeyOfInjective | server/src/routes/subscriptionPaymentMethodRoutes.js:39 | two price keys built from underscore-free parts are equal exactly when their plan and cycle parts are |
| Subscriptions.RequestKeyNamesPrice | server/src/routes/subscriptionPaymentMethodRoutes.js:36-40 | a request names the price of plan p and cycle c exactly when its normalised, upper-cased plan and upper-cased cycle are p's and c's tokens |
| Subscriptions.SchemaNamesResolve | server/src/mongodb_server/models/subscription.js:6-7 | every plan and cycle name of the schema resolves to its own price key |
| Subscriptions.PlanNameToken | server/src/mongodb_server/models/subscription.js:6 | lower-casing then upper-casing a schema plan name gives its key token |
| Subscriptions.CycleNameToken | server/src/mongodb_server/models/subscription.js:7 | upper-casing a schema cycle name gives its key token |
| Subscriptions.CreatePlanCheckout | server/src/routes/subscriptionPaymentMethodRoutes.js:17-74 | 500 when the company is unknown or a field is missing; with all three present, a session request is built exactly when a non-empty price is configured for the key, naming that price, the company and the requested plan and cycle; 200 with the session url exactly when that request is built and the provider creates the session |
| Subscriptions.CheckoutNamesAPlan | server/src/routes/subscriptionPaymentMethodRoutes.js:39-48 | a checkout session is only opened for a request whose plan and cycle normalise to one of the three plans and two cycles |
| TransactionLimits.FindBasic | server/src/middleware/checkTransactionLimits.js:12-15 | a record of the company whose plan is "basic" in any letter case, and none exactly when there is no such record |
| TransactionLimits.CheckTransactionLimits | server/src/middleware/checkTransactionLimits.js:6-84 | a failed read, the sample read for the log included, is passed to the error handler; companies without a basic plan proceed; a basic company whose reads all succeed is refused when its paid sales dated in the month reach 1000, with the count, the limit and the days to month end rounded up, and proceeds below that |
| TransactionLimits.UnpaidSaleDoesNotCount | server/src/middleware/checkTransactionLimits.js:36-43 | adding a sale that is not paid never changes the decision |
| TransactionLimits.LimitBoundary | server/src/middleware/checkTransactionLimits.js:4 | for a basic company 999 counted sales proceed and 1000 are refused |
| TransactionLimits.SchemaBasicIsBasic | server/src/mongodb_server/models/subscription.js:6 | the schema's "Basic" matches the case-insensitive basic test and "Pro" and "Enterprise" do not |
| TransactionLimits.OtherCompaniesDoNotCount | server/src/middleware/checkTransactionLimits.js:37 | other companies' sales do not change a company's monthly count |
| AccessGate.BearerToken | server/src/middleware/authenticateToken.js:26-30 | the second space-separated part of the Authorization header, and none exactly when the header is missing, has no second part or that part is empty |
| AccessGate.BearerTokenOf | server/src/middleware/authenticateToken.js:26 | "<scheme> <token>" with space-free parts yields the token |
| AccessGate.Authenticate | server/src/middleware/authenticateToken.js:21-65 | OPTIONS passes untouched; any other request passes exactly when the token verifies to a stored user and the route is always allowed or the company has a live subscription, carrying the token's user and company; 401 exactly for a missing token or an unknown user; a token that does not verify is 403 "Invalid token" |
| AccessGate.GateOnSubscription | server/src/middleware/authenticateToken.js:51-58 | off the allowed routes, a known user passes exactly when their company has a record that is neither "inactive" nor "canceled", and is otherwise refused with 403 "Subscription required" |
| AccessGate.PrefixNotSegment | server/src/middleware/authenticateToken.js:47 | the allowed-route test is a string prefix: any continuation of an allowed route is let through, and a url outside "/api/" never is |
| AccessGate.GateAgreesWithCheckStatus | server/src/middleware/authenticateToken.js:53 | over schema-valid records the gate's subscription test agrees with the status route's answer being neither "inactive" nor "canceled" |
| AccessGate.CancelLocksOut | server/src/routes/subscriptionPaymentMethodRoutes.js:117-123 | once a cancel succeeds the gate refuses the company on subscription-gated routes |
| AiInsights.AsWrittenRefusesSchemaPlans | server/src/controllers/aiController.js:15-20 | the plan check as written refuses every company whose records passed the schema, since the schema stores "Pro" and "Enterprise" capitalised |
| AiInsights.ProCustomerRefused | server/src/controllers/aiController.js:17 | a schema-valid, active Pro subscription is refused by the check as written |
| AiInsights.InsightsPlanExactlyPaidTiers | server/src/mongodb_server/models/subscription.js:6 | over schema-valid records, the corrected check admits a company exactly when its first record's plan is "Pro" or "Enterprise" |
| AiInsights.PrepareTransactionData | server/src/controllers/aiController.js:22-37 | one entry per sale in the same order, keeping the sale's id, date, payment method, totals and every purchased line with its name, quantity, bought price, bonus flag and bonus price |
| AiInsights.PrepareAppend | server/src/controllers/aiController.js:23 | preparing is done sale by sale: preparing two batches together is preparing each and concatenating |
| AiInsights.RecentSales | server/src/controllers/aiController.js:71-73 | at most a hundred of the company's sales, all from the store, newest first, and no sale of the company left out is newer than one taken |
| AiInsights.RecentEmptyWithoutSales | server/src/controllers/aiController.js:71-77 | the recent sales are empty exactly when the company has no sale at all |
| AiInsights.GenerateAIInsights | server/src/controllers/aiController.js:39-199 | 400 without a company; 500 when the subscription read fails, or the transaction read fails once the plan check passes; 403 exactly when the plan check fails; the cached answer exactly when the client's copy has a time, no sale of the company is newer and no refresh is forced; past the cache, 400 "No transactions found for analysis" exactly when the company has no sale, and otherwise the model's answer on the prepared recent sales, or 500 when the model fails |
| AiInsights.UpToDateClientIsCached | server/src/controllers/aiController.js:58-68 | a client copy stamped after every sale of the company gets the cached answer, and a forced refresh never does |
| AiInsights.NoSalesNoAnalysis | server/src/controllers/aiController.js:75-77 | a company with no sales that cannot use the cache is answered 400 "No transactions found for analysis" |
| Codes.DigitRoundTrip | server/src/controllers/authController.js:44 | every hex digit, upper- or lower-case, reads back as the value it encodes |
| Codes.Hex | server/src/controllers/authController.js:44 | two hex digits per byte, all of the requested case |
| Codes.UnhexHex | server/src/controllers/authController.js:44 | hex encoding is undone by decoding, in either case |
| Codes.HexInjective | server/src/controllers/authController.js:285 | distinct byte strings give distinct hex strings |
| Codes.CompanyRefId | server/src/controllers/authController.js:43-45 | "REF-" followed by eight upper-case hex digits |
| Codes.VerificationCode | server/src/controllers/authController.js:47-49 | six upper-case hex digits |
| Codes.ResetToken | server/src/controllers/authController.js:285 | forty lower-case hex digits |
| Accounts.FindByEmail | server/src/controllers/authController.js:67 | the first account with that e-mail, and none exactly when no account has it |
| Accounts.FindLoginCode | server/src/controllers/authController.js:191-195 | an account whose e-mail and login code match and whose code expires after now, and none exactly when no account qualifies |
| Accounts.FindResetToken | server/src/controllers/authController.js:308-311 | an account holding that reset token unexpired, and none exactly when no account qualifies |
| Accounts.Register | server/src/controllers/authController.js:57-108 | a missing field or a taken e-mail is 400 with nothing stored; otherwise an unverified account with the hashed password, a fresh company, reference id and six-digit code is appended, and the reply is 201 exactly when the mail goes out (400 when it does not, the account staying); e-mails stay unique |
| Accounts.RetryAfterMailFailure | server/src/controllers/authController.js:86-106 | when the verification mail fails the account is already saved, so registering again with the same e-mail is refused as "User already exists" |
| Accounts.VerifyEmail | server/src/controllers/authController.js:110-143 | 404 exactly for an unknown e-mail; 200 exactly when the submitted code equals the stored one, which marks the account verified, clears the code and issues a one-day token with user and company; nothing else changes |
| Accounts.VerifiedEmailAloneGetsToken | server/src/controllers/authController.js:117 | once the stored code is cleared, a request without a code matches it and is issued a token again |
| Accounts.VerificationCodeSingleUse | server/src/controllers/authController.js:120-121 | a verification code that succeeded is refused when submitted again |
| Accounts.Login | server/src/controllers/authController.js:145-186 | 401 exactly for an unknown e-mail, an unverified account or a wrong password; otherwise only that account gets a new six-digit login code expiring in ten minutes, and the reply is 200 exactly when the mail goes out |
| Accounts.VerifyLogin | server/src/controllers/authController.js:188-225 | 401 exactly when no account matches e-mail, code and expiry; otherwise a seven-day access token with user and company and a seven-day refresh token, the refresh token stored and the login code cleared on that account only |
| Accounts.LoginCodeWindow | server/src/controllers/authController.js:165-167 | with unique e-mails, the code just sent is accepted exactly before ten minutes have passed |
| Accounts.LoginCodeSingleUse | server/src/controllers/authController.js:207-210 | a login code that succeeded is refused afterwards |
| Accounts.RefreshToken | server/src/controllers/authController.js:255-276 | never changes the store; 200 exactly for a non-empty token that verifies to a known user whose stored refresh token it is, issuing a fifteen-minute access token; otherwise 401 |
| Accounts.NewLoginRevokesOldRefresh | server/src/controllers/authController.js:204-207 | after a new login the user's previous refresh token is refused |
| Accounts.ForgotPassword | server/src/controllers/authController.js:278-303 | 404 exactly for an unknown e-mail; otherwise only that account gets a forty-digit reset token valid for an hour, and the reply is 200 exactly when the mail goes out |
| Accounts.ResetPassword | server/src/controllers/authController.js:305-326 | 400 exactly when no account holds the token unexpired; 200 exactly when one does and the new password is non-empty, storing its hash and clearing the token on that account only |
| Accounts.ResetTokenSingleUse | server/src/controllers/authController.js:318-319 | a reset token that succeeded is refused afterwards |
| Accounts.ResetTokenWindow | server/src/controllers/authController.js:285-287 | the token just mailed resets the password within the hour and is refused afterwards |
| ErrorFlow.NotFound | server/src/middleware/errorMiddleware.js:4-8 | status 404 and a message ending with the requested url, with no status on the error itself |
| ErrorFlow.AsWrittenLosesStatus | server/src/middleware/errorMiddleware.js:12 | an error made with a status other than 500 and no status set on the response is answered 500, not its own status |
| ErrorFlow.ErrorHandler | server/src/utils/errorUtils.js:4 | an error's own status code wins; without one the handler behaves as written |
| ErrorFlow.HandlersAgreeWithoutStatus | server/src/middleware/errorMiddleware.js:4-12 | both handlers agree on errors without a status, and both answer the not-found route with 404 |
| ErrorFlow.StatusOf | server/src/middleware/errorMiddleware.js:12 | a success keeps its status; a failure is answered with the error's status code or 500 without one |
| ErrorFlow.CreatedErrorKeepsStatus | server/src/utils/errorUtils.js:2-6 | an error made with a status code is answered with that status |
| Members.ParseRole | server/src/models/userModel.js:35-39 | exactly the three enum names parse, each to the role it names |
| Members.FindMember | server/src/controllers/userController.js:39 | the first member with that id, and none exactly when no member has it |
| Members.FoundMemberIsOnly | server/src/models/userModel.js:4-8 | with unique ids, the member found is the only one with that id |
| Members.SameIdsSameFind | server/src/controllers/userController.js:39 | stores with the same ids in the same places find the same member |
| Members.ReplaceKeepsIds | server/src/controllers/userController.js:56-63 | replacing a member by one with the same id changes no lookup and keeps ids unique |
| AuthMiddleware.Protect | server/src/middleware/authMiddleware.js:8-60 | every refusal is 401; without a Bearer header the request is admitted as the development principal only when open access is on; with one, it is admitted exactly when the token verifies and names a stored member, whose id and role it carries; a malformed token reads "Invalid token", an expired one "Token expired" and any other failure the generic message |
| AuthMiddleware.NoBypassOutsideDevelopment | server/src/middleware/authMiddleware.js:44 | outside development a request without a Bearer header is always refused |
| AuthMiddleware.RemovedMemberRefused | server/src/middleware/authMiddleware.js:23-39 | a valid token whose member no longer exists is refused with 401 "Not authorized to access this route", not "User not found" |
| AuthMiddleware.ProtectRefusalStatus | server/src/middleware/authMiddleware.js:24-58 | every refusal carries 401, which the handler as written answers with 500 and the corrected one with 401 |
| AuthMiddleware.Authorize | server/src/middleware/authMiddleware.js:63-70 | passes exactly when there is a principal whose role is among those allowed; otherwise 403 |
| AuthMiddleware.BypassIsNotAdmin | server/src/middleware/authMiddleware.js:47-52 | the development principal has the ordinary role, so admin-only and team-lead routes still refuse it |
| Users.ApplyPatchLaws | server/src/controllers/userController.js:56-63 | an update with no fields leaves the member as it was, and sending the same update twice changes no more than once |
| Users.UpdateUser | server/src/controllers/userController.js:37-69 | 404 for an unknown target; 403 exactly when a non-admin edits someone else or sends a role; 200 exactly when allowed and the patched member passes the schema (required fields, the role enum, each sent notification's id, title and body, unique username and email), replacing only that member with the whole body applied; any failure leaves the store as it was |
| Users.SelfSetsOwnStats | server/src/controllers/userController.js:37-63 | an ordinary member who sends new statistics and level for themself gets 200 and has them stored, coin balance included |
| Users.NotificationWithoutIdRefused | server/src/models/userModel.js:110-122 | an update carrying a notification with an empty id fails and stores nothing |
| Users.NonAdminStaysInLane | server/src/controllers/userController.js:45-53 | whatever a non-admin sends, no role changes and no other member's record changes |
| Users.UpdateKeepsIds | server/src/models/userModel.js:4-17 | an update keeps member ids unique |
| Users.MergeLaws | server/src/controllers/userController.js:84-90 | merging is idempotent, the empty body changes nothing, a full body replaces everything, and two merges equal one merge of the combined body |
| Users.UpdatePreferences | server/src/controllers/userController.js:74-98 | 404 exactly when the caller is not stored; otherwise only the caller's preferences change, merged with the body |
| Users.GetUserStats | server/src/controllers/userController.js:103-117 | 404 exactly when the caller is not stored; otherwise the caller's level and statistics |
| Users.PreferencesLeaveStats | server/src/controllers/userController.js:74-117 | updating preferences never changes what the statistics route returns for anyone |
| Surveys.ParseQuestionType | server/src/models/surveyModel.js:12-16 | a question type is accepted exactly when it is one of the five enum names |
| Surveys.ToQuestions | server/src/models/surveyModel.js:3-25 | one stored question per submitted one, in order, keeping id, text and type, with options defaulting to none and optional to false |
| Surveys.CreateSurvey | server/src/controllers/surveyController.js:9-49 | 400 for a missing required field or an empty question list; 201 exactly when the fields are present, there is a question and the schema accepts them, appending the survey with its questions converted one by one, its estimated time, its reward and expiry, created now, not archived, tags defaulting to none and departments to "all"; nothing stored otherwise |
| Surveys.NewestFirstIsPreorder | server/src/controllers/surveyController.js:56 | newest-first order by creation time is a total preorder |
| Surveys.GetSurveys | server/src/controllers/surveyController.js:51-69 | exactly the stored surveys that are not archived, expire after now and target "all" or the requested department (any when none is requested), newest first |
| Surveys.CreatedSurveyListed | server/src/controllers/surveyController.js:39-40 | a new survey without target departments is offered to every department until it expires |
| Surveys.GetDailySurveys | server/src/controllers/surveyController.js:71-106 | exactly the non-archived surveys tagged "dagelijks" expiring today that the user has not completed a response to today |
| Surveys.FindSurvey | server/src/controllers/surveyController.js:131 | a survey with that id, and none exactly when no survey has it |
| Surveys.CountForAppend | server/src/controllers/surveyController.js:195-197 | storing a response adds one to its user's response count and nothing to anyone else's |
| Surveys.NextThreshold | server/src/controllers/surveyController.js:210 | the next threshold is one and a half times the current one, rounded down |
| Surveys.GainXp | server/src/controllers/surveyController.js:202-212 | experience is added and the member goes up at most one level, exactly when the threshold is reached, carrying the excess over and raising the threshold by half |
| Surveys.StepStreak | server/src/controllers/surveyController.js:183-191 | a response yesterday extends the streak and lifts the best when it is passed; otherwise the streak restarts at 1 and the best is left as it was; no other statistic changes |
| Surveys.Credit | server/src/controllers/surveyController.js:158-217 | one more survey completed, experience and coins each credited twice, the participation rate set, the level raised by the reward's experience when it is non-zero, the streak stepped; the average response time and every field outside stats and level kept |
| Surveys.SubmitSurveyResponse | server/src/controllers/surveyController.js:129-230 | 404 for an unknown survey; 201 exactly when the survey exists, has not expired and the user has not responded, and 400 when it has expired or the user already responded; on 201 the response is appended and, when the user is stored, only that user is credited with the reward, yesterday's streak and responses over surveys as participation |
| Surveys.SubmitThenDuplicate | server/src/controllers/surveyController.js:141-148 | a second response by the same user to the same survey is refused with 400 |
| Surveys.SubmitHidesDaily | server/src/controllers/surveyController.js:85-99 | a survey answered today is no longer among the user's daily surveys |
| Surveys.DoubleAward | server/src/controllers/surveyController.js:163-216 | a 50-experience, 10-coin survey adds 100 to total experience and 20 coins but only 50 toward the level |
| Surveys.SingleLevelUp | server/src/controllers/surveyController.js:207-211 | a reward worth several levels raises the level by one only, leaving the experience above the new threshold |
| Surveys.StreakBestLag | server/src/controllers/surveyController.js:189-191 | the best streak stays at least the current one, except for a first streak of 1 with best 0, which a restart never lifts |
| Surveys.ParticipationCountsNewResponse | server/src/controllers/surveyController.js:194-199 | the participation rate counts the response just stored over all surveys |
| Surveys.FindProgress | server/src/controllers/surveyController.js:240-243 | the first progress record of that user and survey, and none exactly when there is none |
| Surveys.UpdateSurveyProgress | server/src/controllers/surveyController.js:232-264 | 404 exactly for an unknown survey; otherwise 200 with the user's progress for the survey holding the answers and the save time, updated in place, keeping its question total, when one exists and appended with completed defaulting to 0 and the survey's question count otherwise; one record per user and survey is kept |
| Surveys.ProgressSaveIdempotent | server/src/controllers/surveyController.js:245-249 | saving the same progress twice leaves the store as saving it once |
| Marketplace.RedeemCode | server/src/controllers/marketplaceController.js:157-164 | eight characters, each the alphabet letter or digit the corresponding draw picks |
| Marketplace.AlphabetMatches | server/src/controllers/marketplaceController.js:158 | the code alphabet is the 26 capitals followed by the 10 digits |
| Marketplace.RedeemCodeInjective | server/src/controllers/marketplaceController.js:160-162 | different draws give different codes |
| Marketplace.FindItem | server/src/controllers/marketplaceController.js:64 | an item with that id, and none exactly when no item has it |
| Marketplace.TakeOne | server/src/controllers/marketplaceController.js:105-111 | an item with a non-zero quantity loses one unit and stays available only while units remain; an item without a quantity is unchanged |
| Marketplace.PurchaseItem | server/src/controllers/marketplaceController.js:63-118 | 404 for an unknown item; 400 for an item off sale; 500 when the buyer is not stored; 400 for too few coins and 400 for an active permanent copy already held, each changing nothing; 201 exactly otherwise, then the purchase is appended with a code, one unit taken and the price deducted, leaving the balance non-negative |
| Marketplace.PermanentBoughtOnce | server/src/controllers/marketplaceController.js:80-89 | after buying a permanent item, buying it again is refused with 400 |
| Marketplace.LastUnitClosesSale | server/src/controllers/marketplaceController.js:107-109 | selling the last unit makes the item unavailable |
| Marketplace.FindPurchase | server/src/controllers/marketplaceController.js:121 | the first purchase with that id, and none exactly when no purchase has it |
| Marketplace.RedeemPurchase | server/src/controllers/marketplaceController.js:120-155 | 404 for an unknown purchase, 403 for someone else's; 400 unchanged for a purchase that is not active or already used; an active, unused, expired one is marked expired and inactive with 400; success exactly for the owner's active, unused, unexpired purchase, which becomes used; no other purchase changes |
| Marketplace.RedeemedOnce | server/src/controllers/marketplaceController.js:131-137 | a redeemed purchase cannot be redeemed again |
| Marketplace.PendingNotRedeemable | server/src/controllers/marketplaceController.js:131-133 | a purchase awaiting approval is refused and left as it was |
| Marketplace.CoherenceKept | server/src/controllers/marketplaceController.js:147-148 | buying and redeeming keep every purchase used exactly when its status is "used" |
| Marketplace.RedeemKeepsOwnership | server/src/controllers/marketplaceController.js:80-85 | redeeming does not end permanent ownership, so a permanent item still cannot be bought again |
| Achievements.FindBadge | server/src/controllers/achievementController.js:179 | a badge with that id, and none exactly when no badge has it |
| Achievements.DanglingMeansStranded | server/src/controllers/achievementController.js:30-37 | among a user's awards, one names a missing badge exactly when the store holds such an award of that user |
| Achievements.NotEarnedMeansNoAward | server/src/controllers/achievementController.js:37-40 | a badge is left in progress exactly when the user holds no award for it |
| Achievements.GetUserBadges | server/src/controllers/achievementController.js:27-62 | fails with 500 exactly when one of the user's awards names a deleted badge; otherwise exactly the user's awards as earned and exactly the stored badges without an award of the user as in progress |
| Achievements.GetChallenges | server/src/controllers/achievementController.js:67-82 | the first five badges in stored order, or all when fewer |
| Achievements.ChallengesAfterAppend | server/src/controllers/achievementController.js:67-82 | while fewer than five badges exist a new badge joins the challenges at the end; after that new badges never change them |
| Achievements.GetRecentAchievements | server/src/controllers/achievementController.js:87-104 | at most five of the user's awards, each taken at most as often as stored, newest first, none left out being newer than one shown |
| Achievements.LatestIsRecent | server/src/controllers/achievementController.js:87-104 | an award later than every other award of its user is among that user's recent achievements |
| Achievements.MarkAchievementAsComplete | server/src/controllers/achievementController.js:173-211 | 404 for an unknown badge, 400 when the user already holds it; otherwise 201 and an award dated now with the badge's experience (0 when unset) appended; one award per user and badge is kept |
| Achievements.CompleteThenEarned | server/src/controllers/achievementController.js:186-193 | a completed badge leaves the user's in-progress list and cannot be completed again |
| Achievements.CompleteThenRecent | server/src/controllers/achievementController.js:173-211 | a badge completed later than every earlier award of the user shows among their recent achievements |
| Achievements.PatchBadgeLaws | server/src/controllers/achievementController.js:128 | an update with no fields leaves the badge as it was, and sending the same update twice changes no more than once |
| Achievements.UpdateBadge | server/src/controllers/achievementController.js:126-145 | succeeds exactly when the body passes the validators and the badge exists, replacing only it with every sent field applied, `conditions` included; an unknown badge is 404; failures change nothing |
| Achievements.UpdateBadgeReadBack | server/src/controllers/achievementController.js:126-145 | after an update the badge is found at the same place carrying the patched fields, and repeating the update changes nothing more |
| Achievements.DeleteBadge | server/src/controllers/achievementController.js:150-168 | 404 exactly for an unknown badge; otherwise one badge fewer, no awards touched, every other badge kept and, with unique ids, the badge gone |
| Achievements.DeleteStrandsAwards | server/src/controllers/achievementController.js:30-37 | deleting a badge somebody holds makes that user's badge listing fail |
| Notifications.ParseNotificationType | server/src/models/userModel.js:123-127 | a type is accepted exactly when it is one of the four enum names |
| Notifications.Notify | server/src/controllers/notificationController.js:94 | the member with the notification appended at the end of their list and nothing else changed |
| Notifications.NewestFirstIsPreorder | server/src/controllers/notificationController.js:19 | newest-first order by creation time is a total preorder |
| Notifications.GetUserNotifications | server/src/controllers/notificationController.js:9-21 | 404 exactly when the caller is not stored; otherwise exactly the caller's notifications, newest first, with their number |
| Notifications.FindNotification | server/src/controllers/notificationController.js:33 | the first entry with that subdocument id, and none exactly when there is none |
| Notifications.MarkNotificationAsRead | server/src/controllers/notificationController.js:26-46 | 404 for a missing member or notification, changing nothing; otherwise only that notification of that member becomes read |
| Notifications.MarkReadIdempotent | server/src/controllers/notificationController.js:39-40 | marking the same notification read twice leaves the store as marking it once |
| Notifications.ClearAllNotifications | server/src/controllers/notificationController.js:51-65 | 404 exactly when the caller is not stored; otherwise only the caller's list is emptied |
| Notifications.ClearThenListEmpty | server/src/controllers/notificationController.js:58 | after clearing, the caller's listing is empty with count 0 |
| Notifications.CreateNotification | server/src/controllers/notificationController.js:70-101 | 400 without a user id, title or body; 404 for an unknown member; 201 exactly for a stored member and data the schema accepts, appending the built notification to that member only; every failure changes nothing |
| Notifications.CreateUserNotification | server/src/services/notificationService.js:15-44 | throws exactly for a missing member or data the schema rejects; otherwise appends the built notification to that member and returns it |
| Notifications.ControllerMatchesService | server/src/services/notificationService.js:24-36 | for a stored member the service and the notification-create route, which any signed-in member can call, store the same notification |
| Notifications.Broadcast | server/src/services/notificationService.js:56-60 | with acceptable data, each selected member gets exactly one new notification, the others are unchanged, and the count is the number selected; with rejected data nothing is stored and it fails exactly when someone is selected |
| Notifications.CreateDepartmentNotification | server/src/services/notificationService.js:52-68 | with acceptable data, every member of the department gets the built notification appended, no one else changes, and the count is the department's size; with rejected data nothing is stored and it fails exactly when the department has a member |
| Notifications.CreateSystemNotification | server/src/services/notificationService.js:75-91 | every member gets the notification appended and the count is the number of members; rejected data stores nothing and fails when anyone exists |
| Departments.ByNameIsPreorder | server/src/controllers/departmentController.js:63 | ordering by name is a total preorder |
| Departments.GetDepartments | server/src/controllers/departmentController.js:50-76 | in development without a database, the six built-in departments; without a database elsewhere, 500; with one, exactly the active departments, sorted by name, with their number |
| Departments.FindDepartment | server/src/controllers/departmentController.js:83 | the first department with that id, and none exactly when there is none |
| Departments.GetDepartment | server/src/controllers/departmentController.js:81-97 | 404 exactly for an unknown id; otherwise the stored department with that id, active or not |
| Departments.CreateDepartment | server/src/controllers/departmentController.js:102-116 | 201 exactly for a non-empty name no other department has, appending it active unless the body says otherwise; otherwise 500 and nothing stored; names stay unique |
| Departments.CreatedListed | server/src/models/departmentModel.js:14-17 | a newly created department appears in the listing exactly when the body did not make it inactive |
| Departments.PatchDepartmentLaws | server/src/controllers/departmentController.js:129-132 | an update with no fields leaves the department as it was, and sending the same update twice changes no more than once |
| Departments.UpdateDepartment | server/src/controllers/departmentController.js:121-144 | 404 for an unknown id; 200 exactly when the department exists and any new name is non-empty and unused by the others, replacing only it with its patched copy; otherwise nothing changes; names stay unique |
| Departments.DeleteDepartment | server/src/controllers/departmentController.js:149-174 | 404 exactly for an unknown id; otherwise the department stays stored but inactive and no other department changes |
| Departments.DeleteHides | server/src/controllers/departmentController.js:158-162 | a deleted department is still found by id but leaves the listing, which keeps every other department it had |
| Seqs.Page | server/src/mongodb_server/controllers/sectionController.js:163-164 | `.skip(k).limit(n)`: the elements from position k on, at most n of them and all of them when n is 0, in order |
| Seqs.PageSplit | server/src/mongodb_server/controllers/sectionController.js:163-164 | two consecutive non-empty pages together are the page of their combined size |
| Seqs.CeilDiv | server/src/mongodb_server/controllers/productController.js:95 | the smallest whole number of pages of the given size that holds the count |
| Sorting.SortBy | server/src/controllers/departmentController.js:63 | `.sort(...)`: the same elements, in order |
| Sorting.TopBy | server/src/controllers/achievementController.js:90-92 | `.sort(...).limit(n)`: min(n, length) elements, drawn from the input without repetition beyond its own, in order, no left-out element ranking before a taken one |
| Text.Split | server/src/middleware/authenticateToken.js:26 | `split(' ')`: at least one piece, no piece contains the separator |
| Text.SplitJoin | server/src/middleware/authMiddleware.js:15 | splitting separator-free pieces joined by the separator gives the pieces back |
| Text.JoinSplit | server/src/middleware/authenticateToken.js:26 | joining the pieces of any split with the separator gives the string back |

## Left out

- The external services themselves are not modelled. Stripe, OpenAI, the SMTP mailer, MongoDB connection handling and Redis appear only as the values they return: a `Fetch` that holds a value or is `Unavailable`.
- Uninitialised provider clients from the module-load initialisers are not modelled. A handler sees a client as either configured or missing.
- Rate limiters (`loginLimiter`), `asyncHandler` and logging are left out. Where a read exists only to feed the log, as in the transaction-limit middleware, its failure is still modelled.
- JWT signing and verification, bcrypt comparison and the user model's pre-save hashing hook are inputs:
  - `verify`, `sign` and `hash` are function parameters;
  - `passwordMatches` is a predicate parameter;
  - the hash is applied where the password is stored.
- `crypto.randomBytes` and `Math.random` are draws passed in. The random badge progress of `getUserBadges` is not returned.
- Floating point is left out:
  - the bonus price and its `toFixed(2)` rounding;
  - the cents-to-units divisions;
  - the participation rate, which is kept as an exact ratio of responses to surveys.
- Calendar arithmetic is given, not computed. The current month, today/tomorrow and yesterday boundaries are integer inputs, and so are the JavaScript `Date` parsing and `setHours` calls. `daysUntilReset` is stated against these bounds.
- Requests are not concurrent. Each request is one atomic step, so the non-atomic read-modify-write sequences (decrement then save, deduct coins then save) are not modelled as interleavings.
- Mongoose semantics are partly left out:
  - the regex behind `searchProducts` is a matcher parameter;
  - strict-mode dropping of undeclared fields is not modelled, so the records simply lack `stripeAccountId`, `refundId`, `refundDate` and the user account's `subscription.status`, and the subscription webhook's write to that mirror is not modelled;
  - `trim`/`lowercase` setters are not modelled;
  - `CastError` for malformed ids is not modelled;
  - `parseInt`/`Number` of non-numeric text (NaN) is not modelled.
- `getBonusProducts`, `getProductsByCompanyId`, `getAllTransactions`, `getUsers`, `getUserById`, `getSurveyById`, `getBadges`, `getCategories`, `getItems`, `getItemById` and `getUserPurchases` are left out. Each is a single unfiltered or id-keyed read with no rule beyond the lookups already modelled (`FindProduct`, `FindMember`, `FindSurvey`, `FindItem`).
- `createBadge` is left out: it stores the request body as given.
- `createConnectionToken` and `createPaymentIntent` are left out: they forward to the provider and store nothing.
- `deviceLogin` and `getCurrentUser` are left out. They are a token issued for a company reference id and a read of the caller.
- `charge.refunded` and the other payment events are only acknowledged, which is what the code does.
- `getDepartment`, `updateDepartment` and `deleteDepartment` are modelled with a connected database only. Without a connection they fail like any other store error.
- Survey questions sent as something other than an array are treated like a missing field.
- Subscriptions.CheckStatus: the contract does not fix the reply for a stored record with an empty status. The code answers "inactive" there, and StatusAfterChange states that case after a webhook.
- Notifications.Broadcast, Notifications.CreateDepartmentNotification, Notifications.CreateSystemNotification: they require distinct member ids. Mongo `_id` values are distinct, so the service never sees anything else.
- Subscriptions.NormalisePlan: lower-casing covers only the ASCII letters. JavaScript's `toLowerCase` and `toUpperCase` follow Unicode, so a plan such as "baſic" upper-cases to "BASIC" in the code but not in the model. Whitespace removal does follow ECMAScript's `\s`.
- Subscriptions.CreatePlanCheckout: inherits the ASCII-only case mapping, so a request whose plan or cycle only resolves under Unicode case mapping is refused with 500 in the model.
- Achievements.UpdateBadge: `conditions` is a Mixed value and is kept as its serialised text. A body setting it to null, which the required validator rejects, cannot be expressed.
- Users.UpdateUser: a nested object sent in the body (`level`, `stats`, `preferences`) replaces the stored one as a whole. Partial nested objects and fields outside the schema are not modelled.
- Products.SearchProducts: a query that is not a valid regular expression, or a failed read, makes the code answer 500. The matcher parameter and the store cannot fail here, so that reply is not modelled.

## Findings

| source | as written | input that shows it | evidently intended | confidence | as-written member | corrected member |
|---|---|---|---|---|---|---|
| server/src/controllers/aiController.js:17 | `checkSubscription` accepts only a plan equal to "pro" or "enterprise". The schema stores "Basic", "Pro" and "Enterprise" capitalised, so every plan stored in the schema's capitalisation is refused. | An active subscription with plan "Pro" is refused with 403. | Paying Pro and Enterprise customers get AI insights: the plan is compared without regard to case. | high; not executed | AiInsights.AsWrittenRefusesSchemaPlans, AiInsights.ProCustomerRefused | AiInsights.InsightsPlanExactlyPaidTiers, AiInsights.GenerateAIInsights |
| server/src/middleware/errorMiddleware.js:12 | The central handler takes the status from `res.statusCode` and ignores the `statusCode` that `createError` puts on the error. | `next(createError(401, "Not authorized, no token"))` from `protect`, with the response status still 200, is answered 500. | An error made with a status is answered with that status. | high; not executed | ErrorFlow.AsWrittenLosesStatus, AuthMiddleware.ProtectRefusalStatus | ErrorFlow.ErrorHandler, ErrorFlow.CreatedErrorKeepsStatus |
