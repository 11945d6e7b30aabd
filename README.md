# Invoice management backend: a Dafny model

This project models the server side of a small invoicing service (Node, Express, Mongoose) and proves properties of that model. The service covers:

- **Records.** Users own clients, recurring subscriptions and invoices.
- **Recurring invoices.** A daily job turns every due subscription into a pending invoice and moves its due date on by one month or one year.
- **Payments.** A payment gateway creates an order for an unpaid invoice. The gateway's signed callback then marks that invoice paid.
- **Admin.** Admins see counts and revenue totals, by status and by month.
- **Sign-in.** Accounts are created by email and password, by Google sign-in, or by a phone one-time code. A forgot-password flow mails a reset link.

## Modelling choices

**Store**
- The database is the class `Db.Store`. It holds one map per collection (users, clients, subscriptions, invoices) from id to document, plus `nextId`.
- Ids come from one counter. So the store's natural scan order is ascending id, which is also insertion order.
- `Db.Store.Valid()` is the store's invariant: every key of every collection is below `nextId`, and the user indexes are unique. Every method that writes to the store requires it and keeps it. So a new id is free in every collection, a save of a new document never replaces a stored one, and a scan below `nextId` reads the whole collection.
- Route handlers that write to the store are methods. Each is proved equal to a specification function of the old state, or states its new state outright.

**Dates**
- A date is a civil `DateTime(year, month, day, ms)` in UTC. The model assumes the server runs in UTC.
- `Calendar.AddMonth` and `Calendar.AddYear` follow JavaScript's `setMonth`/`setFullYear`: the day of the month is kept, and the surplus days spill into the following month.
- Reset-token expiry is an epoch-millisecond integer, as `Date.now()` gives it.

**Money**
- Amounts are exact rationals (`real`) in rupees.
- The conversion to paise for the gateway is `Math.round` written out: the floor of `amount * 100 + 0.5`.

**External services become parameters.** Each of these is a function or a flag passed in:
- SHA-256 and HMAC-SHA256;
- bcrypt hashing and comparison;
- the payment gateway's `orders.create` and `orders.fetch`;
- the SMS verification service;
- the mail sender;
- `parseFloat` and `Number` on strings;
- store failures.

**Queries**
- Queries go through the User schema's setters. A `findOne({ email })` looks for the trimmed, lower-cased email, and a `findOne({ username })` for the trimmed username, exactly as they are stored.

**The recurring job** is `SubscriptionJob.Run`, a function over a `Billing` value, i.e. the four collections.
- The imperative `SubscriptionJob.CheckAndCreateInvoices` walks the due list with a loop over the store and is proved to compute exactly `Run`.
- The set `failing` names the store calls that throw. One try block covers the whole walk, so the first failure ends the pass. Everything saved before it stays saved.

**Reset-token fields**
- The route stores them on the user, but the schema at backend/models/User.js:5-50 does not declare `resetPasswordToken` or `resetPasswordExpires`.
- Under Mongoose's strict mode such assignments are dropped on save, so the reset lookup finds nobody. This is recorded under "## Findings".
- `AuthRoutes.ForgotPasswordAsWritten` models the route as written, where the store keeps nothing. The rest of the model follows the route's evident intent and keeps the two fields on `Models.User`.

## Model

| member | source | states |
|---|---|---|
| Calendar.DaysInMonth | backend/cron/subscriptionJob.js:44 | months have 28 to 31 days; 31 exactly for January, March, May, July, August, October, December; 28 exactly for a February outside a leap year |
| Calendar.AtOrBeforeTotalOrder | backend/cron/subscriptionJob.js:13 | the `$lte` comparison of dates is a total order: total, antisymmetric, transitive, and a strict before is irreflexive |
| Calendar.NextMonth | backend/cron/subscriptionJob.js:44 | the following calendar month, counted as year*12+month plus one, with the month kept in 1..12 |
| Calendar.AddMonth | backend/cron/subscriptionJob.js:43-44 | `setMonth(getMonth()+1)` gives a strictly later instant with the same time of day |
| Calendar.AddYear | backend/cron/subscriptionJob.js:45-46 | `setFullYear(getFullYear()+1)` gives a strictly later instant with the same time of day |
| Calendar.AddMonthIsMakeDay | backend/cron/subscriptionJob.js:44 | the result is day `d.day` counted from the start of the next month, i.e. surplus days spill forward |
| Calendar.AddYearIsMakeDay | backend/cron/subscriptionJob.js:46 | the result lies in the next year at the same day-of-year offset from its month start |
| Calendar.AddMonthKeepsDay | backend/cron/subscriptionJob.js:44 | when the day exists in the next month, the month advances and the day is kept |
| Calendar.AddYearKeepsDayUnlessLeapDay | backend/cron/subscriptionJob.js:46 | the same month and day a year later, except 29 February into a common year, which becomes 1 March |
| Calendar.AddMonthFromJanuary31 | backend/cron/subscriptionJob.js:44 | 31 January plus a month is 2 March in a leap year and 3 March otherwise; 31 December becomes 31 January |
| Calendar.AddYearFromLeapDay | backend/cron/subscriptionJob.js:46 | 29 February 2024 plus a year is 1 March 2025; 28 February stays 28 February |
| SubscriptionJob.NextDueDate | backend/cron/subscriptionJob.js:42-47 | the next due date is strictly later than the old one; one month for monthly, one year for yearly |
| SubscriptionJob.FindDueSubscriptions | backend/cron/subscriptionJob.js:12-14 | every entry is a stored subscription due at or before `now`, joined with its client if that client still exists, in increasing id order |
| SubscriptionJob.FindDueIsComplete | backend/cron/subscriptionJob.js:12-14 | every due subscription, however long overdue, is in the due list |
| SubscriptionJob.Snapshot | backend/cron/subscriptionJob.js:31-38 | the new invoice copies owner, description and amount from the subscription and name and email from the client, and is pending |
| SubscriptionJob.Step | backend/cron/subscriptionJob.js:24-51 | one subscription: a missing client changes nothing; otherwise one invoice under the next id, then the due date moved on; a failed save stops with only what was saved; no other subscription changes |
| SubscriptionJob.Pass | backend/cron/subscriptionJob.js:23-57 | an aborted walk reports a position inside the due list |
| SubscriptionJob.Run | backend/cron/subscriptionJob.js:6-58 | the pass is aborted before any work exactly when the due lookup throws, reports nothing due exactly when the lookup finds nothing, changes nothing in both cases, and an abort during the walk names a due subscription |
| SubscriptionJob.PassInvoices | backend/cron/subscriptionJob.js:23-54 | a walk keeps the clients and the existing invoices and adds exactly the reported invoices under consecutive fresh ids |
| SubscriptionJob.PassSubscriptions | backend/cron/subscriptionJob.js:23-54 | a walk changes only subscriptions on its due list |
| SubscriptionJob.PassCreatedIncreasing | backend/cron/subscriptionJob.js:23-54 | the invoices of a walk are created for strictly increasing subscription ids |
| SubscriptionJob.PassHead | backend/cron/subscriptionJob.js:23-54 | a walk that gets past its first entry has handled it and leaves it alone afterwards |
| SubscriptionJob.HandledAfter | backend/cron/subscriptionJob.js:23-54 | once handled, a subscription stays handled through the rest of the walk |
| SubscriptionJob.PassEntry | backend/cron/subscriptionJob.js:23-57 | each entry of the due list is handled if the walk got past it, and unsaved if the walk stopped at it or before |
| SubscriptionJob.PassLater | backend/cron/subscriptionJob.js:55-57 | entries after the point of failure get no invoice and keep their due date |
| SubscriptionJob.RunInvoices | backend/cron/subscriptionJob.js:6-58 | a pass keeps clients and existing invoices, and its new invoices are exactly those reported, under fresh consecutive ids |
| SubscriptionJob.RunTouchesOnlyDue | backend/cron/subscriptionJob.js:12-14 | a subscription that is not yet due is unchanged and gets no invoice |
| SubscriptionJob.RunNothingDue | backend/cron/subscriptionJob.js:16-19 | when nothing is due, the pass changes nothing and creates no invoice |
| SubscriptionJob.RunOneInvoicePerSubscription | backend/cron/subscriptionJob.js:23-54 | no subscription gets two invoices in one pass |
| SubscriptionJob.RunDueSubscription | backend/cron/subscriptionJob.js:23-57 | a due subscription the pass got past is handled: skipped unchanged without a client, else invoiced once and advanced one period; one at or after the failure is unchanged, and one after it gets no invoice |
| SubscriptionJob.RunLeavesOverdueDue | backend/cron/subscriptionJob.js:42-51 | a subscription overdue by more than one period is still due after the pass |
| SubscriptionJob.ThreeMonthsOverdue | backend/cron/subscriptionJob.js:42-51 | a monthly subscription due 15 January moves only to 15 February in a pass on 20 April |
| SubscriptionJob.ProcessOne | backend/cron/subscriptionJob.js:24-51 | the loop body over the store computes exactly `Step` and leaves the users alone |
| SubscriptionJob.CheckAndCreateInvoices | backend/cron/subscriptionJob.js:6-58 | the job over the store computes exactly `Run`: the same collections and the same report of created invoices and outcome |
| Models.ParseFrequency | backend/models/Subscription.js:26-30 | the frequency enum accepts exactly `monthly` and `yearly` |
| Models.ParseGender | backend/models/User.js:36-40 | the gender enum accepts exactly `male`, `female`, `other` and `prefer_not_to_say` |
| Models.ClientValid | backend/models/Client.js:11-18 | definition: the required name and email are non-empty |
| Models.SubscriptionValid | backend/models/Subscription.js:22-25 | definition: the required description is non-empty |
| Models.InvoiceValid | backend/models/Invoice.js:13-24 | definition: the required client name, client email and description are non-empty |
| Models.NewInvoice | backend/models/Invoice.js:5-37 | a new invoice has the given fields, `createdAt` now, and status pending unless one is given |
| Models.NewUser | backend/models/User.js:5-50 | a new user's username is stored trimmed and email trimmed and lower-cased, with no reset token |
| Models.NormalizeEmail | backend/models/User.js:12-18 | definition: the `lowercase` then `trim` setters; `NormalizeIdempotent` and `EmailIdempotent` state its properties |
| Models.NormalizeUsername | backend/models/User.js:6-11 | definition: the `trim` setter; `NormalizeIdempotent` states it is idempotent |
| Models.UserValid | backend/models/User.js:6-18 | definition: the required username and email are non-empty after the setters |
| Models.UsersUnique | backend/models/User.js:6-30 | definition: no two accounts share a username or an email, and no two share a mobile number when they have one (the sparse index) |
| Models.NormalizeIdempotent | backend/models/User.js:6-18 | the username and email setters are idempotent, and a stored email holds no upper-case letter |
| Models.EmailHasNoUpper | backend/models/User.js:16-17 | a stored email holds no ASCII capital letter |
| Models.EmailIdempotent | backend/models/User.js:16-17 | applying the email setters to a stored email changes nothing |
| Models.LowerCaseHasNoUpper | backend/models/User.js:16 | lower-casing leaves no ASCII capital |
| Models.LowerCaseOfLower | backend/models/User.js:16 | lower-casing a string without capitals changes nothing |
| Models.Usernames | backend/models/User.js:9 | the set of usernames holds exactly the usernames of stored users |
| Models.Emails | backend/models/User.js:15 | the set of emails holds exactly the emails of stored users |
| Models.InsertKeepsUnique | backend/models/User.js:9-29 | adding a user that clashes with no stored username, email or mobile number keeps all three unique indexes |
| Models.ReplaceKeepsUnique | backend/routes/auth.js:263 | saving an account again with its username, email and mobile number unchanged keeps every unique index unique |
| Models.PreSave | backend/models/User.js:53-65 | the password is replaced by its hash exactly when it was modified and is non-empty; an absent password stays absent |
| Models.SavedPasswordMatches | backend/models/User.js:53-65 | a non-empty password saved as new compares equal to its stored hash |
| Text.TrimEmptyIffAllSpace | backend/routes/invoices.js:130 | `trim()` yields the empty string exactly for white-space-only text |
| Text.TrimIdempotent | backend/models/User.js:10 | trimming twice is trimming once, and a trimmed string neither starts nor ends with white space |
| Text.IsSpace | backend/routes/invoices.js:161-163 | definition: the ECMAScript white space and line terminator characters that `\s` and `trim` match |
| Text.Trim | backend/routes/invoices.js:130 | definition: `trim()` as leading then trailing white-space removal; `TrimShape`, `TrimIdempotent` and `TrimEmptyIffAllSpace` state its properties |
| Text.TrimShape | backend/routes/invoices.js:163 | trimming never lengthens the text and leaves no white space at either end |
| Text.TrimKeepsCharacters | backend/models/User.js:16-17 | trimming only removes characters, so it adds none that were not there |
| Text.TrimKeepsTrimmed | backend/routes/invoices.js:163 | text with no white space at either end is its own trim |
| Db.Scan | backend/cron/subscriptionJob.js:12-14 | a `find` filter yields exactly the ids of the matching documents, in increasing id order |
| Db.Select | backend/routes/clients.js:13 | a `find` filter yields exactly the matching documents paired with their ids, each id once and in increasing order |
| Db.FindFirst | backend/routes/auth.js:241-244 | `findOne` yields the first matching document, and nothing only when none matches |
| Db.FindFirstFindsNew | backend/routes/auth.js:333 | a document saved under a fresh id when none matched before is the one `findOne` now finds |
| Db.SetPaid | backend/routes/invoices.js:276-280 | setting status paid changes that invoice's status and nothing else |
| Db.SetPaidIdempotent | backend/routes/invoices.js:276-280 | marking paid twice is marking paid once; an invoice already paid is unchanged |
| Db.FindUserByEmail | backend/routes/auth.js:30 | the email lookup finds the user whose stored email is the normalised input; it finds nobody only when no user has it |
| Db.Store.NewId | backend/routes/invoices.js:231-243 | a new document's id is the next id, which no document of any collection holds, and the store invariant is kept |
| Db.Store.AddUser | backend/routes/auth.js:39-48 | a user that clashes with no unique index is stored under a free id, exactly that entry is added, and the store invariant is kept |
| Db.FindUserByEmailFinds | backend/routes/auth.js:71 | with unique emails, the account holding the normalised email is the one the lookup finds |
| NameSearch.FirstFreeIndex | backend/config/passport-setup.js:29-32 | the counting loop stops at the first candidate not taken, and every earlier one is taken |
| NameSearch.FirstFreeIndexUnique | backend/config/passport-setup.js:29-32 | that stopping point is unique |
| Payments.AmountInPaise | backend/routes/payments.js:33 | `Math.round(amount*100)`: the nearest integer, halves rounded up |
| Payments.AmountInPaiseExact | backend/routes/payments.js:33 | an amount in whole paise converts exactly |
| Payments.OrderFor | backend/routes/payments.js:34-38 | the order requested carries the amount in paise, currency INR and the invoice id as receipt |
| Payments.CreateOrder | backend/routes/payments.js:23-45 | not-found exactly when the caller owns no such invoice; already-paid exactly for a paid one; otherwise the gateway's order; the store is never written |
| Payments.CreateOrderRefusalsIgnoreGateway | backend/routes/payments.js:26-32 | the two refusals come before the gateway call, so no gateway changes them |
| Payments.SignatureMessage | backend/routes/payments.js:54 | the signed message is the order id, a vertical bar, then the payment id |
| Payments.SignatureMessageSplits | backend/routes/payments.js:54 | when the order id holds no vertical bar, both ids can be read back from the message |
| Payments.ExpectedSignature | backend/routes/payments.js:54-58 | definition: the HMAC-SHA256, under the key secret, of the signed message; `VerifyPaymentSpec` fails exactly when it differs from the given signature |
| Payments.VerifyPaymentSpec | backend/routes/payments.js:49-81 | failure exactly on a signature mismatch; 500 exactly when the order fetch fails; only success changes the store, marking the receipt's invoice paid |
| Payments.VerifyPayment | backend/routes/payments.js:49-81 | the handler over the store computes exactly `VerifyPaymentSpec` |
| Payments.VerifyPaymentIdempotent | backend/routes/payments.js:65-71 | a replayed callback succeeds again and changes nothing more |
| Payments.PaymentMarksTheInvoicePaid | backend/routes/payments.js:23-81 | an order created for an invoice, then a correctly signed callback for it, mark that invoice paid and leave the others unchanged |
| InvoiceRoutes.FileFilter | backend/routes/invoices.js:32-40 | a file is accepted exactly when it is a PDF or an image; a rejection carries the error message |
| InvoiceRoutes.UploadRejection | backend/routes/invoices.js:56-61 | the upload is refused with the filter's message for a rejected file, and with the generic message when there is no file |
| InvoiceRoutes.ParseTextInput | backend/routes/invoices.js:129-132 | the text is taken exactly when it is a string with a non-white-space character |
| InvoiceRoutes.StripOpeningFence | backend/routes/invoices.js:161 | text without the opening fence is unchanged; after a removed fence, no white space is left at the start and the text is shorter by at least the fence |
| InvoiceRoutes.StripClosingFence | backend/routes/invoices.js:162 | text without the closing fence is unchanged; after a removed fence, no white space is left at the end and the text is shorter by at least the fence |
| InvoiceRoutes.CleanReply | backend/routes/invoices.js:160-163 | the cleaned reply is no longer than the reply and has no white space at either end |
| InvoiceRoutes.TrimStartSkipsSpace | backend/routes/invoices.js:161 | leading white space before text that starts with a non-space character is removed entirely |
| InvoiceRoutes.TrimEndSkipsSpace | backend/routes/invoices.js:162 | trailing white space after text that ends with a non-space character is removed entirely |
| InvoiceRoutes.StripOpeningFenceOf | backend/routes/invoices.js:161 | the opening json code fence and the white space after it are removed |
| InvoiceRoutes.StripClosingFenceOf | backend/routes/invoices.js:162 | the closing fence and the white space before it are removed |
| InvoiceRoutes.CleanFencedReply | backend/routes/invoices.js:160-163 | a fenced reply is cleaned down to exactly its body |
| InvoiceRoutes.CleanUnfencedReply | backend/routes/invoices.js:160-163 | a reply without fences is only trimmed |
| InvoiceRoutes.FillRequiredKeys | backend/routes/invoices.js:179-184 | every required key is present afterwards; keys already present keep their values and added ones are null |
| InvoiceRoutes.WithTotal | backend/routes/invoices.js:170-176 | the `totalAmount` step adds `totalAmount` when missing (as null), keeps every other field, and keeps any total that is not a non-empty string |
| InvoiceRoutes.PostProcess | backend/routes/invoices.js:166-190 | an object gains all required keys; a non-empty string total becomes the parsed number of its digits and dots, or null; other fields are kept; a primitive reply is a 500 and an array passes through |
| InvoiceRoutes.CheckManualInvoice | backend/routes/invoices.js:221-241 | missing fields exactly when name or description is falsy or the amount is null or absent; not-numeric exactly when `Number` fails; a validation error exactly when the email is absent; accepted exactly when none of these holds, with the caller as owner, the converted amount and status defaulting to pending |
| InvoiceRoutes.ToNumber | backend/routes/invoices.js:226 | `Number(amount)`: NaN exactly for objects, arrays and strings the conversion rejects; null and false are 0, true is 1, a number is itself |
| InvoiceRoutes.ManualInvoiceNeedsEmail | backend/routes/invoices.js:234 | the `''` default for a missing email is always refused by the schema |
| InvoiceRoutes.CreateInvoice | backend/routes/invoices.js:219-253 | an accepted invoice is stored under the next id, which no stored invoice held, so nothing is replaced; any rejection leaves the store unchanged; the store invariant is kept |
| InvoiceRoutes.ListInvoices | backend/routes/invoices.js:208-216 | the listing holds exactly the caller's invoices below `nextId`, newest first; under the store invariant that is every invoice the caller owns |
| InvoiceRoutes.ListInvoicesDistinct | backend/routes/invoices.js:210 | no invoice appears twice in the listing |
| InvoiceRoutes.MarkPaid | backend/routes/invoices.js:274-290 | the caller's invoice is marked paid and returned; otherwise 404 and nothing changes |
| InvoiceRoutes.DeleteInvoice | backend/routes/invoices.js:256-271 | removes exactly the caller's invoice; otherwise 404 and nothing changes |
| Sorting.Insert | backend/routes/invoices.js:210 | inserting into a sorted listing keeps it sorted and adds exactly one element |
| Sorting.SortBy | backend/routes/subscriptions.js:16 | the sorted listing is ordered by the key and is a permutation of its input |
| Sorting.SortByKeepsElements | backend/routes/subscriptions.js:16 | sorting neither adds nor drops a document |
| Sorting.PermutationKeepsFirstsDistinct | backend/routes/invoices.js:210 | reordering a listing whose ids are distinct keeps them distinct |
| SubscriptionRoutes.ListSubscriptions | backend/routes/subscriptions.js:11-21 | the listing holds exactly the caller's subscriptions, soonest due first |
| SubscriptionRoutes.CheckSubscription | backend/routes/subscriptions.js:25-44 | a document exactly when every required field is present, the description non-empty and the frequency in the enum; it stores the fields as given, with the caller as owner |
| SubscriptionRoutes.CreateSubscription | backend/routes/subscriptions.js:25-44 | a valid subscription is stored under the next id, which no stored subscription held; otherwise 400 with nothing stored; the store invariant is kept |
| SubscriptionRoutes.DeleteSubscription | backend/routes/subscriptions.js:48-64 | removes exactly the caller's subscription, leaves invoices and clients alone; otherwise 404 with nothing changed |
| ClientRoutes.ListClients | backend/routes/clients.js:11-18 | the listing holds exactly the caller's clients, in scan order |
| ClientRoutes.CheckClient | backend/routes/clients.js:22-39 | a document exactly when name and email are non-empty; phone is optional and kept as given |
| ClientRoutes.CreateClient | backend/routes/clients.js:22-39 | a valid client is stored under the next id, which no stored client held; otherwise 400 with nothing stored; the store invariant is kept |
| ClientRoutes.DeleteClient | backend/routes/clients.js:43-59 | removes exactly the caller's client and nothing else; no cascade to subscriptions or invoices |
| ClientRoutes.DeletedClientIsSkipped | backend/routes/clients.js:45-48 | after its client is deleted, a due subscription gets no invoice from the job and keeps its due date |
| Grouping.KeysOf | backend/routes/admin.js:38-45 | the group keys are distinct and are exactly the keys occurring in the input |
| Grouping.Groups | backend/routes/admin.js:38-45 | each group's total is the sum of the amounts with that key |
| Grouping.SumByAbsent | backend/routes/admin.js:38-45 | a key that never occurs sums to zero |
| Grouping.GroupsOfNothing | backend/routes/admin.js:38-45 | grouping no documents totals zero |
| Grouping.GroupsAppend | backend/routes/admin.js:38-45 | one more document adds its amount to the grand total of the groups |
| Grouping.Regroup | backend/routes/admin.js:38-45 | groups covering every key together total the sum of all amounts |
| Grouping.GroupByKeepsTotal | backend/routes/admin.js:38-45 | `$group` with `$sum` neither loses nor double-counts any amount |
| Grouping.Matching | backend/routes/admin.js:62-66 | `$match` keeps exactly the documents with the key |
| Grouping.SumAllMatching | backend/routes/admin.js:62-73 | summing the matched documents is summing by that key |
| Grouping.LastValueOfGroups | backend/routes/admin.js:51-58 | the value read for a status is that status's total, or 0 when it has no group |
| AdminRoutes.AllInvoices | backend/routes/admin.js:17 | one entry per stored invoice id, in the scan order of `Db.Scan`, each the document stored under that id; so every stored invoice is read exactly as often as it is stored |
| AdminRoutes.GetStats | backend/routes/admin.js:14-27 | definition: the numbers of stored users and invoices; `StatsCountInvoices` states how saves and deletes move them |
| AdminRoutes.StatsCountInvoices | backend/routes/admin.js:14-27 | `/stats` counts invoices: one more or one fewer invoice moves the count by one |
| AdminRoutes.RevenueByStatus | backend/routes/admin.js:38-45 | one group per status, each status once, every invoice's status among them, each group's total the sum of that status's amounts |
| AdminRoutes.RevenueTotals | backend/routes/admin.js:47-58 | the `forEach` computes the total of all groups and the pending and paid groups' totals |
| AdminRoutes.RevenueTotalIsSum | backend/routes/admin.js:38-53 | total revenue is the sum of all invoice amounts |
| AdminRoutes.RevenueForStatus | backend/routes/admin.js:47-58 | pending and paid revenue are the summed amounts of that status, or 0 |
| AdminRoutes.TotalIsPendingPlusPaid | backend/routes/admin.js:51-58 | when every invoice is pending or paid, total revenue is pending plus paid |
| AdminRoutes.InsertMonth | backend/routes/admin.js:76-78 | inserting a month keeps the months strictly increasing |
| AdminRoutes.SortMonths | backend/routes/admin.js:76-78 | `$sort` on year then month gives strictly increasing months with the same members |
| AdminRoutes.PaidInvoices | backend/routes/admin.js:62-66 | the matched invoices are all paid and stored, and every paid invoice is among them |
| AdminRoutes.PaidMonths | backend/routes/admin.js:61-78 | the months listed are exactly those with a paid invoice, once each, in increasing order |
| AdminRoutes.DigitsHaveNoDash | backend/routes/admin.js:83-86 | a decimal rendering holds no dash |
| AdminRoutes.Label | backend/routes/admin.js:80-88 | definition: the year, a dash and the month, without zero padding; `LabelInjective` and `LabelExamples` state its properties |
| AdminRoutes.LabelInjective | backend/routes/admin.js:80-88 | different months get different `year-month` labels |
| AdminRoutes.LabelExamples | backend/routes/admin.js:80-88 | the month is not zero-padded: October 2025 is `2025-10`, March 2025 is `2025-3` |
| AdminRoutes.Project | backend/routes/admin.js:79-90 | `$project` maps each group to its label and revenue, one entry each |
| AdminRoutes.MonthlyRevenue | backend/routes/admin.js:61-91 | one entry per paid month, in increasing order, whose revenue is the sum of that month's paid invoices |
| AdminRoutes.SumRevenueProject | backend/routes/admin.js:79-90 | projection keeps the total revenue |
| AdminRoutes.MonthlyRevenueAddsUp | backend/routes/admin.js:61-91 | the monthly entries add up to the paid revenue |
| AdminRoutes.DashboardData | backend/routes/admin.js:31-107 | with every invoice id below `nextId`, as the store invariant keeps them, the dashboard's counts, total, pending and paid revenue are the sums over all stored invoices, and its monthly revenue is `MonthlyRevenue` |
| AdminGuard.FindById | backend/middleware/admin.js:8 | the lookup finds exactly the stored user, or reports the store error |
| AdminGuard.Decide | backend/middleware/admin.js:8-19 | proceeds exactly for a found admin; 500 exactly for a lookup error; 403 otherwise |
| AdminGuard.AdminMiddleware | backend/middleware/admin.js:3-20 | proceeds exactly for an existing admin; 500 exactly on a lookup error; 403 exactly for a missing or non-admin user |
| AdminGuard.MissingAndNonAdminAlike | backend/middleware/admin.js:11-15 | a missing user and a plain user get the same 403 |
| AdminGuard.PromotionGrantsAccess | backend/middleware/admin.js:11 | the role alone decides: an admin proceeds and the same user as plain user is refused |
| PassportSetup.EmailPrefix | backend/config/passport-setup.js:25 | the prefix is the start of the email up to, and without, the first `@` |
| PassportSetup.Candidate | backend/config/passport-setup.js:26-31 | the first candidate is the prefix itself, the k-th the prefix followed by k |
| PassportSetup.NumberedCandidateTrimmed | backend/config/passport-setup.js:30 | a numbered candidate as the trimming setter stores it |
| PassportSetup.CandidatesDistinct | backend/config/passport-setup.js:29-32 | different candidates stay different after trimming, so the loop ends |
| PassportSetup.Tried | backend/config/passport-setup.js:29-32 | the names the loop queries are pairwise distinct |
| PassportSetup.LoopStopsAtFirstFree | backend/config/passport-setup.js:29-32 | where the loop stops, the candidate is free and all earlier ones are taken |
| PassportSetup.NewAccountFits | backend/config/passport-setup.js:34-42 | an account with a free username and email and no phone breaks no unique index |
| PassportSetup.GoogleUser | backend/config/passport-setup.js:34-41 | the new account has no password, no phone, role user, and the normalised username and email |
| PassportSetup.SignUpKeepsIndexes | backend/config/passport-setup.js:34-42 | saving it under the next id keeps ids fresh and the indexes unique |
| PassportSetup.ChooseAccount | backend/config/passport-setup.js:25-41 | the loop's account has the first free username, held by no existing user |
| PassportSetup.GoogleSignUpUnique | backend/config/passport-setup.js:25-41 | the loop builds one account only: two accounts that both fit the description are equal |
| PassportSetup.SignUp | backend/config/passport-setup.js:21-44 | a new account is added under the next id exactly when the account the loop builds passes validation; otherwise `done(err)` with nothing saved; indexes stay unique |
| PassportSetup.FindOrCreate | backend/config/passport-setup.js:13-50 | an existing account with the email is returned with nothing created; with no such account and a valid built account, a fresh account is created and returned; a store error gives `done(err)` and no change |
| AuthRoutes.GenderOf | backend/models/User.js:36-40 | a gender is refused exactly when given but outside the enum |
| AuthRoutes.RegisterCheck | backend/routes/auth.js:21-62 | missing-fields exactly when a field is falsy; email-in-use exactly when the email is taken; username-taken exactly when only the username is; a validation error exactly when the route checks pass but the gender is outside the enum or a name trims to empty; a server error exactly when the number is already in use; a new account exactly otherwise, with the normalised names, the hashed password, the trimmed number, role user, unverified, clashing with nobody |
| AuthRoutes.FreshAccountFits | backend/routes/auth.js:39-48 | an accepted registration clashes with no unique index |
| AuthRoutes.Register | backend/routes/auth.js:21-62 | the handler over the store stores exactly the accepted account under the next id, keeps indexes unique, and changes nothing on a refusal |
| AuthRoutes.Login | backend/routes/auth.js:65-106 | missing-fields, the same invalid-credentials for an unknown email and a wrong password, the phone hint exactly for a verified phone account without password, the Google hint for other password-less accounts; success returns the account's id, role and username |
| AuthRoutes.LoginFindsAccount | backend/routes/auth.js:71-99 | the right password for a stored account logs in as that account |
| AuthRoutes.RegisterThenLogin | backend/routes/auth.js:21-106 | an account just registered can log in with the same email and password |
| AuthRoutes.SavedAccountLogsIn | backend/routes/auth.js:71-99 | a newly saved account with a hashed password logs in |
| AuthRoutes.PasswordlessAccountGetsHint | backend/routes/auth.js:76-82 | an account without password and without a verified phone gets the Google hint |
| AuthRoutes.ForgotPasswordSpec | backend/routes/auth.js:161-214 | 400 exactly without an email; the neutral 200 exactly for an unknown email, with no change; otherwise the user holds the hashed token expiring an hour later, cleared again if the mail fails |
| AuthRoutes.WithResetFields | backend/routes/auth.js:183-184 | the user holds the given token and expiry, every other account is unchanged, and none is added or removed |
| AuthRoutes.SaveResetFields | backend/routes/auth.js:183-185 | saving the reset fields changes only that user's two fields |
| AuthRoutes.ForgotPassword | backend/routes/auth.js:161-214 | the handler over the store computes exactly `ForgotPasswordSpec` |
| AuthRoutes.FindByResetToken | backend/routes/auth.js:241-244 | finds a user holding the hashed token with expiry strictly later than now, or nobody only when none does |
| AuthRoutes.AfterReset | backend/routes/auth.js:258-263 | the reset sets the hashed new password, clears both token fields, and changes nothing else |
| AuthRoutes.ResetPasswordSpec | backend/routes/auth.js:217-274 | 400 exactly without password or token; invalid exactly when no user holds the hashed token unexpired; otherwise only that user is updated |
| AuthRoutes.ResetPassword | backend/routes/auth.js:217-274 | the handler over the store computes exactly `ResetPasswordSpec` |
| AuthRoutes.ResetTokenSingleUse | backend/routes/auth.js:258-263 | after a successful reset the same token is refused |
| AuthRoutes.ForgotThenReset | backend/routes/auth.js:176-185 | the mailed token resets the password strictly before the hour is up, and is refused from then on |
| AuthRoutes.ForgotPasswordAsWritten | backend/routes/auth.js:161-214 | as written: the responses of `ForgotPasswordSpec`, with every account unchanged because the schema drops the two fields |
| AuthRoutes.ResetRefusedAsWritten | backend/routes/auth.js:241-256 | as written: after a reset link is reported sent, every reset with a password and a token is refused as invalid or expired |
| PhoneAuth.FormatPhone | backend/routes/auth.js:287 | a number starting with `+` is kept; any other gets `+91` in front |
| PhoneAuth.FormatPhoneIdempotent | backend/routes/auth.js:322 | formatting an already formatted number changes nothing |
| PhoneAuth.StatusOr500 | backend/routes/auth.js:301 | the error's status when it is present and non-zero, else 500 |
| PhoneAuth.SendErrorOf | backend/routes/auth.js:298-313 | the error codes map to 400 for a bad number, 400 for an unreachable one, 429 for rate limits, else the error's status or 500 |
| PhoneAuth.SendOtp | backend/routes/auth.js:280-314 | 400 exactly without a number; sent exactly when the service accepts the formatted number; otherwise the mapped error |
| PhoneAuth.VerifyErrorOf | backend/routes/auth.js:373-385 | code 20404 or status 404 is an invalid code (400); 60202 is too many attempts (429); else the error's status or 500 |
| PhoneAuth.RejectedLikeUnknown | backend/routes/auth.js:370-379 | an unknown verification and a rejected code give the same answer |
| PhoneAuth.PhoneCandidate | backend/routes/auth.js:337-341 | candidates start with `user_` and the digits; only the first has no suffix |
| PhoneAuth.PlaceholderEmail | backend/routes/auth.js:338 | the placeholder email is the username followed by the placeholder domain |
| PhoneAuth.CandidateIsPlain | backend/routes/auth.js:337-342 | candidate usernames and emails hold no white space and no capital |
| PhoneAuth.PhoneCandidatesDistinct | backend/routes/auth.js:340-344 | different rounds try different usernames, so the loop ends |
| PhoneAuth.PhoneNames | backend/routes/auth.js:340 | a name is taken exactly when it is a username or its placeholder email is an email |
| PhoneAuth.PlaceholderLocalsExact | backend/routes/auth.js:340 | a name is the local part of a stored placeholder email exactly when its placeholder email is stored |
| PhoneAuth.PlaceholderOfLocalPart | backend/routes/auth.js:338 | an email ending in the placeholder domain is the placeholder email of what precedes the domain |
| PhoneAuth.TakenNames | backend/routes/auth.js:340 | the names the loop's lookup finds are exactly the taken ones |
| PhoneAuth.PhoneTried | backend/routes/auth.js:340-344 | the names the loop queries are pairwise distinct |
| PhoneAuth.PhoneUser | backend/routes/auth.js:345-348 | the phone account is verified, has no password, role user, and the trimmed formatted number |
| PhoneAuth.PhoneUserIsNewUser | backend/routes/auth.js:345-349 | it is what the schema stores for those fields |
| PhoneAuth.FindByMobile | backend/routes/auth.js:333 | finds the account with that number, or nobody only when none has it |
| PhoneAuth.CandidateIsNormal | backend/routes/auth.js:340-346 | the setters store a candidate and its email unchanged |
| PhoneAuth.PhoneLoopStops | backend/routes/auth.js:340-344 | where the loop stops, the candidate is free and all earlier ones are taken |
| PhoneAuth.FirstFreeSignsUp | backend/routes/auth.js:337-349 | the account built there is the phone sign-up |
| PhoneAuth.ChoosePhoneAccount | backend/routes/auth.js:337-348 | the loop picks a free username and free email, and the new account holds the number |
| PhoneAuth.PhoneAccountFits | backend/routes/auth.js:345-349 | that account breaks no unique index |
| PhoneAuth.PhoneRegister | backend/routes/auth.js:335-350 | the phone account is stored under the next id and indexes stay unique |
| PhoneAuth.MarkVerified | backend/routes/auth.js:353-356 | only the verified flag of that user changes |
| PhoneAuth.VerifyOtp | backend/routes/auth.js:317-386 | 400 exactly without number or code; a sign-in exactly when the service approves; an existing account is signed in and marked verified; otherwise a new phone account is created; errors change nothing |
| PhoneAuth.SecondSignInFindsAccount | backend/routes/auth.js:333 | the next sign-in with the same number finds the account just created |
| PhoneAuth.PhoneAccountGetsPhoneHint | backend/routes/auth.js:76-79 | a verified phone account without password gets the phone hint at login |

## Left out

- Scheduling: `cron.schedule` and its time zone, and the start call in the server's entry point. One pass is a method taking `now`.
- Server wiring (Express, CORS, the Mongo connection, `listen`), the JWT authentication middleware and the SMTP mail setup. They are transport and I/O.
- OCR and AI parsing: the Vision call, the Gemini call, `JSON.parse` and multer's disk storage are foreign services and file I/O. The model starts from the reply text and from the parsed JSON value.
- Cryptography and external clients (SHA-256, HMAC-SHA256, bcrypt, `crypto.randomBytes`, JWT signing, Twilio, the payment gateway, nodemailer): these are function parameters with no properties assumed, except that bcrypt's compare accepts a password against its own hash where a lemma needs it.
- The Google OAuth redirect routes and the JWT signing callbacks after login: they only sign a token and redirect.
- The `get-key-id` route of the payments module: it only returns a configuration value.
- Floating point: amounts are exact reals. `parseFloat`, `Number` on strings and floating-point sums are not modelled bit for bit.
- Payments.AmountInPaise: rounds exact reals, so it does not reproduce binary floating-point errors of `amount * 100`.
- InvoiceRoutes.ToNumber: takes objects and arrays to be NaN, whereas `Number` converts some of them (`[]` to 0).
- InvoiceRoutes.PostProcess: JSON key order and non-JSON values are not modelled.
- Request bodies are modelled with string fields, except where the source inspects types (parse-text and manual create). Non-string values in other fields are left out.
- `$group` output order: the model lists groups in first-occurrence order. Only sums and per-key values are stated, which do not depend on that order.
- Time zones: the model assumes the server runs in UTC. Without a time zone argument, `$month` and `$year` read UTC, while `setMonth` and `setFullYear` work in the server's local time. On a server in another zone, a due date or an invoice can fall in a different month than the model says.
- Lower-casing is ASCII only, and white space is the common ASCII and Unicode space characters, without case folding.
- The gateway's receipt is modelled as the invoice id itself rather than its string form.
- `populate` is modelled as the join with the client map. Fields that are only displayed are left out.
- Sort stability among equal keys is not stated: sorting is stated as ordered and a permutation.
- Concurrency (overlapping job passes, duplicate payment callbacks) and all logging.
- The frontend.
- Store failures and other thrown errors, except in the job, the admin middleware, Google sign-in, the SMS service's errors and the payment verification's order fetch. The catch-all 400 and 500 responses are not modelled in these routes:
  - the auth routes' store calls (register, login, forgot and reset password, the phone routes' lookups and saves);
  - the invoice routes (list, manual create's save, mark paid, delete);
  - the client routes (list, the create's save, delete);
  - the subscription routes (list, the create's save, delete);
  - the payment order creation (its gateway error) and the verification callback (any other throw);
  - the admin `/stats` and `/dashboard-data` routes.
- Models.ParseRole: the role enum is modelled, but no route accepts a role from a request.
- The reset-token fields are modelled as declared on the user; the as-written behaviour, where they are not saved, is the row under "## Findings". The version of Mongoose is not part of this model. Where `strictQuery` is on (the default before Mongoose 7), the undeclared paths are also dropped from the reset lookup's filter, which then matches an arbitrary account instead of none; that variant is not modelled.

## Findings

| source | as written | input that shows it | evidently intended | confidence | as-written member | corrected member |
|---|---|---|---|---|---|---|
| backend/models/User.js:5-50 with backend/routes/auth.js:183-185 and 241-244 | the schema declares neither `resetPasswordToken` nor `resetPasswordExpires`, so the `save` after `forgot-password` stores neither, and the reset lookup by hashed token finds nobody | any stored account: `forgot-password` with its email reports the link sent; `reset-password` with the mailed token and a new password, a minute later, answers 400 "invalid or has expired" | the two fields are stored, and the mailed token resets the password strictly before the hour is up and is refused after | not executed | AuthRoutes.ResetRefusedAsWritten (over AuthRoutes.ForgotPasswordAsWritten) | AuthRoutes.ForgotThenReset (over AuthRoutes.ForgotPasswordSpec) |
