# Lorre admission and analytics, modelled in Dafny

Lorre is a ticketing and admission system for a student venue. Visitors buy a year pass or a one-time pass. At the door an admin scans the pass, and the server either checks the visitor in or refuses with a Dutch message. Every admission is written to a check-in ledger. A live visitor count combines the users flagged as inside with a hand adjustment, and the venue is either open or closed. Payments go through a card gateway: a pending record is kept while the shopper is at their bank and settled when they come back. Admins read charts of who came and when.

This project models that core as pure functions over one immutable `State` record (`store.dfy`):
- users, tickets and pending payments as finite maps keyed by id;
- check-ins as a sequence in insertion order;
- the counter adjustment and the venue status;
- an outbox of e-mails, recorded as events.

Time is an integer. `now`, fresh ids and the date library's calendar arithmetic are parameters, the last as a `Calendar` record of functions. The gateway's answers are inputs as well.

Modules:
- `Config`: ticket types and prices; roles and rights.
- `Auth`: the authorization decision of the auth middleware.
- `Validation`: the request schemas, as record-shape checks.
- `Users`: user field rules and the user service's CRUD operations.
- `Occupancy`: the live count and the venue status.
- `Tickets`: ticket CRUD, the admission chain and the two-week reminder.
- `Ledger`: the check-in service.
- `Payments`: payment service and controller.
- `Analytics`: the analytics queries.
- `Charts`, with `Tally` (JavaScript's insertion-ordered `Map`): the four chart aggregations.
- `AnalyticsForm`, `PassCard` and `NewPassForm`: the admin screens' state logic.
- `ClientFunctions`: the client helpers.
- `Dates` and `UrlText`: `yyyy-MM-dd` / `dd-MM-yyyy` texts and query strings.
- `Sorting`: the sort by date that the queries use.
- `Common`: shared types.

Three behaviours of the code that its own comments or names could suggest otherwise:
- `getCheckedInCountPlus` (server/services/user.service.js:40-49) raises the adjustment only while the adjustment is below 499. It returns the live count plus the adjustment, so the reported total can pass the 500 capacity. `Occupancy.PlusBoundsAdjustmentNotTotal` shows this.
- `changeStatus` (server/services/user.service.js:15-20) only flips the status. Checking everyone out is a separate request that the admin screen sends after it (client/src/Admin/CheckIn.js:44-57).
- `handleShopperRedirect` (server/services/payment.service.js:93-110) deletes the pending record when it settles an authorised payment. A replayed callback then finds no record and fails; it cannot succeed a second time.

## Model

| member | source | states |
|---|---|---|
| Config.ParseTicketType | server/config/ticketTypes.js:1 | a name denotes a ticket type exactly when it is one of the two listed names, and the type maps back to that name |
| Config.TicketTypeNamesRoundTrip | server/config/ticketTypes.js:1 | every ticket type's name is listed and parses back to the same type |
| Config.TicketTypesAreExactlyTwo | server/config/ticketTypes.js:1 | there are exactly two ticket type names, they differ, and every type is named by one of them |
| Config.Price | server/config/ticketTypes.js:6-7 | the price of a year ticket is 850 and of a one-time ticket 200 minor units, both in EUR |
| Config.PriceTableTotal | server/config/ticketTypes.js:1-7 | the price table has an entry for exactly the listed ticket types, so the lookup never misses |
| Config.ParseRole | server/config/roles.js:1 | a name denotes a role exactly when it is "user" or "admin", and the role maps back to that name |
| Config.RightsTable | server/config/roles.js:3-5 | a user holds only makePayments; an admin holds the five administration rights but not makePayments; no role holds userOnly |
| Auth.Every | server/middlewares/auth.js:20 | the `every`/`includes` walk is true exactly when each required right is among the held ones |
| Auth.Includes | server/middlewares/auth.js:20 | the `includes` walk is true exactly when the right is held |
| Auth.VerifyCallback | server/middlewares/auth.js:12-32 | a failed authentication is rejected with 401 before rights are read; otherwise the request carries the user, and it is admitted exactly when no right is required, the role holds them all, or (not rights-only) the route's userId is the user's own |
| Auth.RightsOnlyIgnoresOwnership | server/middlewares/auth.js:22-24 | on a rights-only route a user lacking the rights is refused with 403 even for their own id |
| Auth.UserOnlyAdmitsOnlyOwner | server/middlewares/auth.js:18-29 | a route guarded by userOnly admits a user exactly when the route's userId is theirs, whatever the role |
| Auth.AdminHoldsAdminRights | server/middlewares/auth.js:18-31 | an admin passes every route guarded by one of the administration rights |
| Tickets.CreateTicket | server/services/ticket.service.js:14-38 | an unknown owner is refused with 400 "User doesnt exist"; a known owner with an empty photo fails the ticket schema and nothing is stored; otherwise exactly one ticket is added, starting at the given date or now and ending at the given date or one year after its start |
| Tickets.UpdateTicketById | server/services/ticket.service.js:69-77 | an unknown ticket gives 404; an update that would leave the ticket without a photo fails the ticket schema and changes nothing; otherwise only that ticket changes, taking each given field and keeping the others |
| Tickets.DeleteTicketById | server/services/ticket.service.js:84-91 | an unknown ticket gives 404; otherwise exactly that ticket is removed and returned |
| Tickets.GetTicketsForUser | server/services/ticket.service.js:98-105 | an unknown user gives 404; otherwise exactly the tickets owned by the user |
| Tickets.VerifyTicket | server/services/ticket.service.js:112-145 | the checks run in order (exists, not ended, owner exists, owner not inside) with their Dutch answers; a refusal changes nothing, and admission happens exactly when every check passes, through the ledger's check-in |
| Tickets.MessageMarksRefusals | server/services/ticket.service.js:116-144 | every refusal, and only a refusal, starts with "Mislukt"; a used or expired ticket's message ends with the date it gives |
| Tickets.MessagesDistinct | server/services/ticket.service.js:116-144 | different outcomes give different messages, so the answer at the door tells which check decided |
| Tickets.NeverSomethingWrong | server/services/ticket.service.js:139-142 | the ledger always returns a record, so the "something went wrong" answer never occurs |
| Tickets.AdmissionRaisesCount | server/services/ticket.service.js:139-144 | an admission adds exactly the owner to the checked-in users and raises the live count by one |
| Tickets.OneTimeTicketUsedOnce | server/services/ticket.service.js:120-124 | a one-time ticket admitted at t is refused at any later time with the "already used" message dated t |
| Tickets.YearTicketOwnerInside | server/services/ticket.service.js:133-136 | a year ticket admitted once is refused while its owner is still inside |
| Tickets.RemindersFor | server/services/ticket.service.js:162-166 | one reminder per listed ticket, in the listed order |
| Tickets.TwoWeekReminders | server/services/ticket.service.js:151-167 | exactly the tickets ending on the calendar day two weeks from now get one reminder each; nothing else in the state changes |
| Ledger.AddCheckIn | server/services/checkIn.service.js:11-23 | an unknown user is refused with 400; otherwise exactly one visible record is appended, dated as given or now |
| Ledger.CheckInUser | server/services/checkIn.service.js:31-45 | the owner is flagged inside, a one-time ticket ends now while a year ticket is untouched, and one visible record dated now is appended for the owner; nothing else changes |
| Ledger.VisibleOf | server/services/checkIn.service.js:85 | exactly the user's records still marked as in history |
| Ledger.WithoutUser | server/services/checkIn.service.js:71 | exactly the records of other users |
| Ledger.Entries | server/services/checkIn.service.js:85 | each record reduced to its id and date, one for one |
| Ledger.GetHistory | server/services/checkIn.service.js:80-87 | an unknown user gives 404; otherwise a rearrangement of the user's visible records, newest first |
| Ledger.Hide | server/services/checkIn.service.js:101 | every record of the user is hidden and every other record is kept as it was |
| Ledger.ClearHistory | server/services/checkIn.service.js:96-103 | an unknown user gives 404; otherwise no record is deleted, the user's records are hidden, and every other field and record is unchanged |
| Ledger.DeleteAllCheckInsForUser | server/services/checkIn.service.js:66-73 | an unknown user gives 404; otherwise exactly the user's records are removed and the rest keep their order |
| Ledger.HistoryEmptyAfterClear | server/services/checkIn.service.js:85-101 | after clearing, the user's history is empty |
| Ledger.NothingVisibleAfterHide | server/services/checkIn.service.js:101 | after hiding, none of the user's records is visible |
| Ledger.ClearHistoryIdempotent | server/services/checkIn.service.js:96-103 | clearing twice is the same as clearing once |
| Ledger.DeleteKeepsOtherHistories | server/services/checkIn.service.js:66-87 | deleting one user's records leaves every other user's history unchanged |
| Ledger.FilterOtherUnchanged | server/services/checkIn.service.js:71-85 | removing one user's records keeps another user's visible records exactly |
| Sorting.SortBy | server/services/checkIn.service.js:85 | the result is a rearrangement of the input, in ascending order of the key |
| Sorting.Insert | server/services/checkIn.service.js:85 | inserting into an ordered sequence keeps it ordered and adds exactly the one element |
| Occupancy.GetCheckedInCount | server/services/user.service.js:34-37 | the count is the number of users flagged inside plus the hand adjustment, and nothing changes |
| Occupancy.Plus | server/services/user.service.js:43-49 | only the adjustment may change; below 499 the count rises by exactly one, at or above it nothing changes |
| Occupancy.Minus | server/services/user.service.js:55-59 | only the adjustment may change; a positive count drops by exactly one, a zero count stays, and a non-negative count never goes below zero |
| Occupancy.CheckOutAll | server/services/user.service.js:65-68 | every user is flagged outside with all else kept, the adjustment is zero, so the count is zero; nothing else in the state changes |
| Occupancy.ChangeStatus | server/services/user.service.js:15-20 | the status flips, the new status is reported as "open" or "closed", and nothing else changes |
| Occupancy.GetStatus | server/services/user.service.js:26-28 | the status is reported as "open" or "closed" and nothing changes |
| Occupancy.StatusToggle | server/services/user.service.js:9-20 | the process starts closed, the first flip opens it, and two flips restore any state |
| Occupancy.RepeatedPlus | server/services/user.service.js:43-49 | after n increments the adjustment is its old value plus n, clamped at 499, and nothing else changes |
| Occupancy.RepeatedMinus | server/services/user.service.js:55-59 | after n decrements the adjustment is its old value minus n, clamped at minus the checked-in users, and nothing else changes |
| Occupancy.PlusBoundsAdjustmentNotTotal | server/services/user.service.js:43-49 | with someone checked in, increments can take the reported count to the 500 capacity and past it |
| Users.Trim | server/models/user.model.js:12 | the stored value is a contiguous slice of the input that neither starts nor ends with whitespace |
| Users.LeadingSpace | server/models/user.model.js:12 | the length of the whitespace run the text starts with |
| Users.TrailingSpace | server/models/user.model.js:12 | the length of the whitespace run the text ends with |
| Users.Lower | server/models/user.model.js:26 | the same length, each ASCII capital lowered and every other character kept, so no ASCII capital is left |
| Users.NormalizeEmail | server/models/user.model.js:21-26 | the stored email is no longer than the input, holds no ASCII capital, and neither starts nor ends with whitespace |
| Users.NormalizeEmailIsLoweredStretch | server/models/user.model.js:21-26 | the stored email is the stretch of the input between its leading and trailing whitespace, lowered character by character |
| Users.HasDigit | server/models/user.model.js:93 | true exactly when some character is a digit |
| Users.HasLetter | server/models/user.model.js:93 | true exactly when some character is an ASCII letter |
| Users.PasswordRule | server/models/user.model.js:87-96 | a password passes exactly when it has at least eight characters, a digit and an ASCII letter |
| Users.TrimUnique | server/models/user.model.js:12 | any slice surrounded only by whitespace that neither starts nor ends with whitespace is exactly what the setter stores |
| Users.TrimPadded | server/models/user.model.js:12 | spaces around a value do not change what the setter stores |
| Users.PaddingNeitherHelpsNorHurts | server/models/user.model.js:7-98 | validation sees the stored values: spaces around the names, email or password give the same document and the same verdict |
| Users.ConformingBodyRules | server/models/user.model.js:9-96 | a create body whose document passes has names of two characters or more, a password of eight or more with a digit and an ASCII letter, and a listed university if one is given |
| Users.PasswordRuleExamples | server/models/user.model.js:91-95 | letters alone, digits alone and seven characters are refused; eight characters with a letter and a digit pass |
| Users.NewUserDoc | server/models/user.model.js:7-108 | the stored document carries the new id, starts outside, has the given role or "user", the trimmed email with its ASCII capitals lowered, the trimmed names, the trimmed password (the one later password changes compare against), the trimmed city if given, and the university exactly as given |
| Users.NewUserDefaults | server/models/user.model.js:33-36 | without a role the user gets "user" and starts outside |
| Users.CreateUser | server/services/user.service.js:75-81 | a taken email is refused with 400 "Email already taken"; otherwise the user is added exactly when the document passes the schema |
| Users.EmailTakenOnlyByOthers | server/models/user.model.js:120-123 | with unique emails, a stored user's email counts as taken for a new user and as free when that user is the one excluded |
| Users.CreateKeepsWellFormed | server/models/user.model.js:24 | after the email check the new user keeps emails unique and ids matching their keys |
| Users.Assign | server/services/user.service.js:150 | id, check-in flag and role are untouched; a given email is stored normalised, an absent one kept |
| Users.AssignTakesGivenKeys | server/services/user.service.js:150 | each profile key given in the update replaces the stored value, text keys trimmed, and each key left out keeps it |
| Users.UpdateUserById | server/services/user.service.js:142-153 | an unknown user gives 404; an email held by another user gives 400, while one's own email is never taken; the update succeeds exactly when the user exists, the email is free and the updated document passes the schema; a success changes only that user and keeps emails unique |
| Users.ChangePassword | server/services/user.service.js:161-172 | an unknown user gives 404; a wrong old password gives 401; the change succeeds exactly when the user exists, the old password matches and the document with the new trimmed password passes the schema; a success changes only that user's password and keeps emails unique |
| Users.DeleteUserById | server/services/user.service.js:179-186 | an unknown user gives 404; otherwise exactly that user is removed, the others are kept, and emails stay unique |
| Users.SetCheckedIn | server/services/checkIn.service.js:33-34 | only the named user's check-in flag changes, to the given value |
| Payments.PaymentRequestFor | server/services/payment.service.js:46-57 | the amount is the listed price of the body's ticket type, the reference is the order reference, and the return URL ends in that reference |
| Payments.MakePayment | server/services/payment.service.js:59-70 | when the gateway asks the shopper to act, a record without paymentData or with an empty photo fails the pending-payment schema and nothing is stored; otherwise a record holding the action's paymentData and the body's owner, type and photo is stored; without an action nothing changes; on success the answer is passed back |
| Payments.PaymentThenAuthorised | server/services/payment.service.js:59-110 | a stored payment followed by an authorised callback adds exactly one ticket of the bought type for the buyer, queues one confirmation and drops the record |
| Payments.ExtractDetails | server/services/payment.service.js:81-91 | the redirect is the query for GET and the body otherwise; its payload wins, then redirectResult, else MD and PaRes are forwarded |
| Payments.HandleShopperRedirect | server/services/payment.service.js:78-122 | a missing or incomplete record gives 404 before the gateway is asked; Authorised creates the owner's ticket, drops the record and queues a confirmation; Cancelled and Refused drop only the record; any other code changes nothing; a vanished owner fails with the ticket service's error |
| Payments.HandleShopperRedirectAsWritten | server/services/payment.service.js:93-96 | a missing record fails with an uncaught destructuring error, and in every other case it agrees with the intended version |
| Payments.MissingRecordDiscrepancy | server/services/payment.service.js:93-96 | on a missing record the code as written answers 500 where 404 is intended |
| Payments.ReplayCreatesNothing | server/services/payment.service.js:106-110 | after an authorised settlement adds one ticket, a replayed callback for the same order is refused and adds nothing |
| Payments.ResultPage | server/controllers/payment.controller.js:17-34 | Authorised leads to Success, Pending and Received to Pending, Cancelled to Cancelled, Refused to Failed, and every other code to Error |
| Payments.PageUrlsDistinct | server/controllers/payment.controller.js:19-32 | the five result pages have five different addresses |
| Validation.Validate | server/validations/ticket.validation.js:4-12 | a request passes unchanged exactly when every part the route names fits its schema, and is otherwise refused with 400 |
| Validation.CreateTicketShape | server/validations/ticket.validation.js:4-12 | an accepted creation names an object-id owner, one of the two types and an image, allows only the five keys, and its dates are dates when given |
| Validation.UpdateTicketShape | server/validations/ticket.validation.js:14-25 | an accepted update has an object-id ticketId and one to three of startDate, endDate, img, never the owner or type |
| Validation.NonDateRefused | server/validations/ticket.validation.js:8-20 | a start or end date that is not a date makes both creation and update fail |
| Validation.SchemaListsMatchConfig | server/validations/ticket.validation.js:7 | the ticket types and roles the request schemas spell out are exactly the configured ones |
| Validation.GetTicketsForUserShape | server/validations/ticket.validation.js:51-55 | listing a user's tickets needs exactly an object-id userId in the path |
| Validation.GetTicketsShape | server/validations/ticket.validation.js:33-43 | listing accepts only the seven filter and paging keys, with integer limit and page |
| Validation.TicketIdIsObjectId | server/validations/ticket.validation.js:27-49 | getting, updating and deleting a ticket all demand an object-id ticketId |
| Validation.CreateUserShape | server/validations/user.validation.js:4-16 | an accepted user creation holds email, password, both names and a role of user or admin, a gender only from the three values, and never isCheckedIn |
| Validation.UpdateUserShape | server/validations/user.validation.js:41-57 | a profile update carries one or more of the eight profile keys and never role or isCheckedIn |
| Validation.RoleAndCheckInShape | server/validations/user.validation.js:84-100 | a role update carries a role of user or admin, a check-in update a boolean isCheckedIn |
| Validation.ChangePasswordNeedsBoth | server/validations/user.validation.js:59-69 | with at most the two keys allowed and at least two demanded, an accepted request holds both passwords |
| Validation.SearchNeedsKeyword | server/validations/user.validation.js:78-82 | the search passes only with a non-empty keyword, and an empty keyword is refused |
| Validation.AddCheckInShape | server/validations/checkIn.validation.js:4-9 | an accepted check-in names its user and at most a date; a lone object-id userId is accepted |
| Validation.GetCheckInsShape | server/validations/checkIn.validation.js:11-19 | listing accepts only the five filter and paging keys, with integer limit and page |
| Validation.ManageCheckInsShape | server/validations/checkIn.validation.js:21-25 | managing a user's check-ins demands an object-id userId |
| Validation.TimeIntervalShape | server/validations/analytics.validation.js:10-19 | an interval query holds both dates, and each flag given is 0 or 1 |
| Validation.FlagsMayBeOmitted | server/validations/analytics.validation.js:10-19 | two dates alone make an acceptable interval query |
| Validation.AllTimeShape | server/validations/analytics.validation.js:27-34 | an all-time query holds only flags, and a date in it is refused |
| Validation.MakePaymentShape | server/validations/payment.validation.js:11-18 | an accepted payment has exactly the four keys, an object payment method, a ticket type of year or one-time and an object-id owner |
| Validation.PaymentMethodsAmount | server/validations/payment.validation.js:4-9 | an empty body passes; otherwise only an amount with exactly a non-empty currency string and a number value |
| Analytics.SelectedFields | server/services/analytics.service.js:12-16 | a key is selected exactly when the query gives it the number 1 |
| Analytics.Shown | server/services/analytics.service.js:25 | with no field selected the whole profile is populated, otherwise exactly the selected fields |
| Analytics.RowsIn | server/services/analytics.service.js:24-26 | every row is a stored check-in inside the bounds, and every check-in inside them has its row |
| Analytics.WidenedEnd | server/services/analytics.service.js:18-22 | the end moves one day later exactly when both ends fall on the same day |
| Analytics.QueryTimeInterval | server/services/analytics.service.js:9-30 | the rows of exactly the check-ins from the start to the widened end, inclusive, ascending by date |
| Analytics.QueryAllTime | server/services/analytics.service.js:37-49 | one row per stored check-in, ascending by date |
| Analytics.AllRowsCount | server/services/analytics.service.js:46 | without bounds no check-in is dropped |
| Analytics.IntervalMembership | server/services/analytics.service.js:24 | a check-in inside the interval is reported and one outside it is not |
| Analytics.ClearHistoryKeepsAnalytics | server/services/analytics.service.js:24-46 | hiding a visitor's history changes neither query's answer |
| Analytics.RowsIgnoreHistory | server/services/analytics.service.js:24-46 | the rows do not depend on the history flag |
| Analytics.SelectionExamples | server/services/analytics.service.js:12-16 | flags 0 or absent are not selected, and dates never are |
| ClientFunctions.PasswordIsValid | client/src/services/Functions.js:75-81 | true exactly when the two fields hold the same text |
| ClientFunctions.PasswordCheckExamples | client/src/services/Functions.js:75-81 | equal entries pass, and entries differing only in case do not |
| ClientFunctions.GenderValue | client/src/services/Functions.js:91-100 | Man, Vrouw and Anders become male, female and other; any other text is kept; a non-empty entry stays non-empty |
| ClientFunctions.ObjectOfKeys | client/src/services/Functions.js:89-110 | a key appears exactly when one of the fields read so far, other than the fifth, is non-empty and carries that name |
| ClientFunctions.ObjectOfLastWins | client/src/services/Functions.js:106-110 | for a repeated name the last field sent wins, and no value is empty |
| ClientFunctions.FormToObject | client/src/services/Functions.js:87-111 | over the first nine fields, minus the fifth and the empty ones, the object holds each sent name with its last converted value, and nothing else |
| ClientFunctions.FullFormExample | client/src/services/Functions.js:87-111 | a filled-in form yields its eight fields, the gender translated and the password-repeat field dropped |
| ClientFunctions.TranslateErrors | client/src/services/Functions.js:117-132 | each of the five known server messages gets its Dutch text, and any other gets the generic one |
| ClientFunctions.CheckDate | client/src/services/Functions.js:140-152 | true exactly when the age in whole years, counting month and day, is at least 18 |
| ClientFunctions.CheckDateMeansEighteenthBirthdayReached | client/src/services/Functions.js:140-152 | true exactly when the eighteenth birthday is on or before the given day |
| ClientFunctions.CheckDateExamples | client/src/services/Functions.js:140-152 | someone born the same day eighteen years earlier passes, and a day later does not |
| Charts.SlicesCoverVisitors | client/src/Admin/Components/Charts/GenderChart.js:28-38 | every row with a visitor lands in exactly one of the three slices |
| Charts.GenderChart | client/src/Admin/Components/Charts/GenderChart.js:22-45 | the three slices count the visitors whose gender is male, female, and anything else or missing, and together count every visitor |
| Charts.FirstOccurrences | client/src/Admin/Components/Charts/UniCityChart.js:67-71 | the same values as the input, each once |
| Charts.CountValues | client/src/Admin/Components/Charts/UniCityChart.js:55-74 | the map's keys are the values in order of first appearance, each counted as often as it occurs |
| Charts.UniCityChart | client/src/Admin/Components/Charts/UniCityChart.js:48-91 | one bar per non-empty university or city value, in order of first appearance, as tall as the number of rows with that value |
| Charts.Bars | client/src/Admin/Components/Charts/UniCityChart.js:77-83 | the labels are the map's keys in insertion order and each bar is its key's count |
| Charts.UniCityCountsAll | client/src/Admin/Components/Charts/UniCityChart.js:48-91 | the bars together count every row with a value |
| Charts.Youngest | client/src/Admin/Components/Charts/AgeChart.js:66 | an element of the ages at or below every other |
| Charts.Oldest | client/src/Admin/Components/Charts/AgeChart.js:67 | an element of the ages at or above every other |
| Charts.Histogram | client/src/Admin/Components/Charts/AgeChart.js:77-86 | one label per whole number from low to high, each with the number of visitors of that age, zero for the absent ones |
| Charts.AgeChart | client/src/Admin/Components/Charts/AgeChart.js:43-94 | the labels run without gaps from the youngest to the oldest age and cover every age, each with its count; no ages give no labels |
| Charts.AgeChartCountsAll | client/src/Admin/Components/Charts/AgeChart.js:43-94 | the bars together count every visitor with a birth date |
| Charts.AgeChartAsWritten | client/src/Admin/Components/Charts/AgeChart.js:50-86 | no ages give no labels |
| Charts.MaxAsWrittenIsOldest | client/src/Admin/Components/Charts/AgeChart.js:51-67 | the running maximum as written is the oldest age once some age is positive, and stays at the smallest positive number otherwise |
| Charts.AsWrittenAgreesUnlessAllNegative | client/src/Admin/Components/Charts/AgeChart.js:50-86 | the chart as written equals the intended one exactly when some age is zero or more |
| Charts.NegativeAgeDiscrepancy | client/src/Admin/Components/Charts/AgeChart.js:51 | one visitor aged -1 gets labels -1 and 0 as written, and -1 alone as intended |
| Charts.IncrementMapValue | client/src/Admin/Components/Charts/TimeChart.js:119-138 | the night's count rises by one, every other count and key stays, and the total rises by one |
| Charts.IncrementKeys | client/src/Admin/Components/Charts/TimeChart.js:119-138 | afterwards the keys are the old ones plus the night and both its neighbours |
| Charts.IncrementKeepsOrder | client/src/Admin/Components/Charts/TimeChart.js:119-138 | the old keys keep their order at the front and new ones are appended |
| Charts.IncrementKeepsDistinct | client/src/Admin/Components/Charts/TimeChart.js:119-138 | no key is ever listed twice |
| Charts.SeriesOf | client/src/Admin/Components/Charts/TimeChart.js:77-98 | one line's map: each night counts its check-ins of that line, the total is the line's check-ins, the map is empty exactly when there are none, and every counted night has both neighbours plotted |
| Charts.TimeChart | client/src/Admin/Components/Charts/TimeChart.js:68-112 | the three lines count per night the check-ins before midnight, before one, and all of them, and the last adds up to every row |
| Charts.TotalCountsAll | client/src/Admin/Components/Charts/TimeChart.js:97 | the total line counts every check-in |
| Charts.LinesNested | client/src/Admin/Components/Charts/TimeChart.js:88-97 | on every night the before-midnight count is at most the before-one count, which is at most the total |
| Charts.IncrementEmpty | client/src/Admin/Components/Charts/TimeChart.js:119-138 | the first check-in of a night plots zero, one, zero over the night before, the night and the night after |
| Charts.AtElevenCountsEverywhere | client/src/Admin/Components/Charts/TimeChart.test.js:15-29 | a check-in at 23:00 counts on its own night in all three lines |
| Charts.AfterMidnightCountsForNightBefore | client/src/Admin/Components/Charts/TimeChart.test.js:39-53 | a check-in at 00:xx counts for the night before, in the before-one and total lines only |
| Charts.ConsecutiveNights | client/src/Admin/Components/Charts/TimeChart.test.js:80-93 | check-ins on two consecutive nights give one point each and zero on either side |
| Charts.IncrementNextNight | client/src/Admin/Components/Charts/TimeChart.js:119-138 | incrementing the next night extends the line by one point |
| Charts.SameNightTwice | client/src/Admin/Components/Charts/TimeChart.test.js:96-108 | two check-ins on one night give one point of height two |
| Charts.IncrementSameNight | client/src/Admin/Components/Charts/TimeChart.js:127-128 | incrementing a plotted night raises only its count |
| AnalyticsForm.HandleCategoryChange | client/src/Admin/Analytics.js:62-82 | labels 1, 2, 3, 4 and 9 each flip exactly their own switch, any other id flips none, and the error is cleared |
| AnalyticsForm.CategoryClickTwice | client/src/Admin/Analytics.js:62-82 | clicking the same label twice restores the switches |
| AnalyticsForm.HandleTimeChange | client/src/Admin/Analytics.js:88-113 | 5 chooses all time and 6 the interval; 7 takes a start date only when no end is set or it is not after the end; 8 the mirror image; the error is cleared |
| AnalyticsForm.TimeChangeKeepsPeriodSound | client/src/Admin/Analytics.js:88-113 | no input puts the interval's ends out of order or chooses both periods |
| AnalyticsForm.FlagsHoldTicks | client/src/Admin/Analytics.js:130-138 | each profile field is flagged 1 exactly when its chart is ticked, and the flags hold no date |
| AnalyticsForm.TicksInParams | client/src/Admin/Analytics.js:124-138 | the request's pairs flag a field 1 exactly when it is ticked, and hold the dates exactly when the interval is chosen |
| AnalyticsForm.PlainParams | client/src/Admin/Analytics.js:124-138 | no key holds a separator and no value an ampersand, given date inputs without one |
| AnalyticsForm.QueryUrlParts | client/src/Admin/Analytics.js:121-138 | the URL's first `?` ends the path, which is the interval query exactly when the interval is chosen, and the rest is the query string of the request's pairs |
| AnalyticsForm.ServerReadsTheTicks | client/src/Admin/Analytics.js:119-138 | what the server parses from the URL flags a field 1 exactly when it is ticked, and carries the dates exactly when the interval is chosen |
| AnalyticsForm.HandleSubmit | client/src/Admin/Analytics.js:140-155 | a reply shows its rows and displays the charts ticked when the reply arrives; a failure only sets the error |
| AnalyticsForm.DisplayFollowsLastSuccess | client/src/Admin/Analytics.js:140-155 | the charts shown change only on success, to the ones ticked when the reply arrives, and the ticks themselves never change |
| AnalyticsForm.ClickInFlightShown | client/src/Admin/Analytics.js:140-155 | a tick changed while the request is in flight is displayed, although the URL was built without it |
| AnalyticsForm.HandleDropdown | client/src/Admin/Analytics.js:161-164 | the menu's visibility flips and nothing else changes |
| PassCard.CostMatchesPrice | client/src/Admin/Components/Pass.jsx:16-24 | the price label shown is the ticket's listed price written in euros, and a year pass reads Jaarpas, any other Dagpas |
| PassCard.NewCard | client/src/Admin/Components/Pass.jsx:13-43 | the shown dates read back as the pass's dates in day-month-year form, the form's in year-month-day form, the photo is copied to both, and no mode, deletion or error is set |
| PassCard.EnterModifyMode | client/src/Admin/Components/Pass.jsx:48-52 | the form opens and nothing else changes |
| PassCard.HandleChange | client/src/Admin/Components/Pass.jsx:58-74 | input 1 takes a start date strictly before the end, input 2 an end date strictly after the start, anything else changes nothing, and only the form changes |
| PassCard.HandleChangeKeepsOrder | client/src/Admin/Components/Pass.jsx:63-71 | a form whose start precedes its end keeps that order through any edit |
| PassCard.GuardIsCalendarOrder | client/src/Admin/Components/Pass.jsx:64-68 | for real dates the text comparison of year-month-day forms is the calendar order |
| PassCard.HandleCropComplete | client/src/Admin/Components/Pass.jsx:80-84 | the cropped photo replaces the form's photo and nothing else changes |
| PassCard.CancelModification | client/src/Admin/Components/Pass.jsx:89-99 | the form closes and is refilled from the shown dates and photo, and a shown date that does not parse yields no card |
| PassCard.CancelUndoesEdits | client/src/Admin/Components/Pass.jsx:48-99 | after any edits and crops, cancelling puts the card back exactly as it was made |
| PassCard.PatchNamesThePass | client/src/Admin/Components/Pass.jsx:108-113 | the edit goes to "/tickets/" followed by the card's own pass id, so different passes get different paths, and carries the form's dates and photo |
| PassCard.SaveModification | client/src/Admin/Components/Pass.jsx:105-128 | success shows the server's dates and photo and closes the form; failure keeps it open with the Dutch error; the form values are untouched |
| PassCard.SaveThenCancel | client/src/Admin/Components/Pass.jsx:89-128 | after a successful save, cancelling fills the form with the stored dates and photo |
| PassCard.DeletePass | client/src/Admin/Components/Pass.jsx:133-146 | success marks the pass deleted, failure sets the Dutch error, and nothing else changes |
| NewPassForm.InitialForm | client/src/Admin/NewPassForm.js:12-21 | the visitor is the fourth piece of the path, the start reads back as today and the end as a year later, the start precedes the end, and nothing else is filled in |
| UrlText.Piece | client/src/Admin/NewPassForm.js:13 | a piece never holds the separator; text without a separator is its own first piece and every later piece is empty; the first piece is the text up to the first separator |
| NewPassForm.PathGivesUserId | client/src/Admin/NewPassForm.js:13 | on the page's own route the piece read is exactly the visitor's id |
| NewPassForm.Mount | client/src/Admin/NewPassForm.js:26-58 | no visitor gives "no user specified"; a reply fills in the name; a 400 or 404 gives "user not found" and any other failure the general error |
| NewPassForm.EmptyPathNamesNoUser | client/src/Admin/NewPassForm.js:27-30 | a route without an id always reports that no user was given |
| NewPassForm.HandleChange | client/src/Admin/NewPassForm.js:64-87 | inputs 1 and 2 set the type, 3 a start strictly before the end, 4 an end strictly after the start; the pass error is cleared and nothing else changes |
| NewPassForm.HandleChangeKeepsOrder | client/src/Admin/NewPassForm.js:74-86 | a form whose start precedes its end keeps that order through any change |
| NewPassForm.RadioValuesAreTicketTypes | client/src/Admin/NewPassForm.js:72-73 | the two radio values are exactly the server's two ticket type names |
| NewPassForm.HandleCropComplete | client/src/Admin/NewPassForm.js:93-95 | the cropped photo is stored and nothing else changes |
| NewPassForm.HandleSubmit | client/src/Admin/NewPassForm.js:101-120 | the posted body carries the form's visitor, type, dates and photo; success goes back to the visitor's page, failure sets the Dutch error |
| NewPassForm.UntouchedFormPostsAYear | client/src/Admin/NewPassForm.js:18-19 | a form left untouched posts a period from today to a year later |
| Dates.YMDRoundTrip | client/src/Admin/Components/Pass.jsx:38-39 | reading a year-month-day text back gives the date it was written from |
| Dates.DMYRoundTrip | client/src/Admin/Components/Pass.jsx:30-31 | reading a day-month-year text back gives the date it was written from |
| Dates.YMDInjective | client/src/Admin/Components/Pass.jsx:38-39 | different dates are written differently |
| Dates.YMDOrder | client/src/Admin/Analytics.js:100-104 | comparing year-month-day texts is comparing the dates in the calendar |
| Dates.AddYears | client/src/Admin/NewPassForm.js:19 | a valid date with the year moved, the month kept and the day kept except 29 February in a non-leap target year, which becomes the 28th |
| Dates.AddYearLater | client/src/Admin/NewPassForm.js:18-19 | a year later is later, and is written later |
| Dates.PadOrder | client/src/Admin/Components/Pass.jsx:64-68 | zero-padded numbers of one width compare as texts as they compare as numbers |
| Dates.PadRoundTrip | client/src/Admin/Components/Pass.jsx:38-39 | a zero-padded number reads back as itself |

## Left out

- Persistence mechanics: Mongoose queries, `populate`, the pagination and `toJSON` plugins, and `queryUsers`, `queryTickets`, `queryCheckIns`, `getUserById`, `getUserByEmail` and `getTicketById`. These are plain lookups in the maps.
- The listing schemas of `getUsers`, `getUser` and `deleteUser` in server/validations/user.validation.js. They only feed those plain lookups.
- server/middlewares/validate.js is not part of this model. `Validation.Validate` stands for it: the request passes unchanged, or it is refused with 400.
- Joi's own type conversion and error texts. Values reach the model already converted. Every refusal is one 400 error with a fixed message.
- The object-id, e-mail, password-helper and date checks of the schemas. They are parameters (`Validation.Checks`), because they come from validator libraries.
- `getPaymentMethods` in server/services/payment.service.js. It is only a gateway call. Its body schema is modelled.
- The gateway calls `payments` and `paymentsDetails`. Their answers are inputs to `Payments.MakePayment` and `Payments.HandleShopperRedirect`. The fresh `uuidv4` order reference is a parameter.
- The e-mail service. A purchase confirmation or an expiry reminder is an event appended to the outbox; the HTML and SMTP are not modelled.
- bcrypt hashing and `isPasswordMatch`. Passwords are compared as stored plain text, since hashing is a library call.
- Passport JWT authentication. `Auth.VerifyCallback` takes its outcome (error, info, user) as input.
- `Date.now`, time zones and date-fns formatting. `now` is a parameter. `addYears`, `addWeeks`, `addDays`, same-day tests and the Dutch date format are functions of the `Calendar` parameter. The client's `yyyy-MM-dd` texts are modelled exactly, with a proleptic Gregorian calendar, in `Dates`.
- Charts.AgeChart: `differenceInYears(Date.now(), birthDate)` is the parameter `ageOf` of `Charts.Ages`. The chart works on the resulting whole ages.
- Charts.TimeChart: `getHours` and the local calendar day of each check-in arrive with the row (`Charts.Entry`). The day before and after are the day number minus and plus one.
- `convertMapToData` in TimeChart.js. The tally itself, with its pairs in insertion order, is the list of plotted points; the conversion of keys back to `Date` objects is not modelled.
- React rendering, `setState` batching, `componentDidUpdate`, the window-width logic, the Cropper canvas and the QR reader.
- `filterCity` (from the country-state-city library) and the constant `getSchools` list in Functions.js.
- `queryInclusive`. It relies on MongoDB's case-insensitive regular-expression semantics.
- Concurrency. Every operation is one sequential step on the state. The source has no locking, and the model adds none. No pending-record expiry sweep is added.
- The cron schedule that triggers the two-week reminder, the Express wiring and the route files.
- Users.Conforms: the e-mail format is the parameter `isEmail`. Name and city lengths are counted as in Users.PasswordRule.
- Users.Trim: strips only the whitespace that `Users.IsSpace` lists (ASCII whitespace, the no-break space and the byte-order mark). `String.prototype.trim` also strips the other Unicode space separators and the line and paragraph separators.
- Users.Lower: lowers only the capitals A to Z. JavaScript's `toLowerCase` lowers every cased letter, so two emails that differ only in a non-ASCII capital are two different emails here.
- Users.NewUserDoc: the stored email is lowered by `Users.Lower`, so it has the same ASCII-only limit. Users.NormalizeEmail, Users.Assign and Users.IsEmailTaken share it.
- Users.PasswordRule: counts length in characters. Mongoose's `minlength` counts UTF-16 code units, so a password with characters outside the Basic Multilingual Plane is shorter here than in the source.
- Charts.AgeChartAsWritten: its own contract states only the empty case. Its relation to the intended chart is stated by Charts.MaxAsWrittenIsOldest and Charts.AsWrittenAgreesUnlessAllNegative.
- Analytics.QueryTimeInterval: the result is stated as a sorted rearrangement of the matching rows. The order among check-ins with equal dates is left open, as MongoDB leaves it.

## Findings

| source | as written | input that shows it | evidently intended | confidence | as-written member | corrected member |
|---|---|---|---|---|---|---|
| server/services/payment.service.js:93-96 | the looked-up pending record is destructured before the null check, so a missing record throws a TypeError and the client gets a 500 | a shopper redirect for an order reference with no stored record, for example a replayed callback after `Authorised` deleted it | answer 404 "Payment details not found or incomplete", as for an incomplete record | high, not executed | Payments.HandleShopperRedirectAsWritten | Payments.HandleShopperRedirect |
| client/src/Admin/Components/Charts/AgeChart.js:51 | `maxAge` starts at `Number.MIN_VALUE`, the smallest positive number, so when no age is positive the label loop runs up to 0 | one visitor aged -1 (a birth date in the future): labels [-1, 0] with counts [1, 0] | labels from the youngest to the oldest age only: [-1] with [1] | medium, not executed | Charts.AgeChartAsWritten | Charts.AgeChart |

`Payments.MissingRecordDiscrepancy` and `Charts.NegativeAgeDiscrepancy` exhibit the two inputs. `Charts.AsWrittenAgreesUnlessAllNegative` proves that the age charts differ exactly when every age is negative.
