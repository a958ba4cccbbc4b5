# Rental backend: order lifecycle and reporting rules

A model of the service layer of a LINE-based equipment rental backend. The
model covers seven NestJS services: rentals, payments, products, customers,
users, dashboard and analytics. The relational store becomes an immutable
`Store` value of tables. Each table except users is a sequence whose row at
index `i` has id `i + 1`. Users are a map from id to user, because users can
be deleted. Every operation is a pure function from a store and its inputs to
a `Result`. The error cases (`NotFound`, `BadRequest`, `Conflict`, a plain
server error, and a database refusal `StoreFailure`) carry the source's
messages.

Modules, one per service plus shared parts:

- `Wrappers`: `Option`, `Result` and the error kinds.
- `Statuses`: the eight rental statuses and the status subsets the services filter on.
- `Store`: the tables and the database constraints (`Store.Valid`).
- `Text`: decimal rendering and JavaScript `trim`.
- `Seqs`: filters, counts, sums, a stable sort and top-N selection.
- One module per service: `Rentals`, `Payments`, `Products`, `Customers`, `Users`, `Dashboard`, `Analytics`.

Times are integers:

- Timestamps are millisecond clock readings.
- A day is `timestamp / 86400000` (`Store.DayOf`).
- Booking dates are day numbers. The library's count from two timestamps is modelled separately (`Rentals.ElapsedDayCount`) and agrees with the day-number count on dates at midnight.
- Money is a natural number.

Inputs the code reads from its surroundings become parameters: the clock, today's date, the random reference suffix, upload filenames (absent when no file was sent), the password hash function, the schema's default values, and the number of branches a user form may name.

Behaviour worth noting:

- **Customer profile on repeat bookings.** Repeat bookings keep a stored display name or picture when the new one is absent: the booking passes `displayName` and `pictureUrl` through as possibly `undefined`, and the database skips undefined fields (`Rentals.UpsertCustomer`). The required `firstName`, `lastName` and `phoneNumber` are always overwritten.
- **Availability.** There is no overlap-based conflict check. Availability lists every booking of the product that is not CANCELLED or REJECTED, unmerged and earliest first. Creating an order never consults other orders (`Products.GetAvailability`, `Rentals.CreateRental`).
- **Errors.** A booking of a product that is not AVAILABLE and a booking with a reversed date range both raise `BadRequest`, with distinct messages. So does a payment for an order that is not PENDING_PAYMENT.
- **Status transitions.** The services contain no admin-driven status change. The only transition is the one a payment triggers, PENDING_PAYMENT to WAITING_CONFIRMATION.
- **Order references.** A reference ends in a random 4-digit suffix, so two bookings on the same day can collide: `Rentals.RefCollision` states exactly when.
- **User updates.** The general user update writes the form as given. A password sent through it is stored without hashing (`Users.UpdateStoresPasswordUnhashed`); only the password change hashes.

## Model

| member | source | states |
|---|---|---|
| Rentals.DayCount | backend/src/rentals/rentals.service.ts:32-36 | the count is at least 1 exactly when the range does not end before it starts; a same-day booking counts 1 |
| Rentals.DayCountCountsDays | backend/src/rentals/rentals.service.ts:34 | `end - start + 1` is the number of calendar days the inclusive range covers |
| Rentals.ElapsedDayCount | backend/src/rentals/rentals.service.ts:32-36 | the count from two millisecond timestamps, truncated toward zero: at least 1 when the end is not before the start, below 1 when the end is a full day or more before it |
| Rentals.ElapsedDayCountOfDates | backend/src/rentals/rentals.service.ts:32-34 | for dates at midnight the timestamp count equals the day-number count |
| Rentals.DateStamp | backend/src/rentals/rentals.service.ts:61 | the `YYYYMMDD` stamp is eight digits |
| Rentals.OrderRef | backend/src/rentals/rentals.service.ts:61 | a reference is 17 characters: `ORD-`, eight digits, `-`, four digits |
| Rentals.RefRoundTrip | backend/src/rentals/rentals.service.ts:61 | parsing a reference gives back the date and the 1000..9999 draw it was built from |
| Rentals.RefCollision | backend/src/rentals/rentals.service.ts:61 | two references are equal if and only if they share both date and draw |
| Rentals.FindCustomer | backend/src/rentals/rentals.service.ts:41-42 | finds a customer holding the `lineUserId`, and finds none exactly when no customer holds it |
| Rentals.UpsertCustomer | backend/src/rentals/rentals.service.ts:41-58 | an existing customer is refreshed in place with no row added: supplied fields written, absent display name and picture kept, other rows unchanged; otherwise one row is appended with the next id |
| Rentals.UpsertKeepsOneCustomerPerLine | backend/src/rentals/rentals.service.ts:41-58 | after the upsert exactly one customer holds the `lineUserId`; ids still match positions and `lineUserId`s stay unique |
| Rentals.PlaceOrder | backend/src/rentals/rentals.service.ts:38-76 | the new order is appended with the next id and PENDING_PAYMENT. Its price is the daily price times the days covered. Deposit and branch come from the product. The customer table is the upserted one and the order links to the upserted customer. Its reference parses back to today and the draw. The branch, product, payment and history tables are unchanged |
| Rentals.CreateRental | backend/src/rentals/rentals.service.ts:24-76 | missing product is NotFound, a product not AVAILABLE is BadRequest, an end before the start is BadRequest; success exactly when none applies, whatever other orders exist |
| Rentals.ValidAfterBooking | backend/src/rentals/rentals.service.ts:64-76 | appending an order whose links resolve, next to a customer table that keeps ids and unique `lineUserId`s, keeps every database constraint |
| Rentals.CreateRentalPreservesValid | backend/src/rentals/rentals.service.ts:24-76 | a successful booking keeps every database constraint |
| Rentals.RepeatBookingReusesCustomer | backend/src/rentals/rentals.service.ts:41-58 | a second booking with the same `lineUserId` adds no customer, reuses the customer id and stores the newly supplied display name |
| Payments.CreatePayment | backend/src/payments/payments.service.ts:10-51 | an unknown order is NotFound, an order not PENDING_PAYMENT is BadRequest. After those guards, a missing slip file is a run-time error and an unparsable transfer date is refused by the database. On success the payment is appended with slip url `/uploads/<file>`, and only that order moves to WAITING_CONFIRMATION. One history entry is appended with the fixed note and actor. The payment is returned |
| Payments.SecondPaymentRejected | backend/src/payments/payments.service.ts:19-21 | a second slip for an order already paid is refused with BadRequest |
| Payments.PaymentHistoryMatchesOrder | backend/src/payments/payments.service.ts:35-48 | the history grows by exactly one entry, the old entries are kept, and the new entry names an existing order and the status that order now has |
| Payments.CreatePaymentPreservesValid | backend/src/payments/payments.service.ts:24-48 | a successful payment keeps every database constraint |
| Products.Images | backend/src/products/products.service.ts:15-18 | one image row per uploaded file |
| Products.ExactlyOneMainImage | backend/src/products/products.service.ts:15-18 | image `i` is main if and only if `i == 0`: one main image when files are given, none otherwise. Each url is `/uploads/` plus the filename |
| Products.CreateProduct | backend/src/products/products.service.ts:11-31 | success exactly when the branch exists; the product gets the next id, the form's fields, the default status and the image rows; other tables unchanged |
| Products.CreateProductPreservesValid | backend/src/products/products.service.ts:21-30 | creating a product keeps every database constraint |
| Products.FindProduct | backend/src/products/products.service.ts:40-47 | returns the stored product when the id exists and `Product #<id> not found` otherwise |
| Products.FindProductById | backend/src/products/products.service.ts:40-47 | under the constraints, the product found carries the requested id |
| Products.UpdateProduct | backend/src/products/products.service.ts:49-61 | writes each supplied field and keeps each absent one. It reconnects the branch only for a present, non-zero branch id. It fails on a missing product or branch. Other products and tables are unchanged |
| Products.UpdateProductPreservesValid | backend/src/products/products.service.ts:54-60 | a successful update keeps every database constraint |
| Products.AsRanges | backend/src/products/products.service.ts:106-112 | one booked range per order, field by field |
| Products.GetAvailability | backend/src/products/products.service.ts:71-115 | a missing product is NotFound. Otherwise the booked ranges are sorted by start day and are a permutation of the ranges of this product's non-void orders. `totalBookings` is their number |
| Products.CalendarEntryFromOrder | backend/src/products/products.service.ts:83-112 | every calendar entry is the range of a stored order of that product that is not CANCELLED or REJECTED |
| Products.CalendarHasNoRepeats | backend/src/products/products.service.ts:83-112 | no order appears twice in a product's calendar |
| Products.CalendarListsOccupyingOrders | backend/src/products/products.service.ts:83-89 | a stored order appears in the calendar if and only if it belongs to the product and is not CANCELLED or REJECTED (PENDING_PAYMENT included) |
| Customers.Tally | backend/src/customers/customers.service.ts:35-44 | total is the number of rentals; active counts APPROVED, WAITING_DELIVERY and IN_USE. Completed counts RETURNED. Spent sums the prices of rentals not CANCELLED or REJECTED |
| Customers.ActiveAndCompletedWithinTotal | backend/src/customers/customers.service.ts:36-41 | active and completed rentals together never exceed the total |
| Customers.RentalsOf | backend/src/customers/customers.service.ts:15-26 | a customer's rentals are exactly their orders, as a permutation, newest first |
| Customers.LatestIsNewest | backend/src/customers/customers.service.ts:46 | the last rental is absent exactly when the customer has no orders; otherwise it is one of their orders and none of them is newer |
| Customers.CustomersNewestFirst | backend/src/customers/customers.service.ts:28-30 | a permutation of the customers table, newest account first |
| Customers.FindAllCustomers | backend/src/customers/customers.service.ts:12-73 | one summary per customer, each customer exactly once, newest first. Each carries the statistics of that customer's own rentals and, as the last rental, the head of their newest-first rentals |
| Customers.FindCustomer | backend/src/customers/customers.service.ts:78-119 | a missing customer is a plain error `Customer #<id> not found`; otherwise the customer, their rentals newest first and the statistics of those rentals |
| Customers.ListAndDetailAgree | backend/src/customers/customers.service.ts:99-108 | the list and the detail report identical statistics for the same customer |
| Users.CreateUser | backend/src/users/users.service.ts:12-39 | Conflict exactly when the email is taken; otherwise a database failure exactly when the named branch does not exist. On success one user is added under the next key with the form's email, full name and branch, the form's or the default role and active flag, the hash of the password and the creation time; the rest is untouched. The result has no password |
| Users.CreateUserPreservesValid | backend/src/users/users.service.ts:13-34 | creating a user keeps keys consistent and emails unique |
| Users.FindUser | backend/src/users/users.service.ts:55-69 | a missing id is NotFound; otherwise the user without the password |
| Users.FindCreatedUser | backend/src/users/users.service.ts:26-38 | a created user is found under its new key with the record the creation returned |
| Users.UpdateUser | backend/src/users/users.service.ts:71-96 | a missing id is NotFound. Conflict arises exactly when a non-empty new email belongs to another user. A database failure arises for an empty email held by another user or a branch that does not exist. Success means each supplied field is written, a password as given, and each absent one kept; the id, creation time and other users are untouched |
| Users.UpdateStoresPasswordUnhashed | backend/src/users/users.service.ts:86-88 | a password sent through the general update is stored as given, unlike the hash the password change stores |
| Users.UpdateWithOwnEmail | backend/src/users/users.service.ts:76-84 | re-submitting one's own email succeeds |
| Users.UpdateUserPreservesValid | backend/src/users/users.service.ts:71-92 | a successful update keeps emails unique |
| Users.UpdatePassword | backend/src/users/users.service.ts:98-113 | a missing id is NotFound; otherwise only that user's stored hash changes, and what the user shows does not |
| Users.ToggleStatus | backend/src/users/users.service.ts:115-130 | a missing id is NotFound; otherwise only that user's `isActive` is negated |
| Users.ToggleTwice | backend/src/users/users.service.ts:115-130 | toggling twice restores the store |
| Users.RemoveUser | backend/src/users/users.service.ts:132-141 | a missing id is NotFound; otherwise exactly that user is removed |
| Users.MaintenancePreservesValid | backend/src/users/users.service.ts:98-141 | changing a password, toggling and removing keep keys consistent and emails unique |
| Users.ViewHidesPassword | backend/src/users/users.service.ts:37-38 | a returned user record does not depend on the stored password |
| Statuses.AllStatusesListsEachOnce | backend/src/dashboard/dashboard.service.ts:162-171 | the status list has eight entries, lists every status and repeats none |
| Statuses.Name | backend/src/dashboard/dashboard.service.ts:162-171 | a status name reads back as the same status |
| Dashboard.GetStats | backend/src/dashboard/dashboard.service.ts:8-99 | the product and customer totals are the table sizes and the branch total counts active branches. Today's and the month's orders count orders created in those days. Revenue sums APPROVED, IN_USE and RETURNED orders, and active rentals count IN_USE only. The month's revenue never exceeds the total, and today's orders never exceed the month's when today is in the month |
| Dashboard.MainImageUrl | backend/src/dashboard/dashboard.service.ts:134-153 | the image is present if and only if a first main image exists with a non-empty url, and then it is that url |
| Dashboard.EntryMeasuresItsProduct | backend/src/dashboard/dashboard.service.ts:144-154 | each entry's count and revenue are those of its product's APPROVED, IN_USE and RETURNED orders |
| Dashboard.GetTopProducts | backend/src/dashboard/dashboard.service.ts:124-159 | as many entries as a slice to `limit` keeps, counts non-increasing, a sub-multiset of the per-product entries. Each entry measures its product's earning orders, and no product left out has more than one kept |
| Dashboard.OrdersByStatus | backend/src/dashboard/dashboard.service.ts:161-183 | eight entries, one per status in the listed order, each with its number of orders |
| Dashboard.StatusCountsCoverAllOrders | backend/src/dashboard/dashboard.service.ts:161-183 | the eight counts add up to the number of orders |
| Dashboard.DayRevenueIsFilteredSum | backend/src/dashboard/dashboard.service.ts:212-223 | accumulating prices day by day gives the sum over that day's orders |
| Dashboard.AddOrder | backend/src/dashboard/dashboard.service.ts:217-220 | a point for the order's day is opened, with the order's price, exactly when none exists. Otherwise that day's point gains the order's price and every other point is unchanged |
| Dashboard.GroupedByDayCharts | backend/src/dashboard/dashboard.service.ts:212-229 | grouping orders sorted by creation gives ascending days, one point per day with an order, each carrying that day's revenue |
| Dashboard.GroupByDay | backend/src/dashboard/dashboard.service.ts:212-223 | the one-pass loop computes the grouping fold |
| Dashboard.Window | backend/src/dashboard/dashboard.service.ts:192-209 | the window is the earning orders created from `days` days ago through today, oldest first |
| Dashboard.GetRevenueChart | backend/src/dashboard/dashboard.service.ts:185-232 | points have strictly ascending days within the window. Each point's revenue is the sum of that day's earning orders, and at least one such order exists. Every earning order in the window has its day's point |
| Analytics.GetSummary | backend/src/analytics/analytics.service.ts:25-59 | the product and customer totals are the table sizes, active branches count the active ones, and today's orders count those created today. Active rentals count APPROVED, WAITING_DELIVERY and IN_USE; revenue sums RETURNED orders only |
| Analytics.NoReturnsNoRevenue | backend/src/analytics/analytics.service.ts:43-50 | with no RETURNED order the revenue is 0 |
| Analytics.SummaryAgainstDashboard | backend/src/analytics/analytics.service.ts:42-59 | the summary counts at least the dashboard's active rentals and at most its revenue, and the same orders today |
| Analytics.RankingCountsItsRentals | backend/src/analytics/analytics.service.ts:62-66 | each ranking counts its product's orders of every status |
| Analytics.TopProducts | backend/src/analytics/analytics.service.ts:62-75 | at most five entries, with counts non-increasing, a sub-multiset of the per-product rankings. No product left out has more rentals than one kept |
| Analytics.CustomerName | backend/src/analytics/analytics.service.ts:131 | an all-blank joined name falls back to the display name; otherwise the name is non-empty with no whitespace at its ends |
| Analytics.NameFromBothParts | backend/src/analytics/analytics.service.ts:131 | clean first and last names give `first last` |
| Analytics.NameFromFirstOnly | backend/src/analytics/analytics.service.ts:131 | a clean first name with no last name gives the first name |
| Analytics.NameFromLastOnly | backend/src/analytics/analytics.service.ts:131 | a clean last name with no first name gives the last name |
| Analytics.NameFallsBack | backend/src/analytics/analytics.service.ts:131 | blank or missing name parts give the display name |
| Analytics.RecentOrders | backend/src/analytics/analytics.service.ts:81-98 | at most five rows: the rows of the first orders of the table sorted newest first. Rows are newest first, each shows a stored order, and no order newer than a shown one is left out |
| Analytics.RecentRowsDistinct | backend/src/analytics/analytics.service.ts:81-98 | under the constraints, no two recent rows show the same order |
| Analytics.RowsMissNothingNewer | backend/src/analytics/analytics.service.ts:96-97 | rows of the newest orders leave out no order newer than one they show |
| Analytics.RevenueTrend | backend/src/analytics/analytics.service.ts:145-173 | exactly `days` points (none for a non-positive count), oldest first, the last being today, each summing that day's orders not CANCELLED or REJECTED |
| Analytics.QuietDayShowsZero | backend/src/analytics/analytics.service.ts:152-169 | a day with no such order shows 0 |
| Analytics.TrendCoversChart | backend/src/analytics/analytics.service.ts:161-163 | a trend day's revenue is at least the dashboard chart's revenue for that day |
| Analytics.StatusDistribution | backend/src/analytics/analytics.service.ts:105-110 | at most eight entries, all counts positive. A status is listed, with its count, if and only if some order has it. Every entry is such a status and count, and no status is listed twice |
| Text.Trim | backend/src/analytics/analytics.service.ts:131 | the trimmed text is an infix with only whitespace around it, has no whitespace at its ends, and is empty exactly when the text is all whitespace |
| Text.TrimPadded | backend/src/analytics/analytics.service.ts:131 | trimming a clean text padded with whitespace gives back the text |

## Left out

- Prisma's queries, transactions and the parallel fan-out of queries. Each operation is one pure step over the store. The payment insert and the order update are two database calls; the model keeps only their joint successful outcome.
- Password hashing with bcrypt, and JWT authentication. The hash is a function parameter.
- LINE push messages, multer's filename generation, and disk storage. Filenames are inputs.
- `Number(...)` sums over decimal prices: money is a natural number.
- Local time, timezones, `toISOString` day keys and the `DD/MM` trend labels. Days are UTC day numbers. Chart points carry the day number rather than a date string.
- Math.random for the reference suffix: it is an input in 1000..9999.
- Controllers, modules, DTO validation (used only as preconditions, such as the password's minimum length), the seed script and both frontends.
- Products findAll and remove, rentals findAll and findOne, users findAll, and the dashboard's getRecentOrders. These are lookups and orderings the model does not cover. Deletion of a product does not fit tables keyed by position.
- The analytics composition of its parts into one response. Each part is modelled separately.
- Date-overlap conflicts and admin-driven status transitions with notifications. The services implement neither, so the model does not either.
- Analytics.RecentOrders: orders with equal creation times are kept in table order, while the database leaves their order unspecified. A missing customer or product, which the foreign keys exclude, reads as no name rather than as the run-time failure the source would raise.
- Customers.FindAllCustomers and Customers.FindCustomer: a customer's rentals with equal creation times keep table order, both in the detail's rental list and in the list's last rental. The database leaves that order unspecified.
- Dashboard.GetTopProducts and Analytics.TopProducts: ties in the count are kept in product-table order. The database leaves that order unspecified.
- Analytics.StatusDistribution: the group order is unspecified in the source; the model lists statuses in the dashboard's fixed order.
- Products.CreateProduct and Users.CreateUser: the schema's default product status, user role and active flag are parameters, because the schema file is not part of this model. The product and user update forms are not part of this model. They are assumed to carry the create form's fields, all optional, including the password for users.
- Rentals.DayCount: booking dates are taken as day numbers, which matches date-only strings. With a time of day the library's truncated count lets a range ending up to a day before its start through as one day; `Rentals.TimeOfDayAcceptsReversedRange` exhibits 08:00 to 20:00 on the previous day. Orders store day numbers, so such a range is not modelled end to end.
