# AppointmentBooking, modelled in Dafny

AppointmentBooking is a small booking system. An administrator publishes calendar slots. A customer books a free slot. The booking is paid through an Escrow smart contract, or reported paid by a webhook. The backend then moves the appointment on.

This project models the parts of that system that make decisions, and proves what they promise:

- **Booking engine** (`Types`, `Store`, `Resolvers`, `Actions`). The three tables are sequences of rows in table order, held in a `Database` object that operations change in place.
  - The mutations are methods: slot creation and deletion, booking, cancel, confirm, delete, payment and expiry.
  - Each one keeps the schema constraints: unique ids, unique slot start and end, unique customer names, and resolving references.
  - Each one also keeps **slot exclusivity**: no two appointments share a slot, and a slot is unavailable exactly when an appointment references it.
  - The queries are functions.
- **Payment reconciliation** (`Webhook`, `PaymentListener`).
  - The API-key middleware with its comma-separated, trimmed allow-list.
  - The webhook handler.
  - The handler for the on-chain `Paid` event, which matches `id(appointment.id)` against the event's indexed topic. Keccak-256 (`ethers.id`) is a function parameter.
  - Replaying a webhook call or an event after payment is proved to pay for nothing more: the second call is refused and the state is what the first call left.
- **Authorisation** (`Auth`): the `authChecker` role decision and the classification of the `Authorization` header.
- **Escrow contract** (`Escrow`): the owner-gated state machine that its test exercises, with every rejection reason the test asserts. This covers `pay`, `refund`, `setCost`, `withdraw` and plain transfers, plus a ghost conservation invariant. The whole test run is replayed as a verified method.
- **Frontend helpers** (`Text`, `Utils`, `Calendar`):
  - decimal rendering and zero padding;
  - `formatTime`, `formatDate` and `getDate`;
  - JSON-to-record conversion;
  - the in-place sort of the slots with its per-day buckets;
  - the three loops that lay out a month grid.

Clocks, hashes, token verification, the email validator and date arithmetic are parameters. The fresh UUID that an entity receives on creation is a parameter too, and it is required to be new to its table.

Where the repository's documentation and its code disagree, the model follows the code:

- A duration of 60 minutes is rejected: the test is `>= 60`.
- A slot that touches another at an endpoint is rejected, because both endpoints count.
- `createAppointment` creates a Reserved appointment, not a PendingPayment one.
- Nothing in the core checks a booking lead time. Nothing arms an expiry timer, and no resolver notifies the customer.
- `signup` stores the customer without the email address. The entity's column is `mailAddress`, so the `emailAddress` passed to `create` is dropped.

The status type is the union of the backend enum (`Available`, `Reserved`, `Confirmed`) and the `PendingPayment` value that `actions.ts` and the frontend use. The default status filter of the appointment queries is the enum's three values, so it never lets a PendingPayment row through.

Files:

- `wrappers.dfy`
- `seqs.dfy`
- `types.dfy`
- `store.dfy`
- `resolvers.dfy`
- `actions.dfy`
- `webhook.dfy`
- `paymentlistener.dfy`
- `auth.dfy`
- `escrow.dfy`
- `text.dfy`
- `utils.dfy`
- `calendar.dfy`

## Model

| member | source | states |
|---|---|---|
| Types.AllStatusesComplete | backend/src/types.ts:5-9 | the default status filter `Object.values(AppointmentStatus)` holds exactly the three members of the backend enum: every status except PendingPayment |
| Types.HolderCountZero | backend/src/types.ts:63-65 | a slot has no holder exactly when no appointment references it |
| Types.HolderCountAtMostOne | backend/src/types.ts:63-65 | with pairwise distinct slot references, every slot has at most one holder |
| Types.ExclusiveCounts | backend/src/types.ts:46-48 | under exclusivity each slot is held by at most one appointment, and it is unavailable exactly when it is held once |
| Store.Database.constructor | backend/src/types.ts:13-65 | the empty store satisfies the schema constraints and exclusivity |
| Store.SlotIndex | backend/src/resolvers.ts:174-177 | `findOne` by slot id: a row with that id, or none exactly when no row has it |
| Store.CustomerIndex | backend/src/resolvers.ts:169-172 | `findOne` by customer id: a row with that id, or none exactly when no row has it |
| Store.AppointmentIndex | backend/src/actions.ts:9-12 | `findOne` by appointment id: a row with that id, or none exactly when no row has it |
| Store.AppointmentOfSlot | backend/src/resolvers.ts:183-184 | the appointment booked on a slot, none exactly when the slot is unreferenced |
| Store.SetAvailableAt | backend/src/resolvers.ts:190-191 | with unique ids, saving the one found slot equals the by-id update |
| Store.SetStatusAt | backend/src/resolvers.ts:236-237 | with unique ids, saving the one found appointment equals the by-id status change |
| Store.AdvanceIdempotent | backend/src/actions.ts:14-20 | applying the same status transition twice equals applying it once |
| Store.HasSlotWithAvailability | backend/src/types.ts:63-65 | changing availability neither creates nor removes a slot id |
| Store.ReferencedAdvance | backend/src/actions.ts:14-16 | a status change leaves every slot reference as it was |
| Store.ReferencedRemoveAt | backend/src/resolvers.ts:219 | removing an appointment unreferences exactly its own slot |
| Store.ReferencedAppend | backend/src/resolvers.ts:192 | adding an appointment references exactly its slot in addition |
| Store.ReleaseKeeps | backend/src/resolvers.ts:215-219 | freeing an appointment's slot and removing it keeps the schema constraints and exclusivity |
| Store.BookKeeps | backend/src/resolvers.ts:190-192 | taking an unreferenced slot and adding one appointment for it keeps the constraints and exclusivity |
| Store.MarkHeldKeeps | backend/src/resolvers.ts:184-187 | forcing a referenced slot unavailable keeps the constraints and exclusivity |
| Store.AdvanceKeeps | backend/src/resolvers.ts:236-237 | a status change keeps the constraints and exclusivity |
| Store.ReleaseAndRemove | backend/src/resolvers.ts:215-219 | the appointment's slot becomes available, that appointment row goes, and nothing else changes |
| Resolvers.DurationInMinutes | backend/src/resolvers.ts:56-58 | the field value times 60 is the slot's length in seconds |
| Resolvers.StartTime | backend/src/resolvers.ts:61-63 | the `Date` is the stored second timestamp in whole milliseconds |
| Resolvers.EndTime | backend/src/resolvers.ts:66-68 | the `Date` is the stored end second in whole milliseconds |
| Resolvers.InsertByStart | backend/src/resolvers.ts:52 | ordered insertion keeps the list sorted by start and adds exactly one element |
| Resolvers.SortByStart | backend/src/resolvers.ts:52 | `order: { startTimestamp: 'ASC' }` returns a sorted permutation |
| Resolvers.GetCalendarSlots | backend/src/resolvers.ts:38-53 | exactly the slots passing the optional start, end and availability filters, ascending by start, each as often as in the table |
| Resolvers.EndpointInsideIntersects | backend/src/resolvers.ts:85-88 | for one slot: the as-written endpoint test implies the closed-interval test, and fails on an intersecting slot exactly when that slot lies strictly inside the new one |
| Resolvers.OverlapQueryAsWrittenSubset | backend/src/resolvers.ts:85-88 | over a table: whenever the as-written query (`Resolvers.OverlapQueryAsWritten`) matches a slot the corrected test finds one too, and when only the corrected test finds one, some existing slot lies strictly inside the new interval |
| Resolvers.EndpointQueryMissesContainment | backend/src/resolvers.ts:85-90 | the as-written query finds no overlap for new slot [0, 1800] against existing slot [600, 1200], although they intersect |
| Resolvers.FirstOverlap | backend/src/resolvers.ts:85-88 | the first slot the new closed interval meets, or none exactly when it meets none |
| Resolvers.AddSlotKeeps | backend/src/resolvers.ts:92 | adding a positive-length slot that meets no other keeps the constraints, exclusivity and no-overlap |
| Resolvers.CreateCalendarSlot | backend/src/resolvers.ts:72-93 | the start-window error first, then the duration error (0 < d < 60, default 30), then the overlap error, decided by the corrected closed-interval test rather than the endpoint query as written; otherwise one available slot is appended with end = start + 60·d and duration d; no-overlap is preserved |
| Resolvers.RemoveSlotKeeps | backend/src/resolvers.ts:108 | removing an unreferenced slot keeps the constraints, exclusivity and no-overlap |
| Resolvers.DeleteCalendarSlot | backend/src/resolvers.ts:97-110 | false for an unknown id; an error, keeping the slot, while it is referenced; otherwise only that slot is removed and true returned |
| Resolvers.SlotOf | backend/src/resolvers.ts:132 | the joined `calendarSlot` of an appointment is the stored slot with its id |
| Resolvers.FilterAppointments | backend/src/resolvers.ts:129-140 | exactly the appointments with a wanted status whose joined slot passes the start and end filters |
| Resolvers.GetAppointments | backend/src/resolvers.ts:144-161 | only appointments with a wanted status; without a status filter no PendingPayment row; with no filters given, exactly the appointments whose status is a member of the backend enum |
| Resolvers.GetCustomerAppointments | backend/src/resolvers.ts:116-142 | an error without a caller id or for an unknown customer; otherwise exactly the caller's appointments passing the filters; without a status filter no PendingPayment row, and with no filters exactly the caller's rows whose status is a member of the backend enum |
| Resolvers.CreateAppointment | backend/src/resolvers.ts:165-193 | errors for the caller, the slot and its availability in source order; a slot found already referenced is forced unavailable; otherwise the slot is taken and one Reserved appointment is appended for the caller |
| Resolvers.CancelAppointment | backend/src/resolvers.ts:197-222 | errors for a missing caller, an unknown customer, an unknown appointment or another customer's appointment; otherwise its slot is freed and the row removed, whatever the status |
| Resolvers.ConfirmAppointment | backend/src/resolvers.ts:226-238 | an error unless the appointment exists and is Reserved; it then becomes Confirmed and every other row is unchanged |
| Resolvers.DeleteAppointment | backend/src/resolvers.ts:242-254 | false for an unknown id; otherwise the slot is freed, the row is removed and true is returned |
| Resolvers.Utf16Length | backend/src/resolvers.ts:22 | `name.length` counts UTF-16 code units: between one and two per character, and one per character exactly when no character lies outside the Basic Multilingual Plane |
| Resolvers.AstralCharIsTwoUnits | backend/src/resolvers.ts:22 | a single emoji is one character but two code units long |
| Resolvers.Signup | backend/src/resolvers.ts:21-32 | a name under two UTF-16 code units, then an empty or invalid email, then a taken name are rejected, each with its own error; otherwise one customer is appended with that name and no mail address, and its id is returned |
| Actions.Paid | backend/src/actions.ts:14-16 | paying for an id changes only the status of the rows with that id: a PendingPayment row becomes Reserved, any other status stays, and afterwards no row with that id is pending |
| Actions.PendingPaymentAppointments | backend/src/actions.ts:4-6 | exactly the PendingPayment appointments |
| Actions.PaidIdempotent | backend/src/actions.ts:14-20 | processing a payment twice leaves the table as processing it once |
| Actions.NoPendingAfterPaid | backend/src/actions.ts:14-16 | after paying for an id, no pending appointment has that id |
| Actions.NotifyCustomer | backend/src/actions.ts:37-39 | exactly one notice is recorded, and nothing else changes |
| Actions.ProcessPayment | backend/src/actions.ts:8-21 | an error for an unknown id; PendingPayment becomes Reserved with one Reserved notice; any other status is left alone, with no notice |
| Actions.DeleteAppointment | backend/src/actions.ts:41-55 | false for an unknown id; otherwise the slot is freed, the row removed and one CANCELLED notice recorded, so a second call returns false |
| Actions.CancelIfNotPaid | backend/src/actions.ts:23-35 | an error for an unknown id; a pending appointment is deleted with its slot freed and one CANCELLED notice carrying the freed slot; a Reserved or Confirmed one is left untouched |
| Actions.PaymentThenExpiry | backend/src/actions.ts:29-34 | payment followed by the expiry for the same id frees no slot and leaves the appointments as the payment alone left them |
| Webhook.Split | backend/src/webhook.ts:15 | `split(',')` gives at least one piece, none containing the separator, and the pieces rejoin to the input |
| Webhook.SplitJoin | backend/src/webhook.ts:15 | splitting undoes joining pieces without separators |
| Webhook.TrimStart | backend/src/webhook.ts:15 | drops exactly the leading white space |
| Webhook.TrimEnd | backend/src/webhook.ts:15 | drops exactly the trailing white space |
| Webhook.Trim | backend/src/webhook.ts:15 | a substring that has white space only outside it and none at its ends |
| Webhook.TrimIdempotent | backend/src/webhook.ts:15 | trimming twice equals trimming once |
| Webhook.AcceptedApiKeys | backend/src/webhook.ts:15 | one trimmed entry per comma-separated piece of `API_KEY` |
| Webhook.ValidateApiKey | backend/src/webhook.ts:5-25 | 401 without a key; `next` exactly when the key equals an allow-list entry; 401 otherwise |
| Webhook.UnsetApiKeyRejectsAll | backend/src/webhook.ts:15-22 | with `API_KEY` unset, no key is accepted |
| Webhook.ConfiguredKeyAccepted | backend/src/webhook.ts:15-24 | a configured entry is accepted, ignoring the blanks around it |
| Webhook.PendingMatch | backend/src/webhook.ts:35-36 | finds a pending appointment with the queried id exactly when one exists |
| Webhook.WebhookHandler | backend/src/webhook.ts:27-49 | 200 exactly when the id is present and pending, and then the payment is processed with one Reserved notice carrying the appointment's slot; 400 otherwise, with no state change |
| Webhook.WebhookReplay | backend/src/webhook.ts:35-42 | replaying a webhook call after its payment is answered 400; the two calls leave customers and slots as they were, the appointments as the first call's payment left them, and one notice sent when the first succeeded |
| PaymentListener.DestructureTopics | backend/src/paymentlistener.ts:19 | the id hash is `topics[1]` and the payer is `topics[2]`, each absent when the list is too short |
| PaymentListener.MatchPending | backend/src/paymentlistener.ts:21-22 | the first pending appointment whose hashed id equals the topic; none when no appointment matches or the topic is missing |
| PaymentListener.NoMatchAfterPaid | backend/src/paymentlistener.ts:21-25 | once the matched appointment is paid, the same event matches nothing, given a hash that separates the table's ids |
| PaymentListener.OnPaidEvent | backend/src/paymentlistener.ts:18-26 | no match leaves the state unchanged; a match processes the payment for that pending appointment, with one Reserved notice carrying its slot |
| PaymentListener.RedeliveredEvent | backend/src/paymentlistener.ts:18-26 | a second delivery of the same event pays for nothing; the two deliveries leave customers and slots as they were, the appointments as the first payment left them, and one notice sent when the first matched |
| Auth.AuthChecker | backend/src/index.ts:26-37 | false unless there is exactly one role; ADMIN needs `isAdmin`, USER needs a customer id, any other role is refused |
| Auth.ContextHandler | backend/src/index.ts:49-69 | a `Bearer` header gives the decoded customer and never admin rights; any other header is admin exactly when it equals `ADMIN_TOKEN`, and never carries a customer |
| Auth.AdminOnlyByAdminToken | backend/src/index.ts:58-62 | admin access implies the header equals the configured admin token, which does not start with `Bearer` |
| Auth.UserOnlyByBearerToken | backend/src/index.ts:52-57 | user access exactly for a `Bearer` header whose token names a customer |
| Escrow.PayCheck | contract/test/Escrow.ts:18-32 | `pay` goes through exactly with a non-empty, unused id and a value equal to the cost; an empty id, too little, too much and, at the right value, an id in use are each rejected with their own reason |
| Escrow.RefundCheck | contract/test/Escrow.ts:34-65 | `refund` goes through exactly for the owner, a used id and a covered amount; a non-owner, an empty id, an unused id and an uncovered amount are each rejected with their own reason, the owner check first |
| Escrow.Escrow.constructor | contract/test/Escrow.ts:11-16 | a deployment starts with the given cost, a zero balance and no payments |
| Escrow.Escrow.Cost | contract/test/Escrow.ts:43-48 | `cost()` reads the current cost |
| Escrow.Escrow.Pay | contract/test/Escrow.ts:18-32 | a rejection changes nothing; success records id → (payer, value), emits Paid and raises the balance by the value |
| Escrow.Escrow.RefundPayment | contract/test/Escrow.ts:34-57 | a rejection changes nothing; success pays the original amount to the original payer, emits Refund, lowers the balance and frees the id |
| Escrow.Escrow.SetCost | contract/test/Escrow.ts:43-48 | owner only; recorded payments keep their amounts |
| Escrow.Escrow.Withdraw | contract/test/Escrow.ts:58-62 | owner only; the whole balance goes to the owner and the payments stay recorded |
| Escrow.Escrow.Receive | contract/test/Escrow.ts:66-67 | a plain transfer raises the balance by its value |
| Escrow.PayPhase | contract/test/Escrow.ts:14-32 | the three rejected payments, the accepted one and its rejected replay, with the expected balances |
| Escrow.RefundPhase | contract/test/Escrow.ts:33-54 | the rejected refunds and cost change, then a refund of 100 after the cost fell to 50 |
| Escrow.WithdrawPhase | contract/test/Escrow.ts:55-67 | the repayment at 50, the owner-only withdrawal, the unfunded refund and the top-up to 1000 |
| Escrow.FreePhase | contract/test/Escrow.ts:68-79 | at cost 0, a payment and a refund of 0 leave the balance at 1000 |
| Escrow.EscrowScenario | contract/test/Escrow.ts:8-80 | the whole test run, with the exact sequence of events it asserts |
| Text.NatToString | frontend/src/calendar/Calendar.tsx:65 | `''+day` gives decimal digits with no leading zero |
| Text.IntToString | frontend/src/calendar/Calendar.tsx:63 | the template literal renders a whole number in decimal: it starts with a minus sign exactly when the number is negative, and the digits read back as the number or its magnitude |
| Text.ParseNatToString | frontend/src/calendar/Calendar.tsx:65 | reading back a number's rendering gives the number |
| Text.PadStart | frontend/src/utils.ts:22 | `padStart` adds fill characters in front up to the width and cuts nothing off |
| Text.Pad2 | frontend/src/utils.ts:22 | two-digit zero padding consists of digits, has length 2 exactly below 100, and reads back as the number |
| Utils.ToCalendarSlot | frontend/src/utils.ts:3-11 | id, duration and availability are carried over; both dates are parsed |
| Utils.ToAppointment | frontend/src/utils.ts:13-19 | id and status are carried over; the nested slot is converted |
| Utils.WireRoundTrip | frontend/src/utils.ts:3-11 | a stored slot reaches the frontend with its id, availability, start and end second, and a duration that matches its end minus start |
| Utils.FormatTime | frontend/src/utils.ts:21-23 | "HH:MM UTC", with hour and minutes zero-padded and reading back as the inputs |
| Utils.FormatDate | frontend/src/utils.ts:25-27 | "DD.MM " with a 1-based month, then the time, each field reading back as its input |
| Utils.LocalMinutes | frontend/src/utils.ts:26 | the local minute agrees with the UTC minute exactly in zones a whole number of hours from UTC |
| Utils.FormatDateAsWritten | frontend/src/utils.ts:25-27 | the minutes field shows the local minute next to the UTC day, month and hour |
| Utils.FormatDateUtc | frontend/src/utils.ts:25-27 | the corrected rendering: the time field is the UTC hour and minute |
| Utils.WholeHourZonesAgree | frontend/src/utils.ts:26 | in whole-hour zones the as-written and the corrected rendering coincide |
| Utils.FractionalZonesDisagree | frontend/src/utils.ts:26 | in every other zone they differ |
| Utils.GetDate | frontend/src/utils.ts:29-32 | now plus the given number of days, in milliseconds |
| Utils.GetDateAdditive | frontend/src/utils.ts:29-32 | going a days, then b days, is going a + b days; zero days is now |
| Calendar.FormatTime | frontend/src/calendar/Calendar.tsx:9-11 | "HH:MM", with hour and minutes zero-padded and reading back as the inputs |
| Calendar.FormatTimeUtc | frontend/src/utils.ts:21-23 | the list view's time is the calendar's time followed by " UTC" |
| Calendar.SortByStartTime | frontend/src/calendar/Calendar.tsx:26 | the array is sorted by start time in place, as a permutation of its contents |
| Calendar.DayOf | frontend/src/calendar/Calendar.tsx:29 | a slot's bucket key is the UTC year, month and date of its start |
| Calendar.SameDayKey | frontend/src/calendar/Calendar.tsx:29 | two slots share a bucket key exactly when they start on the same UTC date |
| Calendar.Bucket | frontend/src/calendar/Calendar.tsx:31-34 | every slot in a day's bucket starts on that day |
| Calendar.BucketMembers | frontend/src/calendar/Calendar.tsx:28-35 | a slot is in a day's bucket exactly when it is in the list and starts that day |
| Calendar.BucketSorted | frontend/src/calendar/Calendar.tsx:26-35 | every bucket of a sorted list is sorted |
| Calendar.EverySlotInOneBucket | frontend/src/calendar/Calendar.tsx:23-38 | every slot is in exactly one bucket, that of its own day |
| Calendar.GroupByDay | frontend/src/calendar/Calendar.tsx:28-35 | the loop builds exactly the per-day buckets of the list |
| Calendar.SortCalendarSlots | frontend/src/calendar/Calendar.tsx:23-38 | the input ends up sorted as a permutation, and the map holds the buckets of the sorted list |
| Calendar.SlotTitle | frontend/src/calendar/Calendar.tsx:63 | "HH:MM - N min.": the calendar time of the start, " - ", the duration in decimal, " min." |
| Calendar.StatusOf | frontend/src/calendar/Calendar.tsx:56-61 | never NotInMonth; DifferentMonth exactly when the shown month is not today's; Today exactly on the shown date of today's month |
| Calendar.SlotsOfDay | frontend/src/calendar/Calendar.tsx:62-63 | absent for a day without slots; otherwise one entry per slot of the day, in order, with its id and its slot title |
| Calendar.Trailing | frontend/src/calendar/Calendar.tsx:67-69 | the trailing blanks fill the last row up to Saturday, and there are none when the last day is a Saturday |
| Calendar.MonthGrid | frontend/src/calendar/Calendar.tsx:51-69 | the grid has the leading blanks, one cell per day of the month and the trailing blanks |
| Calendar.LayOutMonth | frontend/src/calendar/Calendar.tsx:51-71 | the three loops build the month grid: leading blanks, one cell per day, trailing blanks |
| Calendar.GetDaysArrayForCurrentMonth | frontend/src/calendar/Calendar.tsx:40-72 | the input is sorted in place and the grid is built from its per-day buckets |
| Calendar.MonthGridWholeWeeks | frontend/src/calendar/Calendar.tsx:52-69 | when the last weekday follows from the first weekday and the month's length, the grid fills whole weeks |
| Calendar.MonthGridCells | frontend/src/calendar/Calendar.tsx:52-66 | cells outside the month are blank. Inside it, each cell's title is the decimal rendering of its day number, with no leading zero, and its slots are that day's slot entries, absent exactly when no slot starts that day. In today's month the selected day is Today and every other day is Regular; in any other month every day is DifferentMonth |

## Left out

- `login` (backend/src/resolvers.ts:11-18) is not modelled. It looks a customer up and signs a JSON Web Token with a foreign library. Reading that token back is the `decode` parameter of `Auth.ContextHandler`.
- Persistence:
  - TypeORM, SQLite and the server set-up (backend/src/index.ts:10-24 and 39-79) are left out.
  - Each operation runs as one atomic step on in-memory tables.
  - Concurrency is not modelled. This includes the un-awaited `deleteAppointment` and `notifyCustomer` calls in `actions.ts`.
- Per-field authorisation: the `@Authorized` decorators that attach `authChecker` to each resolver are GraphQL wiring. The resolvers take the context that results.
- Time values:
  - Times are whole seconds in the backend and whole milliseconds in the frontend.
  - `getTime() / 1000` of a date with a fractional second is not modelled, nor is floating-point rounding in `Date`.
  - `Date.now()` is the parameter `now`.
- HTTP:
  - Responses are modelled as their status codes only, without their JSON bodies.
  - An `x-api-key` header or an `appointmentId` query given several times (an array in Express) is modelled as an optional string.
- Foreign functions:
  - `ethers` providers and subscriptions are left out, and `ethers.id` is an uninterpreted function.
  - The payer address of a `Paid` event is destructured but, as in the source, only logged.
  - `backend/src/blockchainlistener.ts` is not part of this model: it only logs an unrelated event.
  - `EmailValidator.validate` is a predicate parameter.
- Console output: `notifyCustomer` is modelled as an append to a notice log.
- PaymentListener.NoMatchAfterPaid: requires that the hash gives distinct ids of the table distinct values, because Keccak-256 is an uninterpreted parameter here. `PaymentListener.RedeliveredEvent` relies on the same hypothesis.
- The Solidity source of Escrow is not part of this model.
  - Its checks come from the test. Where the test does not fix the order between two checks, the model chooses it, as the next three lines say.
  - The value sent with a reverted call stays with the sender.
  - Gas is not modelled.
- Escrow.PayCheck: rejects an empty id before looking at the amount, because the test tries `pay('')` only with the exact cost (contract/test/Escrow.ts:18-20).
- Escrow.PayCheck: checks the amount before the used id, because the test never sends a wrong amount for a used id.
- Escrow.RefundCheck: checks the owner before the funds, because the test never has a non-owner refund a used id while funds are short. That the owner check comes before the empty-id check is from the test (contract/test/Escrow.ts:34-36).
- Calendar facts and bucket keys:
  - The month's length, the weekdays of its first and last day, and the UTC and local components of a date are inputs.
  - The bucket key `new Date(y, m, d).getTime()` is modelled as the triple (y, m, d). The model takes distinct days to have distinct local midnights.
- `changeDate` (frontend/src/calendar/Calendar.tsx:13-21) and the React components, hooks and JSX are user-interface code and are left out.
- Calendar.SortByStartTime: does not state that the sort is stable, because the grid shows slots in start-time order only. With equal start times the order of the buckets may differ from the browser's stable sort.
- Utils.CalendarSlot: the frontend's `durationInMinutes` is a whole number, because the backend creates only whole-minute durations. `Utils.WireRoundTrip` connects the two sides.
- The appointment status received by the frontend is kept as the string the API sent, because the cast to the frontend enum checks nothing.
- PendingPayment: the backend enum (backend/src/types.ts:5-9) declares no such member, so `AppointmentStatus.PendingPayment` in backend/src/actions.ts:5, 14 and 29 does not type-check and is `undefined` at run time. As written, the comparisons at lines 14 and 29 then never hold, and the meaning of the query at line 5 is up to the ORM. The model reads it as a fourth status value, as the payment flow evidently intends. The default filter of `Resolvers.GetAppointments` and `Resolvers.GetCustomerAppointments` excludes it, as `Object.values` of the enum does.
- Actions.PendingPaymentAppointments: returns the rows in the fourth status, not what the ORM makes of an `undefined` filter.
- Actions.ProcessPayment: moves a PendingPayment row to Reserved, where the comparison as written never holds.
- Actions.CancelIfNotPaid: deletes a PendingPayment row, where the comparison as written never holds.
- Resolvers.CancelAppointment: `Appointment.findOne` at backend/src/resolvers.ts:206 loads no relations, so `appointment.customer.id` at line 211 throws for every existing appointment before anything changes. The model takes the `customer` and `calendarSlot` relations as loaded, which is what the owner check and the slot release evidently intend.
- Resolvers.Signup: returns the new customer's id where the source returns `generateToken(customer.id)`, a JSON Web Token signed by a foreign library (see `login` above).
- Resolvers.CreateCalendarSlot: `None` for the duration stands only for an omitted argument, which GraphQL replaces by `defaultValue: 30`. An explicit `durationInMinutes: null` bypasses the default, and `null <= 0` holds in JavaScript, so the source then rejects the duration. The model has no separate null value for this case.
- Nothing in the modelled core creates a PendingPayment appointment. The payment transitions are modelled for rows in that status, however they were written.

## Findings

| source | as written | input that shows it | evidently intended | confidence | as-written member | corrected member |
|---|---|---|---|---|---|---|
| backend/src/resolvers.ts:85-90 | the overlap query matches only an existing slot that contains the new start or the new end | existing slot [600, 1200] and new slot [0, 1800]: neither new endpoint lies inside the existing slot, so the overlapping slot is created | reject any new slot whose closed interval meets an existing slot | high; not executed | Resolvers.EndpointQueryMissesContainment | Resolvers.CreateCalendarSlot |
| frontend/src/utils.ts:26 | `formatDate` shows day, month and hour from the UTC getters but the minutes from the local-time `getMinutes`, then labels the time " UTC" | 12:00 UTC on 1 January in a browser at UTC+05:30 displays "01.01 12:30 UTC" | read the minutes with `getUTCMinutes` | medium; not executed | Utils.FractionalZonesDisagree | Utils.FormatDateUtc |
