# Offer matching for partner customers — a Dafny model

The system lets partner organisations submit customer profiles ("customers")
and matches them against time-bounded credit offers published by lending
organisations ("lenders"). Each match becomes an application, which carries
a status that the offer's lender updates.

This project models the core of that system. Its centre is the matching
engine: for a customer, a credit score and an instant, it finds every offer
that
- is in rotation at that instant,
- accepts the score, both ends included,
- belongs to the named lender, when a lender is named,
- and has no application from the customer yet.

Around the engine, the project models:
- the application table, with its one-row-per-(customer, offer) rule;
- the three paths that run matching and store its results:
  - a partner's request for one lender (matched at once);
  - a partner's request for all lenders (deferred to a background task);
  - the periodic sweep over customers that allow automatic matching;
- who may see or change what: partners, lenders, and users who are neither.

## Modules and files

| File | Module | What it holds |
|---|---|---|
| `basics.dfy` | `Basics` | ids, timestamps, the requesting user (`Actor`), HTTP methods, failures |
| `lenders_models.dfy` | `LenderModels` | offers, offer types, activity and score predicates |
| `applications_models.dfy` | `ApplicationModels` | statuses, applications, the `ApplicationStore` class |
| `partners_models.dfy` | `PartnerModels` | customers, matching modes, the matching engine (`MatchWithOffers`) and its properties |
| `applications_tasks.dfy` | `ApplicationTasks` | the single-customer task, the sweep, the `TaskQueue` class |
| `applications_serializers.dfy` | `ApplicationSerializers` | validation of create requests, the two save paths |
| `applications_views.dfy` | `ApplicationViews` | application list scoping, create routing and answer, detail and status change |
| `lenders_views.dfy` | `LenderViews` | offer list and offer detail |
| `partners_views.dfy` | `PartnerViews` | the `CustomerTable` class, customer list, creation and detail |

## Modelling choices

**Time.** An instant is an abstract `int`. Each operation takes one `now`. The
source reads the clock twice in one query; the model uses one instant for both.

**Tables.** Tables are sequences of records.
- An application refers to its customer and offer by id. Lender and partner
  scoping join through the offer and customer tables.
- An application's primary key is its position in `ApplicationStore.rows`.
  Rows are never deleted.
- Where a proof needs primary keys to be unique, it assumes this as
  `OfferIdsUnique` or `CustomerIdsUnique`.
- The lender table is a set of ids, since the core only asks whether a lender
  exists.

**Bulk insert.** `ApplicationStore.BulkInsert` models the integrity error too.
If a pair repeats, it reports failure and writes nothing. Every caller proves
the failure cannot happen: the single-customer task, the sweep and the
certain-lender save.

**Status.** The status is the stored non-negative integer. The six `Status`
codes are its declared choices (`StatusCode` / `StatusFromCode`). The update
path declares `status` as a plain integer field (applications/serializers.py:15),
so a PATCH stores any integer the column can hold, inside the six codes or not.
The column is a positive-integer column on PostgreSQL: a 32-bit signed integer
with a non-negative check, so it holds 0 to 2147483647 (`MaxStatusColumn`). A
negative value breaks the check and a larger one is out of the column's range;
both end in a server error with nothing changed. `PatchedStatus` models exactly that. No transition order is
enforced: any value may replace any other.

**Request validation.** Validation runs in the order the serializer framework
uses:
1. `customer_id`, then `lender_id`.
2. A 404 raised by either lookup ends validation at once, even after an earlier
   field error.
3. Otherwise, field errors are collected and answered with 400.
4. Only then does the ownership check run.

This ordering has a visible effect. An unknown customer id gets 404, while
another partner's customer gets 400 (`ForeignCustomerIsInvalid`), so the
answer reveals whether an id exists.

**Ownership check.** The check looks only at whether the user has a partner
profile. It ignores membership of the partners group.

**Routing.** On POST:
- `lender_id` equal to the text `all` goes to the all-lenders serializer;
- any other `lender_id` goes to the certain-lender serializer. The text `lal`
  therefore fails as "not an integer", not as "not all";
- no `lender_id` goes to the read serializer. It requires `status`; with one
  given, saving a row without customer and offer fails with an integrity
  error. Either way nothing is written.

**Unknown customer in the task.** `match_customer_task` with an id that names
no customer ends in an error, not a quiet return. Its `except` clause names
`Customer.DoesNotExists`, an attribute the class does not have, so evaluating
the clause raises. Nothing is stored. `MatchCustomerTask` reports `Failed`.

**Who sees what.**
- The application list and detail filter by partner for a partner and by
  lender for a lender. A user who is neither sees every application.
- The application endpoints carry no partner-only guard. A lender's create
  request fails in validation because it has no partner profile.
- On the offer list and the customer list, the partner-only guard runs before
  the method check. So a non-partner gets 403 whatever the method, and a
  partner using an unsupported method gets 405.

## Model

| member | source | states |
|---|---|---|
| LenderModels.OfferTypeCode | lenders/models.py:27-37 | an offer type is stored as one of the codes 1, 2, 3 |
| LenderModels.OfferTypeFromCode | lenders/models.py:27-37 | exactly the codes 1..3 read back as an offer type, and reading back gives the code that was stored |
| LenderModels.OfferTypeCodeRoundTrip | lenders/models.py:27-37 | storing an offer type and reading it back gives the same type |
| LenderModels.InvertedOfferNeverEligible | lenders/models.py:39-43 | an offer whose score range or rotation window is inverted can be stored, but it accepts no customer at any instant |
| LenderModels.OfferIdDetermines | lenders/models.py:25 | in the offer table, two rows are the same offer exactly when their primary keys are equal |
| LenderModels.FindOffer | lenders/views.py:43-44 | lookup by primary key: nothing exactly when no offer has that key, otherwise an offer of the table with that key |
| LenderModels.FindOfferUnique | lenders/views.py:43-44 | with unique keys, looking up an offer's own key finds that offer |
| ApplicationModels.StatusCode | applications/models.py:10-24 | the six statuses are stored as the codes 1..6 |
| ApplicationModels.StatusFromCode | applications/models.py:10-24 | exactly the codes 1..6 read back as a status, each as the status stored under it |
| ApplicationModels.StatusCodeRoundTrip | applications/models.py:10-24 | storing a status and reading it back gives the same status |
| ApplicationModels.DefaultStatusIsNew | applications/models.py:29 | a new application's stored status is the code of `NEW` |
| ApplicationModels.UniquePairsConcat | applications/models.py:37 | two duplicate-free batches with disjoint (customer, offer) pairs join into a duplicate-free batch |
| ApplicationModels.UniquePairsStatusUpdate | applications/models.py:29-37 | changing one row's status keeps the table free of duplicate pairs |
| ApplicationModels.ApplicationStore.constructor | applications/models.py:8-37 | an empty table satisfies the one-row-per-pair rule |
| ApplicationModels.ApplicationStore.BulkInsert | applications/models.py:37 | the batch is stored exactly when no pair repeats a stored one or another in the batch; the table becomes old rows plus the batch, or stays unchanged; the pair rule is kept |
| ApplicationModels.ApplicationStore.SetStatus | applications/views.py:131 | only the given row's status changes, to any value; the pair rule is kept |
| PartnerModels.NewCustomerDefaultModes | partners/models.py:55-61 | a customer created without matching modes has both manual and automatic matching |
| PartnerModels.FindCustomer | partners/views.py:84-85 | lookup by primary key: nothing exactly when no customer has that key, otherwise a customer of the table with that key |
| PartnerModels.CustomerIdDetermines | partners/models.py:30 | in the customer table, two rows are the same customer exactly when their primary keys are equal |
| PartnerModels.ExistingApplications | partners/models.py:98-100 | an application is returned exactly when it is in the table, is this customer's, and (when a lender is named) is on that lender's offer |
| PartnerModels.MatchedOffers | partners/models.py:104-113 | an offer is returned exactly when it is in the catalogue, accepts the score (inclusive), is in rotation at `now` (inclusive), is not excluded and belongs to the named lender; unique keys stay unique |
| PartnerModels.MatchWithOffers | partners/models.py:76-126 | the loop builds one unsaved default-status application per matched offer, in query order; it returns the existing applications as well exactly when asked to; it writes nothing |
| PartnerModels.NewMatchesSound | partners/models.py:98-121 | every new application is this customer's, has status `NEW`, targets an offer of the catalogue that is in scope, in rotation and accepts the score, and targets no offer the customer already applied to |
| PartnerModels.NewMatchesComplete | partners/models.py:104-121 | every in-scope offer that is in rotation, accepts the score and was not applied to yields a new application |
| PartnerModels.NewMatchesUnique | partners/models.py:115-121 | with unique offer keys, the new applications are pairwise distinct (one per offer) |
| PartnerModels.NewMatchesFresh | partners/models.py:98-121 | storing the new applications in a duplicate-free table keeps it duplicate-free |
| PartnerModels.MatchedOffersEmpty | partners/models.py:104-113 | when no offer passes the filter, the query is empty |
| PartnerModels.RematchAfterInsertIsEmpty | partners/models.py:98-111 | after the new applications are stored, matching again in the same scope yields nothing new |
| PartnerModels.ScopedMatchIsRestriction | partners/models.py:99-113 | matching within one lender yields exactly the all-lender matches whose offer belongs to that lender |
| PartnerModels.ExistingApplicationsScoped | partners/models.py:99-100 | with a lender named, every existing application returned is this customer's and on that lender's offer |
| PartnerModels.ScenarioQueryAll | partners/tests_models.py:70-76 | across lenders, offers 2 and 3 of the test (the second and fourth here) match and become the two new applications |
| PartnerModels.ScenarioQueryLender | partners/tests_models.py:78-83 | within lender 1, only the second offer matches |
| PartnerModels.ScenarioQueryAllExcluded | partners/tests_models.py:87-98 | with the application to the second offer stored, only the fourth offer is new across lenders |
| PartnerModels.ScenarioQueryLenderExcluded | partners/tests_models.py:100-103 | with that application stored, nothing is new within lender 1 |
| PartnerModels.ScenarioExisting | partners/tests_models.py:87-103 | the stored application is the customer's existing one, across lenders and within lender 1 |
| PartnerModels.MatchingScenario | partners/tests_models.py:70-103 | the repository's scenario: two matches across lenders, one within lender 1 (the expired offer never matched), and after storing it one new match overall and none within lender 1 |
| ApplicationTasks.TaskQueue.constructor | applications/tasks.py:13 | no task is pending at first |
| ApplicationTasks.TaskQueue.Delay | applications/serializers.py:93 | scheduling appends exactly the given argument to the pending tasks |
| ApplicationTasks.ResolveCustomer | applications/tasks.py:14-22 | a customer object is used as it is; a number resolves to the customer with that key, and to nothing exactly when no customer has it |
| ApplicationTasks.MatchCustomerTask | applications/tasks.py:13-25 | an unknown id ends in failure with nothing stored; otherwise the customer's all-lender new applications are appended to the table, which stays duplicate-free |
| ApplicationTasks.AutoCustomers | applications/tasks.py:32-36 | a customer is visited exactly when it is in the table and its modes contain automatic matching; unique keys stay unique |
| ApplicationTasks.MatchCustomersWithOffersTask | applications/tasks.py:28-40 | the loop gathers, in visiting order, each automatic customer's all-lender new applications and stores them with one bulk insert that always succeeds |
| ApplicationTasks.SweepBatchMembership | applications/tasks.py:37-38 | an application is in the sweep's batch exactly when it is a new all-lender match of some visited customer |
| ApplicationTasks.SweepBatchFresh | applications/tasks.py:37-40 | over duplicate-free tables keyed by id, the batch repeats no stored pair and none of its own |
| ApplicationTasks.SweepOnlyAutoCustomers | applications/tasks.py:32-36 | every application the sweep stores belongs to a customer with automatic matching |
| ApplicationTasks.SweepSkipsManualOnly | applications/tests_tasks.py:37-49 | a customer without automatic matching gets no application from the sweep |
| ApplicationTasks.SweepComplete | applications/tasks.py:37-38 | every automatic customer gets an application for every offer of any lender that is in rotation, accepts its score and was not applied to |
| ApplicationTasks.AutoCustomersEmpty | applications/tasks.py:32-36 | with no automatic customer, nobody is visited |
| ApplicationTasks.SweepWithoutAutoCustomersIsEmpty | applications/tasks.py:30-40 | with no automatic customer, the sweep inserts an empty batch |
| ApplicationTasks.SweepVisitsAutoCustomersInOrder | applications/tests_tasks.py:27-50 | with modes {auto}, {manual, auto}, {manual}, the sweep visits the first two in order and its one batch is their results concatenated |
| ApplicationSerializers.ParseInteger | applications/serializers.py:28 | a number is taken as it is; text parses exactly when it is a run of decimal digits, optionally after a minus sign, and then to the number those digits denote (leading zeros allowed, "-0" is 0) |
| ApplicationSerializers.DecimalString | applications/serializers.py:28 | every natural number has a non-empty decimal spelling that denotes it |
| ApplicationSerializers.ParseIntegerText | applications/serializers.py:28 | any integer sent as its decimal text parses back to itself |
| ApplicationSerializers.CustomerIdField | applications/serializers.py:28-43 | a missing value and a non-integer each get their own 400 reason; 404 exactly when the integer names no customer; over unique keys, an integer naming a customer is accepted as that customer when it allows manual matching and gets the manual-mode error otherwise |
| ApplicationSerializers.CertainLenderIdField | applications/serializers.py:63-68 | a missing value and a non-integer each get their own 400 reason; an integer naming an existing lender is accepted as that lender; 404 exactly when it names no lender |
| ApplicationSerializers.AllLendersIdField | applications/serializers.py:82-90 | accepted exactly for the text `all`; never a 404 |
| ApplicationSerializers.CheckOwnership | applications/serializers.py:45-58 | passes exactly when the user has a partner profile and that partner owns the customer; "not a partner" exactly when there is no profile |
| ApplicationSerializers.RunValidation | applications/serializers.py:26-58 | 404 exactly when a field lookup raised it; success only with both fields accepted and the customer owned by the user's partner; a 400 always carries a reason, and every field error is among them; with both fields accepted, a non-partner gets "not a partner" and a partner passes exactly when it owns the customer, getting "not owner" otherwise |
| ApplicationSerializers.ValidateCertainLender | applications/serializers.py:61-68 | an accepted request names an existing, manually matched customer owned by the user's partner, and an existing lender |
| ApplicationSerializers.ValidateAllLenders | applications/serializers.py:80-90 | an accepted request names an existing, manually matched customer owned by the user's partner, and its lender_id is `all` |
| ApplicationSerializers.UnknownCustomerIsNotFound | applications/serializers.py:32 | an id no customer carries is answered with 404 by both serializers |
| ApplicationSerializers.UnknownLenderIsNotFound | applications/serializers.py:66 | on the certain-lender path, an id no lender carries is answered with 404 |
| ApplicationSerializers.ValidCertainLenderRequestAccepted | applications/tests_api.py:120-133 | a request naming the partner's own manually matched customer and an existing lender is accepted for that customer and lender |
| ApplicationSerializers.ValidAllLendersRequestAccepted | applications/tests_api.py:36-47 | a request naming the partner's own manually matched customer with lender_id `all` is accepted for that customer |
| ApplicationSerializers.ForeignCustomerIsInvalid | applications/serializers.py:52-56 | another partner's customer is refused with 400 "not owner", not 404, on the all-lenders path and, with an existing lender, on the certain-lender path |
| ApplicationSerializers.ManualModeGate | applications/serializers.py:35-42 | a customer without manual matching is never accepted by either serializer |
| ApplicationSerializers.PartnerGate | applications/serializers.py:46-50 | a user without a partner profile is never accepted by either serializer |
| ApplicationSerializers.NonNumericLenderId | applications/tests_api.py:76-86 | the lender_id `lal` is refused on the certain-lender path, as "not an integer" unless the customer is unknown |
| ApplicationSerializers.SaveToCertainLender | applications/serializers.py:70-77 | matches within that lender with the existing applications returned, stores exactly the new ones, and the table stays duplicate-free |
| ApplicationSerializers.SaveToAllLenders | applications/serializers.py:92-93 | stores nothing and schedules the single-customer task once, with the customer's id |
| ApplicationViews.ShownKeys | applications/views.py:39-51 | a key below the bound is listed exactly when the user may see its row; keys come in increasing order |
| ApplicationViews.ApplicationList | applications/views.py:39-51 | the list holds exactly the keys of the applications the user may see (a partner: its customers'; a lender: those on its offers; neither: all), each once, in table order |
| ApplicationViews.LenderNeverSeesForeignApplication | applications/views.py:110-122 | a lender never sees, and so can never change, an application on another lender's offer |
| ApplicationViews.SerializerFor | applications/views.py:53-60 | POST with lender_id `all` goes to the all-lenders serializer exactly; POST with any other lender_id goes to the certain-lender serializer exactly |
| ApplicationViews.RoutedAllLendersIdAccepted | applications/views.py:55-57 | a request routed to the all-lenders serializer always passes its lender_id check |
| ApplicationViews.ValidateCreate | applications/views.py:68-71 | an accepted request names an admissible customer; it goes to all lenders exactly when lender_id is `all`, otherwise to an existing lender; without lender_id the request always fails (400 or 500) |
| ApplicationViews.ValidCreateAccepted | applications/views.py:53-71 | a request naming the partner's own manually matched customer is accepted: for all lenders when lender_id is `all`, for that lender when it names an existing one |
| ApplicationViews.CertainLenderOutput | applications/views.py:83-101 | the new applications are returned exactly when there are some; otherwise "no new suitable offers" exactly when the customer already has applications with that lender, else "no suitable offers" |
| ApplicationViews.Create | applications/views.py:68-101 | a refused request stores and schedules nothing; all-lenders schedules the task and answers with the message; certain-lender stores exactly the lender-scoped new applications and answers as `CertainLenderOutput` |
| ApplicationViews.CreatedApplicationsShown | applications/views.py:39-51 | every application a certain-lender create stores is visible both to the owning partner and to that lender |
| ApplicationViews.PatchedStatus | applications/serializers.py:15 | no status keeps the stored one; an integer from 0 to 2147483647 is stored as given; non-integer text is a 400; a negative integer or one past the 32-bit column is a server error |
| ApplicationViews.PatchedStatusCode | applications/models.py:10-24 | each of the six status codes sent as text is stored as that code |
| ApplicationViews.ApplicationDetail | applications/views.py:104-134 | GET shows a visible row or 404; a non-lender PATCH is a 400; a lender's PATCH on an invisible row is a 404, otherwise only that row's status changes, to what `PatchedStatus` allows (0 to 2147483647); PUT, DELETE and POST are 405; failed requests change nothing |
| LenderViews.ActiveOffers | lenders/views.py:20-26 | an offer is listed exactly when it is in the table and in rotation at `now` |
| LenderViews.OffersOf | lenders/views.py:38-39 | an offer is kept exactly when it is that lender's; unique keys stay unique |
| LenderViews.OffersList | lenders/views.py:16-29 | non-partners get 403 for any method; partners get 405 for anything but GET, and otherwise exactly the offers in rotation, of every lender |
| LenderViews.OfferDetail | lenders/views.py:32-44 | only GET is allowed; a found offer has the requested key, and for a lender it is that lender's own; otherwise 404 |
| LenderViews.NonLenderSeesEveryOffer | lenders/views.py:36-41 | a user who is not a lender reads every offer by its key, inactive ones included |
| LenderViews.LenderSeesOnlyOwnOffers | lenders/views.py:36-41 | a lender reads an offer exactly when it is its own, and gets 404 otherwise |
| PartnerViews.CustomerTable.constructor | partners/models.py:30-61 | an empty customer table has unique keys |
| PartnerViews.CustomerTable.Create | partners/views.py:23-58 | a non-partner gets 403 and nothing is stored; a partner's new customer gets the next key, is owned by that partner whatever the payload says, and is appended |
| PartnerViews.CustomersOf | partners/views.py:39-44 | a customer is kept exactly when the partner owns it |
| PartnerViews.CustomerList | partners/views.py:23-52 | non-partners get 403; a partner gets exactly its own customers |
| PartnerViews.ShownCustomers | partners/views.py:66-82 | a customer is kept exactly when the user may read it |
| PartnerViews.CustomerDetail | partners/views.py:61-85 | only GET is allowed; it succeeds exactly when a customer with that key is readable by the user (a partner: its own; a lender: one with an application on its offers), otherwise 404 |
| PartnerViews.DispatchRevealsCustomerToLender | partners/views.py:72-80 | once a certain-lender dispatch stored an application, that lender can read the customer |

## Left out

- Background-task infrastructure: the task broker, the beat schedule and its period. The sweep is a method the environment calls; scheduling a task is an append to `TaskQueue.pending`.
- Concurrency: the gap between matching and bulk insert is not modelled, since every operation runs alone.
- Authentication: group membership and profiles are given fields of `Actor`. Anonymous users are not modelled.
- Admin screens, URL configuration, hyperlinked representations, list filtering, ordering and search: these are presentation and do not affect which rows exist or are visible.
- Deletion of lenders, offers, partners and customers, and its protection by referencing rows: no core operation deletes anything.
- Personal fields of a customer (names, phone, passport, birth date) are opaque strings. The customer create serializer's per-field checks (lengths, dates, mode choices, at most two modes) are not modelled: `CustomerTable.Create` takes an already valid payload.
- `ApplicationSerializers.ParseInteger`: does not accept every spelling the integer field accepts (a leading plus sign, surrounding blanks, digit-group underscores, a trailing ".0"), nor boolean JSON values. The model keeps plain decimal text and numbers.
- `ApplicationSerializers.ParseInteger`: a JSON `null` is not a `RawValue`. In the source, `lender_id: null` is routed to the certain-lender serializer and refused there with 400.
- `ApplicationSerializers.ParseInteger`: the integer field refuses text longer than 1000 characters with 400; the model parses text of any length, so such an id is looked up (404 or accepted) and such a status is stored or refused by the column bound.
- `ApplicationSerializers.AllLendersIdField`: does not trim surrounding blanks as the text field does. Routing sends only the exact text `all` here, so no reachable request differs.
- PUT, PATCH and DELETE on the customer list and application list: the list endpoints are modelled for GET and POST only.
- Response bodies: messages carry the customer and lender ids rather than their display strings; `status_display` and the timestamps `created_at`/`updated_at` are not modelled.
- Database ordering: lists follow table order, since the source asks for no ordering.
- Clock reads: every operation takes one `now`.
- Partner and lender records beyond their ids.
