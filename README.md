# Subscription reconciliation model

A Dafny model of the subscription side of a Django SaaS application. It covers:

- the plan catalogue (`Subscriptions`) and the closed set of subscription permissions;
- the two batch reconciliation routines and the management commands that repeat them:
  - the dangling-subscription cleanup, which cancels remote payment-provider subscriptions that no local `UserSubscription` knows;
  - the group-permission sync, which copies each active plan's permissions onto its groups;
- the selection rule of the pricing page.

Layout, one module per source file or component:

| file | module | models |
|---|---|---|
| `text.dfy` | `Text` | `str.strip()` and the case-insensitive `__iexact` comparison (ASCII) |
| `models.dfy` | `Models` | `subscriptions/models.py`: permissions, `SUBSCRIPTIONS_PERMS`, the plan record, the customer record |
| `store.dfy` | `Store` | the database tables the core touches (`Database`) and the billing gateway as an oracle (`Gateway`) |
| `utils.dfy` | `SubscriptionUtils` | `subscriptions/utils.py`: `clear_dangling_subs`, `sync_subs_group_perms`, their specification functions and lemmas |
| `commands.dfy` | `Commands` | the `sync_user_subs` and `sync_subs` management commands |
| `views.dfy` | `PricingView` | the interval/featured selection of `subscription_price_view` |

How the model is built:

- Each imperative routine is a method over the `Database` and `Gateway` objects.
- Each such method is proved against a specification function: `DanglingCancels` is the exact sequence of gateway cancellations, and `SyncedPermissions` is the exact final group-to-permissions map.
- The management commands repeat the loops of `utils.py` in their own methods. They are proved against the same functions, so both versions issue the same calls and leave the same state.
- Lemmas state the source's promises about these functions:
  - the cancellation rule as an if-and-only-if, with exactly one call per unmatched listing;
  - calls in customer order, then listing order;
  - customers without a payment-provider id are skipped;
  - each group ends with the permissions of the last active plan listing it, which is a replacement and not a union;
  - groups no active plan lists keep their permissions;
  - the sync is idempotent.

The external pieces are parameters:

- The gateway calls `get_customer_active_subscriptions` and `cancel_subscription` are defined in no file modelled here.
- `Gateway` therefore holds a fixed listing of active subscription ids per customer id, plus a log of the cancellations requested.
- A customer id the listing does not know has no subscriptions.
- The `print` in `sync_user_subs` becomes a returned sequence of diagnostic lines.

Points of the code the model follows closely:

- `subscriptions/models.py` declares only `name`, `active`, `groups` and `permissions` on `Subscriptions`, so the plan record has those four fields.
- A remote subscription matches when some stored `UserSubscription.stripe_id` equals the stripped remote id case-insensitively (`stripe_id__iexact`). The stored id is not stripped.
- Neither routine catches an exception from a gateway call, so a failing call ends the sweep; see "Left out".

In these files, `customers.models.Customer`, `UserSubscription`, `SubscriptionPrice` and `SubscriptionPrice.IntervalChoices` are used but not defined. Only the fields the core reads are modelled:

- a customer's nullable `stripe_id`;
- the stored `UserSubscription.stripe_id` values;
- a price's `interval` and `featured`.

The interval values are `"month"` and `"year"`: the view's default argument is `"month"`, and so is the default interval of `helpers/billing.py:create_price`.

## Model

| member | source | states |
|---|---|---|
| `Text.TrimLeftSpec` | src/subscriptions/utils.py:23 | leading-whitespace removal yields a suffix, cuts off only whitespace, and leaves no leading whitespace |
| `Text.TrimRightSpec` | src/subscriptions/utils.py:23 | trailing-whitespace removal yields a prefix, cuts off only whitespace, and leaves no trailing whitespace |
| `Text.StripSpec` | src/subscriptions/utils.py:23 | `strip()` yields the infix of the id between leading and trailing whitespace; only whitespace lies outside it, and it neither starts nor ends with whitespace |
| `Text.StripClean` | src/subscriptions/utils.py:23 | an id with no surrounding whitespace is unchanged by `strip()` |
| `Text.StripIdempotent` | src/subscriptions/utils.py:23 | stripping twice equals stripping once |
| `Text.Lower` | src/subscriptions/utils.py:22-24 | case folding keeps the length and lower-cases each character in place |
| `Text.LowerIdempotent` | src/subscriptions/utils.py:22-24 | a folded string has no upper-case letter, and folding it again changes nothing |
| `Text.IEqualsPointwise` | src/subscriptions/utils.py:22-24 | `__iexact` equality holds iff the lengths agree and every position agrees up to ASCII case |
| `Models.PermissionCodenames` | src/subscriptions/models.py:21-25 | the codenames a plan's permissions may have, taken as the first components of `SUBSCRIPTIONS_PERMS`, are exactly advanced, pro, basic and basic_ai |
| `Models.DeclaredPermissionsDistinct` | src/subscriptions/models.py:4-12 | `SUBSCRIPTIONS_PERMS`, also the declared custom permissions, has four entries with pairwise distinct codenames |
| `Models.NewPlan` | src/subscriptions/models.py:15-26 | a plan created with only a name is active, has no groups and no permissions, and is valid iff its name has at most 120 characters (the empty name included) |
| `Models.ValidPlan` | src/subscriptions/models.py:16-25 | a plan is admissible iff its name has at most 120 characters and each of its permissions has application label "subscriptions" and a codename among advanced, pro, basic, basic_ai |
| `Models.StrIsName` | src/subscriptions/models.py:34-35 | `__str__` gives back the name a plan was created with, unchanged; two plans print alike iff their names are equal |
| `Store.Gateway.GetCustomerActiveSubscriptions` | src/subscriptions/utils.py:20 | the listing returns the ids recorded for that customer, or none for an unknown customer |
| `Store.Gateway.CancelSubscription` | src/subscriptions/utils.py:27-31 | a cancellation appends exactly one call, with its id, reason and period-end flag, to the log |
| `SubscriptionUtils.Linked` | src/subscriptions/utils.py:16 | the customer queryset holds exactly the customers whose `stripe_id` is non-null |
| `SubscriptionUtils.UnmatchedCancels` | src/subscriptions/utils.py:21-31 | for one customer, every call is an immediate cancellation with reason "Dangling active subscriptions" for an id with no local match, and there are no more calls than listed ids (that each cancelled id is listed is `UnmatchedCancelsIff`) |
| `SubscriptionUtils.HasLocalMatch` | src/subscriptions/utils.py:22-25 | a stored id equal to the stripped remote id always matches, and with no stored ids nothing matches |
| `SubscriptionUtils.HasLocalMatchPointwise` | src/subscriptions/utils.py:22-25 | a remote id matches iff some stored id has the length of the stripped remote id and agrees with it at every position up to ASCII case; stored ids are not stripped |
| `SubscriptionUtils.MatchIgnoresRemoteWhitespace` | src/subscriptions/utils.py:22-25 | whitespace around the remote id never decides a match: the id and its stripped form match alike |
| `SubscriptionUtils.UnmatchedCancelsAppend` | src/subscriptions/utils.py:21-31 | within one customer, calls follow listing order: the calls for listing `a + b` are those for `a`, then those for `b` |
| `SubscriptionUtils.DanglingCancels` | src/subscriptions/utils.py:16-31 | every call of a sweep has reason "Dangling active subscriptions" and `cancel_at_period_end = false`, and targets an id with no local match |
| `SubscriptionUtils.UnmatchedCancelsIff` | src/subscriptions/utils.py:21-31 | within one customer's listing, an id is cancelled iff it is listed and no stored id equals its stripped form case-insensitively |
| `SubscriptionUtils.DanglingCancelsIff` | src/subscriptions/utils.py:16-31 | across a sweep, an id is cancelled iff some customer with a non-null `stripe_id` lists it and it has no local match |
| `SubscriptionUtils.UnmatchedCancelsCount` | src/subscriptions/utils.py:21-31 | within one listing, a matched id gets no call, and an unmatched id gets exactly one call per listing of it |
| `SubscriptionUtils.DanglingCancelsCount` | src/subscriptions/utils.py:17-31 | across a sweep, an unmatched id is cancelled once for each time a linked customer lists it; a matched id is never cancelled |
| `SubscriptionUtils.DanglingCancelsAppend` | src/subscriptions/utils.py:17-31 | calls follow customer order: a sweep over `a + b` issues the calls for `a`, then those for `b` |
| `SubscriptionUtils.DanglingCancelsSkipUnlinked` | src/subscriptions/utils.py:16-20 | customers with a null `stripe_id` add no gateway call: the sweep over all customers equals the sweep over the linked ones |
| `SubscriptionUtils.ClearCustomerDanglingSubs` | src/subscriptions/utils.py:19-31 | the inner loop for one customer appends exactly that customer's cancellations, in listing order |
| `SubscriptionUtils.ClearDanglingSubs` | src/subscriptions/utils.py:7-31 | the log grows by exactly `DanglingCancels` of the current tables and listing; the local customer and `UserSubscription` state is unchanged |
| `SubscriptionUtils.ApplyPlan` | src/subscriptions/utils.py:45-47 | one plan's turn sets each of its groups to exactly the plan's permission set (a replacement); other groups keep theirs |
| `SubscriptionUtils.ActivePlans` | src/subscriptions/utils.py:43 | the plan queryset holds exactly the active plans |
| `SubscriptionUtils.LastActivePlanWith` | src/subscriptions/utils.py:43-47 | reference definition: the last active plan that lists a group, or none exactly when no active plan lists it |
| `SubscriptionUtils.SyncedSnoc` | src/subscriptions/utils.py:43-47 | one more plan in the iteration order takes one more turn if it is active, and changes nothing otherwise |
| `SubscriptionUtils.SyncedPermissionsAt` | src/subscriptions/utils.py:43-47 | after the sync, a group holds exactly the permissions of the last active plan listing it, else its previous set; no other group appears |
| `SubscriptionUtils.LastActivePlanAt` | src/subscriptions/utils.py:43-47 | the active plan at index `i` that lists a group, with no later active plan listing it, is that group's last active plan |
| `SubscriptionUtils.LastPlanWins` | src/subscriptions/utils.py:44-47 | a group shared by several active plans ends with the permission set of the last of them in iteration order |
| `SubscriptionUtils.UnlistedGroupKept` | src/subscriptions/utils.py:43-47 | a group no active plan lists keeps its permissions; inactive plans have no effect |
| `SubscriptionUtils.SyncIdempotent` | src/subscriptions/utils.py:43-47 | running the sync twice yields the same group permissions as running it once |
| `SubscriptionUtils.SyncedPermissionsAllowed` | src/subscriptions/utils.py:45-47 | when all plans respect the permission restriction, every group an active plan lists ends up with subscription permissions only |
| `SubscriptionUtils.SyncSubsGroupPerms` | src/subscriptions/utils.py:34-47 | the group permissions become exactly `SyncedPermissions` of the plans and the old sets; the plans, and so their permission sets, are unchanged |
| `Commands.Diagnostics` | src/subscriptions/management/commands/sync_user_subs.py:36 | one printed line per cancellation, naming its id, with the existence flag false |
| `Commands.HandleCustomer` | src/subscriptions/management/commands/sync_user_subs.py:23-36 | the inner loop for one customer issues the same calls as `clear_dangling_subs`, and prints each cancelled id with `exists()` false |
| `Commands.SyncUserSubsHandle` | src/subscriptions/management/commands/sync_user_subs.py:19-36 | the command issues exactly the calls `clear_dangling_subs` issues on the same state; its printed flag is always false; local state is unchanged |
| `Commands.SyncSubsHandle` | src/subscriptions/management/commands/sync_subs.py:16-23 | the command leaves exactly the group permissions `sync_subs_group_perms` leaves, and the plans are unchanged |
| `PricingView.SelectedInterval` | src/subscriptions/views.py:5-12 | the selected interval is yearly iff the argument equals the yearly choice, and monthly otherwise |
| `PricingView.FeaturedOnly` | src/subscriptions/views.py:9 | the first filter keeps exactly the featured prices |
| `PricingView.WithInterval` | src/subscriptions/views.py:10-12 | the interval filter keeps exactly the prices of the given interval |
| `PricingView.ChainedFiltersAreOnePass` | src/subscriptions/views.py:9-12 | the chain "featured, then interval" equals a single pass keeping "featured and interval = selected" |
| `PricingView.FeaturedOfOrdered` | src/subscriptions/views.py:9-12 | the selection is an order-preserving subsequence of the input prices |
| `PricingView.FeaturedOfCount` | src/subscriptions/views.py:9-12 | a featured price of the selected interval keeps every occurrence, and any other price is dropped |
| `PricingView.PriceList` | src/subscriptions/views.py:5-12 | the listed prices are exactly the featured prices of the selected interval (with multiplicity, in input order); every listed price is featured, and yearly iff the argument is the yearly choice, so intervals never mix |
| `PricingView.DefaultIsMonthly` | src/subscriptions/views.py:5-12 | with the default "month", or with any string other than the yearly choice, the view lists the featured monthly prices |

## Left out

- Gateway errors: neither routine catches an exception from either gateway call, so in the source a failing call ends the sweep. The model's gateway never fails.
- SubscriptionUtils.DanglingCancels: the listing comes from a fixed map, so a cancellation does not remove the id from later listings in the same sweep. This matters only when two local customers share one payment-provider id.
- Text.Lower and Text.Strip: case folding and whitespace cover ASCII only (Python's `isspace` set within ASCII, including `\x1c`-`\x1f`). Unicode case mapping, Unicode whitespace and database-collation details of `__iexact` are not modelled.
- ORM semantics beyond a filter over a collection are not modelled: transactions, lazy evaluation, and the row order of each queryset. Each table is a sequence in queryset order. `subscriptions/models.py` declares no `Meta.ordering`, so two runs of `filter(active=True)` need not see the plans in the same order: `SubscriptionUtils.LastPlanWins` and `SubscriptionUtils.SyncIdempotent` assume both runs see the plans in one fixed order, and when two active plans with different permission sets share a group, runs in different orders can leave different results. The order of a plan's groups is arbitrary, because the inner loop picks groups in any order and the result does not depend on that order.
- Models.ValidPlan: `limit_choices_to` constrains the choices that forms and the admin offer; the database does not enforce it. The model states the restriction as a predicate and proves what the sync preserves under it; the routines do not require it.
- The `print` output of `sync_user_subs` is modelled as a returned sequence of lines, not as console output. The unused `user = customer_obj.user` has no counterpart.
- `helpers/billing.py` (Stripe SDK wrappers and the API-key check), `helpers/date_utils.py`, the migrations, and the checkout, authentication, profile, landing, routing, admin and visit files: framework glue with no behaviour the core depends on.
