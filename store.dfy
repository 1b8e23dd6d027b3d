/**
 The state the reconciliation routines work on: the local database tables
 they query or update, and the billing gateway they call. The gateway's two
 calls are not defined in any file modelled here, so the gateway is an
 oracle: a fixed listing of active remote subscriptions per customer, and a
 log of every cancellation requested from it.
 */
module Store {
  import opened Models

  /** The tables the core reads and writes, each in queryset order. */
  class Database {
    /** `Customer` rows. */
    var customers: seq<Customer>
    /** The non-null `stripe_id` values stored in `UserSubscription` rows. */
    var userSubscriptionIds: set<string>
    /** `Subscriptions` rows (plans). */
    var plans: seq<Plan>
    /** The permission set of each `Group`. */
    var groupPermissions: map<GroupId, set<Permission>>

    constructor (customers: seq<Customer>, userSubscriptionIds: set<string>,
                 plans: seq<Plan>, groupPermissions: map<GroupId, set<Permission>>)
      ensures this.customers == customers
      ensures this.userSubscriptionIds == userSubscriptionIds
      ensures this.plans == plans
      ensures this.groupPermissions == groupPermissions
    {
      this.customers := customers;
      this.userSubscriptionIds := userSubscriptionIds;
      this.plans := plans;
      this.groupPermissions := groupPermissions;
    }
  }

  /** One `cancel_subscription(id, reason=..., cancel_at_period_end=...)` call. */
  datatype CancelCall = CancelCall(id: string, reason: string, cancelAtPeriodEnd: bool)

  /** The active subscriptions the gateway lists for a customer id; a
      customer it does not know has none. */
  function Listed(activeSubscriptions: map<string, seq<string>>, customerId: string): seq<string>
  {
    if customerId in activeSubscriptions then activeSubscriptions[customerId] else []
  }

  /** The billing gateway, seen from the core. */
  class Gateway {
    /** Ids of the active remote subscriptions of each customer id. */
    var activeSubscriptions: map<string, seq<string>>
    /** Every cancellation requested so far, in order. */
    var cancellations: seq<CancelCall>

    constructor (activeSubscriptions: map<string, seq<string>>)
      ensures this.activeSubscriptions == activeSubscriptions
      ensures cancellations == []
    {
      this.activeSubscriptions := activeSubscriptions;
      cancellations := [];
    }

    /** `get_customer_active_subscriptions(customer_id)`, reduced to the ids
        of the subscriptions it returns. */
    method GetCustomerActiveSubscriptions(customerId: string) returns (ids: seq<string>)
      ensures customerId in activeSubscriptions ==> ids == activeSubscriptions[customerId]
      ensures customerId !in activeSubscriptions ==> ids == []
    {
      ids := Listed(activeSubscriptions, customerId);
    }

    /** `cancel_subscription(id, reason, cancel_at_period_end)`: the call is
        recorded and nothing else observable changes. */
    method CancelSubscription(id: string, reason: string, cancelAtPeriodEnd: bool)
      modifies this`cancellations
      ensures cancellations == old(cancellations) + [CancelCall(id, reason, cancelAtPeriodEnd)]
    {
      cancellations := cancellations + [CancelCall(id, reason, cancelAtPeriodEnd)];
    }
  }
}
