/**
 The two batch reconciliation routines of `subscriptions/utils.py`:

 - `clear_dangling_subs` cancels, immediately, every active remote
   subscription of a linked customer that no local `UserSubscription`
   matches;
 - `sync_subs_group_perms` gives every group of every active plan exactly
   that plan's permission set.

 Each routine is a method proved against a specification function
 (`DanglingCancels`, `SyncedPermissions`); the lemmas state what the source
 promises about those functions.
 */
module SubscriptionUtils {
  import opened Text
  import opened Models
  import opened Store

  // ---------------------------------------------------------------------
  // Dangling-subscription cleanup
  // ---------------------------------------------------------------------

  /** The reason every dangling cancellation carries. */
  const DanglingReason: string := "Dangling active subscriptions"

  /** The call issued for a dangling remote subscription: immediate, not at
      the end of the billing period. */
  function DanglingCancel(id: string): CancelCall
  {
    CancelCall(id, DanglingReason, false)
  }

  /** `UserSubscription.objects.filter(stripe_id__iexact=sub.id.strip()).exists()`:
      a stored id equal to the stripped remote id always matches, and with
      no stored ids nothing matches. `HasLocalMatchPointwise` states the
      rule in full. */
  predicate HasLocalMatch(localIds: set<string>, subId: string): (r: bool)
    ensures Strip(subId) in localIds ==> r
    ensures localIds == {} ==> !r
  {
    exists l :: l in localIds && IEquals(l, Strip(subId))
  }

  /** The matching rule in full: some stored id has the length of the
      stripped remote id and agrees with it at every position up to ASCII
      case; the stored ids themselves are not stripped. */
  lemma HasLocalMatchPointwise(localIds: set<string>, subId: string)
    ensures HasLocalMatch(localIds, subId) <==>
      exists l :: l in localIds && |l| == |Strip(subId)| && forall i :: 0 <= i < |l| ==> LowerChar(l[i]) == LowerChar(Strip(subId)[i])
  {
    MatchPointwise(localIds, Strip(subId));
  }

  /** `IEqualsPointwise` for every stored id at once. */
  lemma MatchPointwise(localIds: set<string>, t: string)
    ensures (exists l :: l in localIds && IEquals(l, t)) <==>
      exists l :: l in localIds && |l| == |t| && forall i :: 0 <= i < |l| ==> LowerChar(l[i]) == LowerChar(t[i])
  {
    forall l | l in localIds {
      IEqualsPointwise(l, t);
    }
  }

  /** Whitespace around the remote id never decides a match: the remote id
      and its stripped form match the same stored ids. */
  lemma MatchIgnoresRemoteWhitespace(localIds: set<string>, subId: string)
    ensures HasLocalMatch(localIds, subId) <==> HasLocalMatch(localIds, Strip(subId))
  {
    StripIdempotent(subId);
  }

  /** The cancellations issued for one customer's listed subscriptions, in
      listing order: one for each subscription without a local match. */
  function UnmatchedCancels(subIds: seq<string>, localIds: set<string>): (r: seq<CancelCall>)
    ensures |r| <= |subIds|
    ensures forall k :: 0 <= k < |r| ==>
      r[k] == DanglingCancel(r[k].id) && !HasLocalMatch(localIds, r[k].id)
  {
    if subIds == [] then []
    else
      (if HasLocalMatch(localIds, subIds[0]) then [] else [DanglingCancel(subIds[0])])
      + UnmatchedCancels(subIds[1..], localIds)
  }

  /** The cancellations issued while examining one customer; a customer
      without a payment-provider id produces none. */
  function CustomerCancels(c: Customer, active: map<string, seq<string>>, localIds: set<string>): seq<CancelCall>
  {
    match c.stripeId
    case None => []
    case Some(cid) => UnmatchedCancels(Listed(active, cid), localIds)
  }

  /** The whole sequence of cancellations of one sweep: customer by customer,
      and within a customer in listing order. */
  function DanglingCancels(customers: seq<Customer>, active: map<string, seq<string>>, localIds: set<string>): (r: seq<CancelCall>)
    ensures forall k :: 0 <= k < |r| ==>
      r[k] == DanglingCancel(r[k].id) && !HasLocalMatch(localIds, r[k].id)
  {
    if customers == [] then []
    else CustomerCancels(customers[0], active, localIds) + DanglingCancels(customers[1..], active, localIds)
  }

  /** `Customer.objects.filter(stripe_id__isnull=False)`, order kept. */
  function Linked(customers: seq<Customer>): (r: seq<Customer>)
    ensures forall k :: 0 <= k < |r| ==> r[k].stripeId.Some?
    ensures forall c :: c in r <==> c in customers && c.stripeId.Some?
  {
    if customers == [] then []
    else (if customers[0].stripeId.Some? then [customers[0]] else []) + Linked(customers[1..])
  }

  lemma {:induction false} UnmatchedCancelsAppend(a: seq<string>, b: seq<string>, localIds: set<string>)
    ensures UnmatchedCancels(a + b, localIds) == UnmatchedCancels(a, localIds) + UnmatchedCancels(b, localIds)
  {
    if a != [] {
      assert (a + b)[0] == a[0] && (a + b)[1..] == a[1..] + b;
      UnmatchedCancelsAppend(a[1..], b, localIds);
      var head := if HasLocalMatch(localIds, a[0]) then [] else [DanglingCancel(a[0])];
      assert UnmatchedCancels(a + b, localIds) == head + UnmatchedCancels(a[1..] + b, localIds);
      ConcatAssoc(head, UnmatchedCancels(a[1..], localIds), UnmatchedCancels(b, localIds));
    } else {
      assert a + b == b;
    }
  }

  /** Cancellations follow customer order: a sweep over `a + b` issues the
      calls for `a` and then those for `b`. */
  lemma {:induction false} DanglingCancelsAppend(a: seq<Customer>, b: seq<Customer>,
                                                 active: map<string, seq<string>>, localIds: set<string>)
    ensures DanglingCancels(a + b, active, localIds)
         == DanglingCancels(a, active, localIds) + DanglingCancels(b, active, localIds)
  {
    if a != [] {
      assert (a + b)[0] == a[0] && (a + b)[1..] == a[1..] + b;
      DanglingCancelsAppend(a[1..], b, active, localIds);
      var head := CustomerCancels(a[0], active, localIds);
      assert DanglingCancels(a + b, active, localIds) == head + DanglingCancels(a[1..] + b, active, localIds);
      ConcatAssoc(head, DanglingCancels(a[1..], active, localIds), DanglingCancels(b, active, localIds));
    } else {
      assert a + b == b;
    }
  }

  /** Only customers with a payment-provider id are examined: dropping the
      others first changes nothing. */
  lemma {:induction false} DanglingCancelsSkipUnlinked(customers: seq<Customer>,
                                                       active: map<string, seq<string>>, localIds: set<string>)
    ensures DanglingCancels(Linked(customers), active, localIds) == DanglingCancels(customers, active, localIds)
  {
    if customers != [] {
      DanglingCancelsSkipUnlinked(customers[1..], active, localIds);
      var head := if customers[0].stripeId.Some? then [customers[0]] else [];
      DanglingCancelsAppend(head, Linked(customers[1..]), active, localIds);
      if head != [] {
        assert head[1..] == [];
      }
    }
  }

  /** A listed subscription gets a cancellation iff it has no local match. */
  lemma {:induction false} UnmatchedCancelsIff(subIds: seq<string>, localIds: set<string>, id: string)
    ensures DanglingCancel(id) in UnmatchedCancels(subIds, localIds)
        <==> id in subIds && !HasLocalMatch(localIds, id)
  {
    if subIds != [] {
      UnmatchedCancelsIff(subIds[1..], localIds, id);
      assert id in subIds <==> id == subIds[0] || id in subIds[1..];
    }
  }

  /** The cancellation rule of the sweep: a subscription id is cancelled iff
      some linked customer lists it and no stored subscription id matches it
      case-insensitively once it is stripped. */
  lemma {:induction false} DanglingCancelsIff(customers: seq<Customer>, active: map<string, seq<string>>,
                                              localIds: set<string>, id: string)
    ensures DanglingCancel(id) in DanglingCancels(customers, active, localIds)
        <==> !HasLocalMatch(localIds, id)
             && exists k :: 0 <= k < |customers| && customers[k].stripeId.Some?
                            && id in Listed(active, customers[k].stripeId.value)
  {
    if customers != [] {
      DanglingCancelsIff(customers[1..], active, localIds, id);
      var c := customers[0];
      if c.stripeId.Some? {
        UnmatchedCancelsIff(Listed(active, c.stripeId.value), localIds, id);
      }
      if exists k :: 0 <= k < |customers| && customers[k].stripeId.Some?
                     && id in Listed(active, customers[k].stripeId.value) {
        var k :| 0 <= k < |customers| && customers[k].stripeId.Some?
                 && id in Listed(active, customers[k].stripeId.value);
        if k > 0 {
          assert customers[1..][k - 1] == customers[k];
        }
      }
      if exists k :: 0 <= k < |customers| - 1 && customers[1..][k].stripeId.Some?
                     && id in Listed(active, customers[1..][k].stripeId.value) {
        var k :| 0 <= k < |customers| - 1 && customers[1..][k].stripeId.Some?
                 && id in Listed(active, customers[1..][k].stripeId.value);
        assert customers[k + 1] == customers[1..][k];
      }
    }
  }

  /** Exactly one cancellation per unmatched listing of a subscription (and
      none for a matched one). */
  lemma {:induction false} UnmatchedCancelsCount(subIds: seq<string>, localIds: set<string>, id: string)
    ensures multiset(UnmatchedCancels(subIds, localIds))[DanglingCancel(id)]
         == if HasLocalMatch(localIds, id) then 0 else multiset(subIds)[id]
  {
    if subIds != [] {
      UnmatchedCancelsCount(subIds[1..], localIds, id);
      assert multiset(subIds) == multiset([subIds[0]]) + multiset(subIds[1..]) by {
        assert subIds == [subIds[0]] + subIds[1..];
      }
      var rest := UnmatchedCancels(subIds[1..], localIds);
      if HasLocalMatch(localIds, subIds[0]) {
        assert UnmatchedCancels(subIds, localIds) == [] + rest;
      } else {
        assert UnmatchedCancels(subIds, localIds) == [DanglingCancel(subIds[0])] + rest;
        assert multiset(UnmatchedCancels(subIds, localIds)) == multiset([DanglingCancel(subIds[0])]) + multiset(rest);
      }
    }
  }

  /** How many times the linked customers' listings contain `id`. */
  function ListingCount(customers: seq<Customer>, active: map<string, seq<string>>, id: string): nat
  {
    if customers == [] then 0
    else
      (match customers[0].stripeId
       case None => 0
       case Some(cid) => multiset(Listed(active, cid))[id])
      + ListingCount(customers[1..], active, id)
  }

  /** Over a whole sweep: an unmatched subscription id is cancelled once per
      time a linked customer lists it; a matched one never. */
  lemma {:induction false} DanglingCancelsCount(customers: seq<Customer>, active: map<string, seq<string>>,
                                                localIds: set<string>, id: string)
    ensures multiset(DanglingCancels(customers, active, localIds))[DanglingCancel(id)]
         == if HasLocalMatch(localIds, id) then 0 else ListingCount(customers, active, id)
  {
    if customers != [] {
      DanglingCancelsCount(customers[1..], active, localIds, id);
      if customers[0].stripeId.Some? {
        UnmatchedCancelsCount(Listed(active, customers[0].stripeId.value), localIds, id);
      }
    }
  }

  /** The body of the outer loop of `clear_dangling_subs` for one customer
      id: list its active remote subscriptions and cancel those without a
      local match, in listing order. */
  method ClearCustomerDanglingSubs(customerStripeId: string, localIds: set<string>, gw: Gateway)
    modifies gw`cancellations
    ensures gw.cancellations == old(gw.cancellations)
      + UnmatchedCancels(Listed(gw.activeSubscriptions, customerStripeId), localIds)
  {
    var subs := gw.GetCustomerActiveSubscriptions(customerStripeId);
    var j := 0;
    while j < |subs|
      invariant 0 <= j <= |subs|
      invariant gw.cancellations == old(gw.cancellations) + UnmatchedCancels(subs[..j], localIds)
    {
      var sub := subs[j];
      NextSubscriptionCancels(subs, j, localIds);
      ConcatAssoc(old(gw.cancellations), UnmatchedCancels(subs[..j], localIds), [DanglingCancel(sub)]);
      j := j + 1;
      if HasLocalMatch(localIds, sub) {
        continue;
      }
      gw.CancelSubscription(sub, DanglingReason, false);
    }
    assert subs[..j] == subs;
  }

  /** Regrouping a concatenation; the loop proofs use it to extend their
      accumulated call logs by one step. */
  lemma ConcatAssoc<T>(a: seq<T>, b: seq<T>, c: seq<T>)
    ensures (a + b) + c == a + (b + c)
  {
  }

  /** One more listed subscription adds its own cancellation, if any. */
  lemma NextSubscriptionCancels(subs: seq<string>, j: nat, localIds: set<string>)
    requires j < |subs|
    ensures UnmatchedCancels(subs[..j + 1], localIds)
         == UnmatchedCancels(subs[..j], localIds)
            + (if HasLocalMatch(localIds, subs[j]) then [] else [DanglingCancel(subs[j])])
  {
    UnmatchedCancelsAppend(subs[..j], [subs[j]], localIds);
    assert subs[..j + 1] == subs[..j] + [subs[j]];
    assert [subs[j]][1..] == [];
  }

  /** One more customer in the sweep adds that customer's cancellations. */
  lemma NextCustomerCancels(cs: seq<Customer>, i: nat, active: map<string, seq<string>>, localIds: set<string>)
    requires i < |cs|
    ensures DanglingCancels(cs[..i + 1], active, localIds)
         == DanglingCancels(cs[..i], active, localIds) + CustomerCancels(cs[i], active, localIds)
  {
    var one := [cs[i]];
    DanglingCancelsAppend(cs[..i], one, active, localIds);
    assert cs[..i + 1] == cs[..i] + one;
    DanglingCancelsOne(cs[i], active, localIds);
  }

  lemma DanglingCancelsOne(c: Customer, active: map<string, seq<string>>, localIds: set<string>)
    ensures DanglingCancels([c], active, localIds) == CustomerCancels(c, active, localIds)
  {
    assert [c][1..] == [];
    assert CustomerCancels(c, active, localIds) + [] == CustomerCancels(c, active, localIds);
  }

  /** `clear_dangling_subs`. The local tables are only read; the gateway's
      log grows by exactly the calls of `DanglingCancels`, in that order. */
  method ClearDanglingSubs(db: Database, gw: Gateway)
    modifies gw`cancellations
    ensures gw.cancellations == old(gw.cancellations)
      + DanglingCancels(db.customers, gw.activeSubscriptions, db.userSubscriptionIds)
    ensures unchanged(db)
  {
    var qs := Linked(db.customers);
    var localIds := db.userSubscriptionIds;
    ghost var active := gw.activeSubscriptions;
    ghost var before := gw.cancellations;
    var i := 0;
    while i < |qs|
      invariant 0 <= i <= |qs|
      invariant gw.cancellations == before + DanglingCancels(qs[..i], active, localIds)
    {
      var customer := qs[i];
      ghost var done := gw.cancellations;
      ClearCustomerDanglingSubs(customer.stripeId.value, localIds, gw);
      ghost var added := CustomerCancels(customer, active, localIds);
      assert gw.cancellations == done + added;
      NextCustomerCancels(qs, i, active, localIds);
      ConcatAssoc(before, DanglingCancels(qs[..i], active, localIds), added);
      i := i + 1;
    }
    assert qs[..i] == qs;
    DanglingCancelsSkipUnlinked(db.customers, active, localIds);
  }

  // ---------------------------------------------------------------------
  // Group-permission sync
  // ---------------------------------------------------------------------

  /** One plan's turn: each of its groups gets exactly the plan's
      permission set; every other group keeps its own. */
  function ApplyPlan(perms: map<GroupId, set<Permission>>, p: Plan): (r: map<GroupId, set<Permission>>)
    ensures r.Keys == perms.Keys + p.groups
    ensures forall g :: g in r ==> r[g] == if g in p.groups then p.permissions else perms[g]
  {
    perms + map g | g in p.groups :: p.permissions
  }

  /** The given plans' turns taken in order. */
  function ApplyAll(plans: seq<Plan>, perms: map<GroupId, set<Permission>>): map<GroupId, set<Permission>>
  {
    if plans == [] then perms
    else ApplyPlan(ApplyAll(plans[..|plans| - 1], perms), plans[|plans| - 1])
  }

  /** `Subscriptions.objects.filter(active=True)`, order kept. */
  function ActivePlans(plans: seq<Plan>): (r: seq<Plan>)
    ensures forall k :: 0 <= k < |r| ==> r[k].active
    ensures forall p :: p in r <==> p in plans && p.active
  {
    if plans == [] then []
    else
      var last := plans[|plans| - 1];
      ActivePlans(plans[..|plans| - 1]) + (if last.active then [last] else [])
  }

  /** The permission sets after `sync_subs_group_perms` on `perms`. */
  function SyncedPermissions(plans: seq<Plan>, perms: map<GroupId, set<Permission>>): map<GroupId, set<Permission>>
  {
    ApplyAll(ActivePlans(plans), perms)
  }

  /** Reference definition: the last active plan, in iteration order, that
      lists group `g`, if any. */
  function LastActivePlanWith(plans: seq<Plan>, g: GroupId): (r: Option<Plan>)
    ensures r.Some? ==> r.value in plans && r.value.active && g in r.value.groups
    ensures r.None? <==> forall k :: 0 <= k < |plans| ==> !(plans[k].active && g in plans[k].groups)
  {
    if plans == [] then None
    else
      var last := plans[|plans| - 1];
      if last.active && g in last.groups then Some(last)
      else
        var r := LastActivePlanWith(plans[..|plans| - 1], g);
        assert forall k :: 0 <= k < |plans| - 1 ==> plans[..|plans| - 1][k] == plans[k];
        r
  }

  /** Appending a plan to the iteration order: an active one takes one more
      turn, an inactive one changes nothing. */
  lemma SyncedSnoc(init: seq<Plan>, last: Plan, perms: map<GroupId, set<Permission>>)
    ensures SyncedPermissions(init + [last], perms)
         == if last.active then ApplyPlan(SyncedPermissions(init, perms), last)
            else SyncedPermissions(init, perms)
  {
    var plans := init + [last];
    assert plans[..|plans| - 1] == init;
    var s := ActivePlans(init);
    if last.active {
      assert ActivePlans(plans) == s + [last];
      assert (s + [last])[..|s|] == s;
    } else {
      assert ActivePlans(plans) == s + [] == s;
    }
  }

  /** What the sync leaves in group `g`: the permission set of the last
      active plan that lists it (a replacement, not a union), or `g`'s own
      set when no active plan lists it. No group appears or disappears
      except those the active plans attach. */
  lemma {:induction false} SyncedPermissionsAt(plans: seq<Plan>, perms: map<GroupId, set<Permission>>, g: GroupId)
    ensures g in SyncedPermissions(plans, perms) <==> g in perms || LastActivePlanWith(plans, g).Some?
    ensures g in SyncedPermissions(plans, perms) ==>
      SyncedPermissions(plans, perms)[g] ==
        match LastActivePlanWith(plans, g)
        case Some(p) => p.permissions
        case None => perms[g]
  {
    if plans != [] {
      var init, last := plans[..|plans| - 1], plans[|plans| - 1];
      SyncedPermissionsAt(init, perms, g);
      assert plans == init + [last];
      SyncedSnoc(init, last, perms);
    }
  }

  /** The last active plan listing `g`, found by its index, is the one
      `LastActivePlanWith` returns. */
  lemma {:induction false} LastActivePlanAt(plans: seq<Plan>, g: GroupId, i: nat)
    requires i < |plans| && plans[i].active && g in plans[i].groups
    requires forall j :: i < j < |plans| ==> !(plans[j].active && g in plans[j].groups)
    ensures LastActivePlanWith(plans, g) == Some(plans[i])
  {
    if i < |plans| - 1 {
      var init := plans[..|plans| - 1];
      LastActivePlanAt(init, g, i);
    }
  }

  /** A group shared by several active plans ends with the permissions of
      the last of them in iteration order. */
  lemma LastPlanWins(plans: seq<Plan>, perms: map<GroupId, set<Permission>>, g: GroupId, i: nat)
    requires i < |plans| && plans[i].active && g in plans[i].groups
    requires forall j :: i < j < |plans| ==> !(plans[j].active && g in plans[j].groups)
    ensures g in SyncedPermissions(plans, perms)
    ensures SyncedPermissions(plans, perms)[g] == plans[i].permissions
  {
    LastActivePlanAt(plans, g, i);
    SyncedPermissionsAt(plans, perms, g);
  }

  /** A group no active plan lists keeps its permissions (inactive plans
      are not processed at all). */
  lemma UnlistedGroupKept(plans: seq<Plan>, perms: map<GroupId, set<Permission>>, g: GroupId)
    requires g in perms
    requires forall k :: 0 <= k < |plans| ==> !(plans[k].active && g in plans[k].groups)
    ensures g in SyncedPermissions(plans, perms)
    ensures SyncedPermissions(plans, perms)[g] == perms[g]
  {
    SyncedPermissionsAt(plans, perms, g);
  }

  /** Running the sync twice yields the same permission sets as once. */
  lemma SyncIdempotent(plans: seq<Plan>, perms: map<GroupId, set<Permission>>)
    ensures SyncedPermissions(plans, SyncedPermissions(plans, perms)) == SyncedPermissions(plans, perms)
  {
    var once := SyncedPermissions(plans, perms);
    var twice := SyncedPermissions(plans, once);
    forall g
      ensures g in twice <==> g in once
      ensures g in twice ==> twice[g] == once[g]
    {
      SyncedPermissionsAt(plans, perms, g);
      SyncedPermissionsAt(plans, once, g);
    }
  }

  /** When every plan respects the permission restriction, every group an
      active plan lists ends up holding only subscription permissions. */
  lemma SyncedPermissionsAllowed(plans: seq<Plan>, perms: map<GroupId, set<Permission>>, g: GroupId, i: nat)
    requires forall k :: 0 <= k < |plans| ==> ValidPlan(plans[k])
    requires i < |plans| && plans[i].active && g in plans[i].groups
    ensures g in SyncedPermissions(plans, perms)
    ensures forall perm :: perm in SyncedPermissions(plans, perms)[g] ==> AllowedPermission(perm)
  {
    SyncedPermissionsAt(plans, perms, g);
  }

  /** One more plan's turn extends the fold by that plan. */
  lemma NextPlanApplied(plans: seq<Plan>, i: nat, perms: map<GroupId, set<Permission>>)
    requires i < |plans|
    ensures ApplyAll(plans[..i + 1], perms) == ApplyPlan(ApplyAll(plans[..i], perms), plans[i])
  {
    assert plans[..i + 1][..i] == plans[..i];
  }

  /** `sync_subs_group_perms`. Only group permission sets change, and they
      change to `SyncedPermissions`; the plans themselves are untouched. */
  method SyncSubsGroupPerms(db: Database)
    modifies db`groupPermissions
    ensures db.groupPermissions == SyncedPermissions(db.plans, old(db.groupPermissions))
    ensures db.plans == old(db.plans)
  {
    var qs := ActivePlans(db.plans);
    ghost var start := db.groupPermissions;
    var i := 0;
    while i < |qs|
      invariant 0 <= i <= |qs|
      invariant db.groupPermissions == ApplyAll(qs[..i], start)
    {
      var obj := qs[i];
      var subPerms := obj.permissions;
      var remaining := obj.groups;
      ghost var done: set<GroupId> := {};
      ghost var before := db.groupPermissions;
      while remaining != {}
        invariant done + remaining == obj.groups
        invariant db.groupPermissions == before + map g | g in done :: subPerms
        decreases remaining
      {
        var group :| group in remaining;
        db.groupPermissions := db.groupPermissions[group := subPerms];
        remaining := remaining - {group};
        done := done + {group};
      }
      NextPlanApplied(qs, i, start);
      i := i + 1;
    }
    assert qs[..i] == qs;
  }
}
