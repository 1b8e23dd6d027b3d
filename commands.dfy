/**
 The two management commands of `subscriptions/management/commands/`. Each
 repeats, in its own `handle`, the loops of one routine of
 `subscriptions/utils.py`, and each is proved against the same
 specification function as that routine, so both issue the same calls and
 leave the same state.
 */
module Commands {
  import opened Models
  import opened Store
  import opened SubscriptionUtils

  /** One diagnostic line of `sync_user_subs`: the subscription id and the
      value `exists()` had when the line was printed. */
  datatype PrintedLine = PrintedLine(subId: string, existing: bool)

  /** The lines printed alongside a sequence of cancellations: one per
      call, naming its subscription, with the flag `false`. */
  function Diagnostics(calls: seq<CancelCall>): (r: seq<PrintedLine>)
    ensures |r| == |calls|
    ensures forall k :: 0 <= k < |r| ==> r[k].subId == calls[k].id && !r[k].existing
  {
    if calls == [] then [] else [PrintedLine(calls[0].id, false)] + Diagnostics(calls[1..])
  }

  lemma {:induction false} DiagnosticsAppend(a: seq<CancelCall>, b: seq<CancelCall>)
    ensures Diagnostics(a + b) == Diagnostics(a) + Diagnostics(b)
  {
    if a != [] {
      assert (a + b)[0] == a[0] && (a + b)[1..] == a[1..] + b;
      DiagnosticsAppend(a[1..], b);
      var head := [PrintedLine(a[0].id, false)];
      assert Diagnostics(a + b) == head + Diagnostics(a[1..] + b);
      ConcatAssoc(head, Diagnostics(a[1..]), Diagnostics(b));
    } else {
      assert a + b == b;
    }
  }

  /** The inner loop of `sync_user_subs` for one customer id: the same
      cancellations as `clear_dangling_subs`, each followed by its printed
      line. */
  method HandleCustomer(customerStripeId: string, localIds: set<string>, gw: Gateway)
    returns (printed: seq<PrintedLine>)
    modifies gw`cancellations
    ensures gw.cancellations == old(gw.cancellations)
      + UnmatchedCancels(Listed(gw.activeSubscriptions, customerStripeId), localIds)
    ensures printed == Diagnostics(UnmatchedCancels(Listed(gw.activeSubscriptions, customerStripeId), localIds))
  {
    printed := [];
    var subs := gw.GetCustomerActiveSubscriptions(customerStripeId);
    ghost var done := gw.cancellations;
    var j := 0;
    while j < |subs|
      invariant 0 <= j <= |subs|
      invariant gw.cancellations == done + UnmatchedCancels(subs[..j], localIds)
      invariant printed == Diagnostics(UnmatchedCancels(subs[..j], localIds))
    {
      var sub := subs[j];
      ghost var cancelled := UnmatchedCancels(subs[..j], localIds);
      NextSubscriptionCancels(subs, j, localIds);
      DiagnosticsAppend(cancelled, [DanglingCancel(sub)]);
      assert Diagnostics([DanglingCancel(sub)]) == [PrintedLine(sub, false)];
      ConcatAssoc(done, cancelled, [DanglingCancel(sub)]);
      j := j + 1;
      var existing := HasLocalMatch(localIds, sub);
      if existing {
        assert UnmatchedCancels(subs[..j], localIds) == cancelled + [] == cancelled;
        continue;
      }
      gw.CancelSubscription(sub, DanglingReason, false);
      printed := printed + [PrintedLine(sub, HasLocalMatch(localIds, sub))];
    }
    assert subs[..j] == subs;
  }

  /** `sync_user_subs.Command.handle`: the cancellations are exactly those
      of `clear_dangling_subs` on the same state, and the printed lines are
      their diagnostics: each names the subscription just cancelled and
      shows `exists()` as `false`. */
  method SyncUserSubsHandle(db: Database, gw: Gateway) returns (printed: seq<PrintedLine>)
    modifies gw`cancellations
    ensures gw.cancellations == old(gw.cancellations)
      + DanglingCancels(db.customers, gw.activeSubscriptions, db.userSubscriptionIds)
    ensures printed == Diagnostics(DanglingCancels(db.customers, gw.activeSubscriptions, db.userSubscriptionIds))
    ensures unchanged(db)
  {
    printed := [];
    var qs := Linked(db.customers);
    var localIds := db.userSubscriptionIds;
    ghost var active := gw.activeSubscriptions;
    ghost var before := gw.cancellations;
    var i := 0;
    while i < |qs|
      invariant 0 <= i <= |qs|
      invariant gw.cancellations == before + DanglingCancels(qs[..i], active, localIds)
      invariant printed == Diagnostics(DanglingCancels(qs[..i], active, localIds))
    {
      var customer := qs[i];
      ghost var done := gw.cancellations;
      var lines := HandleCustomer(customer.stripeId.value, localIds, gw);
      printed := printed + lines;
      ghost var added := CustomerCancels(customer, active, localIds);
      assert gw.cancellations == done + added;
      NextCustomerCancels(qs, i, active, localIds);
      DiagnosticsAppend(DanglingCancels(qs[..i], active, localIds), added);
      ConcatAssoc(before, DanglingCancels(qs[..i], active, localIds), added);
      i := i + 1;
    }
    assert qs[..i] == qs;
    DanglingCancelsSkipUnlinked(db.customers, active, localIds);
  }

  /** `sync_subs.Command.handle`: the same permission sets as
      `sync_subs_group_perms`; the plans are untouched. */
  method SyncSubsHandle(db: Database)
    modifies db`groupPermissions
    ensures db.groupPermissions == SyncedPermissions(db.plans, old(db.groupPermissions))
    ensures db.plans == old(db.plans)
  {
    var qs := ActivePlans(db.plans);
    ghost var start := db.groupPermissions;
    var i := 0;
    while i < |qs|
      invariant 0 <= i <= |qs|
      invariant db.groupPermissions == ApplyAll(qs[..i], start)
    {
      var obj := qs[i];
      var subPerms := obj.permissions;
      var remaining := obj.groups;
      ghost var done: set<GroupId> := {};
      ghost var before := db.groupPermissions;
      while remaining != {}
        invariant done + remaining == obj.groups
        invariant db.groupPermissions == before + map g | g in done :: subPerms
        decreases remaining
      {
        var group :| group in remaining;
        db.groupPermissions := db.groupPermissions[group := subPerms];
        remaining := remaining - {group};
        done := done + {group};
      }
      NextPlanApplied(qs, i, start);
      i := i + 1;
    }
    assert qs[..i] == qs;
  }
}
