/**
 The plan catalogue of `subscriptions/models.py`: the closed list of custom
 permissions a plan may grant, and the `Subscriptions` record (a plan) with
 its field defaults and the restriction on which permissions it may carry.
 */
module Models {

  datatype Option<T> = None | Some(value: T)

  /** Primary key of an authentication `Group`. */
  type GroupId = nat

  /** An authentication `Permission`, identified by the application label of
      its content type and its codename. */
  datatype Permission = Permission(appLabel: string, codename: string)

  /** `SUBSCRIPTIONS_PERMS`: (codename, human-readable name) pairs; also the
      model's declared custom permissions (`Meta.permissions`). */
  const SubscriptionsPerms: seq<(string, string)> :=
    [ ("advanced", "Advanced perm"),
      ("pro", "Pro perm"),
      ("basic", "Basic perm"),
      ("basic_ai", "Basic AI perm") ]

  /** The application label the permission choices are restricted to. */
  const PermissionAppLabel: string := "subscriptions"

  /** `max_length` of the plan's `name` field. */
  const NameMaxLength: nat := 120

  /** The codenames of `SUBSCRIPTIONS_PERMS` (its first components), the
      `codename__in` list of `limit_choices_to`. */
  function PermissionCodenames(): (r: set<string>)
    ensures r == {"advanced", "pro", "basic", "basic_ai"}
  {
    var r := set i | 0 <= i < |SubscriptionsPerms| :: SubscriptionsPerms[i].0;
    assert SubscriptionsPerms[0].0 in r && SubscriptionsPerms[1].0 in r;
    assert SubscriptionsPerms[2].0 in r && SubscriptionsPerms[3].0 in r;
    r
  }

  /** The declared custom permissions are four entries with pairwise
      distinct codenames. */
  lemma DeclaredPermissionsDistinct()
    ensures |SubscriptionsPerms| == 4
    ensures forall i, j :: 0 <= i < j < |SubscriptionsPerms| ==>
      SubscriptionsPerms[i].0 != SubscriptionsPerms[j].0
  {
  }

  /** A permission `limit_choices_to` lets a plan carry. */
  predicate AllowedPermission(p: Permission)
  {
    p.appLabel == PermissionAppLabel && p.codename in PermissionCodenames()
  }

  /** A `Subscriptions` row. The two many-to-many relations are sets: a
      relation holds each related row at most once. */
  datatype Plan = Plan(
    name: string,
    active: bool,
    groups: set<GroupId>,
    permissions: set<Permission>)

  /** What the field definitions admit: a name of at most 120 characters
      (possibly empty, `blank=True`) and only allowed permissions. */
  predicate ValidPlan(p: Plan): (r: bool)
    ensures r <==> |p.name| <= 120 && forall perm :: perm in p.permissions ==>
      perm.appLabel == "subscriptions" && perm.codename in {"advanced", "pro", "basic", "basic_ai"}
  {
    |p.name| <= NameMaxLength
    && forall perm :: perm in p.permissions ==> AllowedPermission(perm)
  }

  /** A plan created with only a name: the defaults apply, so it is active
      and has no groups and no permissions yet. */
  function NewPlan(name: string): (p: Plan)
    ensures p.active
    ensures p.groups == {} && p.permissions == {}
    ensures ValidPlan(p) <==> |name| <= NameMaxLength
  {
    Plan(name, true, {}, {})
  }

  /** `Subscriptions.__str__`. */
  function Str(p: Plan): string
  {
    p.name
  }

  /** The string form of a plan is the name it was created with, unchanged,
      and two plans print alike exactly when their names are equal. */
  lemma StrIsName(name: string, p: Plan, q: Plan)
    ensures Str(NewPlan(name)) == name
    ensures Str(p) == Str(q) <==> p.name == q.name
  {
  }

  /** A customer row (`customers.models.Customer`); only its payment-provider
      id matters here, and it may be null. */
  datatype Customer = Customer(userId: nat, stripeId: Option<string>)
}
