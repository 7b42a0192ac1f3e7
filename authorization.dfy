/**
 * The single authorization rule of the service: a caller may act on an
 * organization when at least one of their grant rows in that organization
 * carries a permission whose level reaches the required level.
 */
module Authorization {
  import opened Membership

  /** The permission level every organization-scoped operation requires; the code gives it no name. */
  const RequiredLevel: int := 4

  /** The row lets user uid act in organization oid at level minLevel. */
  predicate Grants(b: Binding, uid: int, oid: int, minLevel: int)
  {
    b.user.id == uid && b.organization.id == oid && b.permission.level >= minLevel
  }

  /**
   * Number of the ledger's rows that let uid act in oid at minLevel: the
   * filtered count of the source. It is zero exactly when no row grants.
   */
  function CountGranting(bindings: seq<Binding>, uid: int, oid: int, minLevel: int): (n: nat)
    ensures n <= |bindings|
    ensures n == 0 <==> forall k :: 0 <= k < |bindings| ==> !Grants(bindings[k], uid, oid, minLevel)
  {
    if bindings == [] then 0
    else
      var p := bindings[..|bindings| - 1];
      var last := bindings[|bindings| - 1];
      assert forall k :: 0 <= k < |p| ==> p[k] == bindings[k];
      CountGranting(p, uid, oid, minLevel) + (if Grants(last, uid, oid, minLevel) then 1 else 0)
  }

  /** Allowed exactly when some row of the caller in the organization reaches the level. */
  predicate HasRequiredPermission(bindings: seq<Binding>, uid: int, oid: int, minLevel: int): (allowed: bool)
    ensures allowed <==> exists k :: 0 <= k < |bindings| && Grants(bindings[k], uid, oid, minLevel)
  {
    CountGranting(bindings, uid, oid, minLevel) != 0
  }

  /** Raising the required level can only turn an allow into a deny, never the reverse. */
  lemma PermissionMonotone(bindings: seq<Binding>, uid: int, oid: int, lower: int, higher: int)
    requires lower <= higher
    ensures HasRequiredPermission(bindings, uid, oid, higher) ==> HasRequiredPermission(bindings, uid, oid, lower)
  {
  }

  /** Any grant row in the ledger lets its holder act in its organization at its own level. */
  lemma GrantAllows(bindings: seq<Binding>, k: nat)
    requires k < |bindings|
    ensures HasRequiredPermission(bindings, bindings[k].user.id, bindings[k].organization.id, bindings[k].permission.level)
  {
  }

  /**
   * Rows that do not grant this caller this level in this organization (other
   * users, other organizations, lower levels) do not change the decision.
   */
  lemma UnrelatedGrantsIrrelevant(bindings: seq<Binding>, extra: seq<Binding>, uid: int, oid: int, minLevel: int)
    requires forall b :: b in extra ==> !Grants(b, uid, oid, minLevel)
    ensures HasRequiredPermission(bindings + extra, uid, oid, minLevel) == HasRequiredPermission(bindings, uid, oid, minLevel)
  {
    var t := bindings + extra;
    if HasRequiredPermission(t, uid, oid, minLevel) {
      var k :| 0 <= k < |t| && Grants(t[k], uid, oid, minLevel);
      assert Grants(bindings[k], uid, oid, minLevel);
    }
    if HasRequiredPermission(bindings, uid, oid, minLevel) {
      var k :| 0 <= k < |bindings| && Grants(bindings[k], uid, oid, minLevel);
      assert Grants(t[k], uid, oid, minLevel);
    }
  }
}
