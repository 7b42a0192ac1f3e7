/**
 * The organization-scoped request handlers as state transitions of the
 * persistent store: creating an organization (with its owner grant),
 * attaching a bot to an organization, and the three gated or per-user reads.
 * Whether the store accepts an insert, and whether the messaging API accepts
 * a bot token, are decided outside the model and given as parameters.
 */
module Registry {
  import opened Models
  import opened Dedup
  import opened Membership
  import opened Authorization

  /** A bot credential attached to an organization. */
  datatype Bot = Bot(botId: int, organizationId: int, token: String)

  function BotId(b: Bot): int { b.botId }

  /** The failures a handler reports, one per distinct reason. */
  datatype Error = Conflict | OwnerConflict | Forbidden | InvalidToken
  {
    /** The reason text the handler puts in its error response. */
    function Reason(): String
    {
      match this
      case Conflict => "conflict"
      case OwnerConflict => "conflict when adding owner"
      case Forbidden => "Don't have required permissions"
      case InvalidToken => "Invalid token"
    }
  }

  /** A client can tell every failure apart by its reason text alone. */
  lemma ReasonIdentifiesError(e1: Error, e2: Error)
    ensures e1.Reason() == e2.Reason() <==> e1 == e2
  {
  }

  /** The bots attached to organization oid, in store order. */
  function BotsOf(bots: seq<Bot>, oid: int): (r: seq<Bot>)
    ensures |r| <= |bots|
    ensures forall b :: b in r <==> b in bots && b.organizationId == oid
    ensures forall b :: multiset(r)[b] == if b.organizationId == oid then multiset(bots)[b] else 0
  {
    if bots == [] then []
    else
      var last := bots[|bots| - 1];
      assert bots == bots[..|bots| - 1] + [last];
      BotsOf(bots[..|bots| - 1], oid) + (if last.organizationId == oid then [last] else [])
  }

  /** The grant rows of organization oid, in store order. */
  function RowsOf(bindings: seq<Binding>, oid: int): (r: seq<Binding>)
    ensures |r| <= |bindings|
    ensures forall b :: b in r <==> b in bindings && b.organization.id == oid
    ensures forall b :: multiset(r)[b] == if b.organization.id == oid then multiset(bindings)[b] else 0
  {
    if bindings == [] then []
    else
      var last := bindings[|bindings| - 1];
      assert bindings == bindings[..|bindings| - 1] + [last];
      RowsOf(bindings[..|bindings| - 1], oid) + (if last.organization.id == oid then [last] else [])
  }

  /** The organization of each of user uid's grant rows, repeats included. */
  function OrganizationsOf(bindings: seq<Binding>, uid: int): (r: seq<Organization>)
    ensures |r| <= |bindings|
    ensures forall o :: o in r <==> exists b :: b in bindings && b.user.id == uid && b.organization == o
  {
    if bindings == [] then []
    else
      var last := bindings[|bindings| - 1];
      var p := bindings[..|bindings| - 1];
      assert forall b :: b in bindings <==> b in p || b == last;
      OrganizationsOf(p, uid) + (if last.user.id == uid then [last.organization] else [])
  }

  /** The persistent store: organizations, the membership ledger and the bots. */
  class Store {
    var organizations: seq<Organization>
    var bindings: seq<Binding>
    var bots: seq<Bot>

    /**
     * Primary keys are unique, stored organizations satisfy their field
     * bounds, and grant rows and bots refer to stored organizations.
     */
    ghost predicate Valid()
      reads this
    {
      && DistinctKeys(organizations, OrganizationId)
      && (forall o :: o in organizations ==> ValidOrganization(o))
      && (forall b :: b in bindings ==> b.organization in organizations)
      && DistinctKeys(bots, BotId)
      && (forall bot :: bot in bots ==> bot.organizationId in KeysOf(organizations, OrganizationId))
    }

    constructor ()
      ensures Valid()
      ensures organizations == [] && bindings == [] && bots == []
    {
      organizations := [];
      bindings := [];
      bots := [];
    }

    /**
     * Creates an organization from a validated request, then grants its
     * creator the "owner" permission. orgInsert is the id the store assigns,
     * or None when it rejects the insert; ownerInsertOk says whether it
     * accepts the grant row. The two inserts are committed separately.
     */
    method OrganizationCreate(currentUser: UserPublicProfile, body: OrganizationCreatePostRequest, owner: Permission,
                              orgInsert: Option<int>, ownerInsertOk: bool) returns (r: Result<Organization, Error>)
      requires Valid()
      requires ValidOrganizationCreate(body)
      requires owner.name == "owner"
      modifies this
      ensures Valid()
      ensures bots == old(bots)
      ensures orgInsert.None? || orgInsert.value in KeysOf(old(organizations), OrganizationId) ==>
                r == Err(Conflict) && organizations == old(organizations) && bindings == old(bindings)
      ensures orgInsert.Some? && orgInsert.value !in KeysOf(old(organizations), OrganizationId) ==>
                var org := Organization(orgInsert.value, body.name, Some(body.description));
                && organizations == old(organizations) + [org]
                && (ownerInsertOk ==>
                      && r == Ok(org)
                      && bindings == old(bindings) + [Binding(currentUser, org, owner)]
                      && HasRequiredPermission(bindings, currentUser.id, org.id, owner.level)
                      && (owner.level >= RequiredLevel ==> HasRequiredPermission(bindings, currentUser.id, org.id, RequiredLevel)))
                && (!ownerInsertOk ==>
                      && r == Err(OwnerConflict)
                      && bindings == old(bindings)
                      && forall b :: b in bindings ==> b.organization.id != org.id)
    {
      if orgInsert.None? || orgInsert.value in KeysOf(organizations, OrganizationId) {
        return Err(Conflict);
      }
      var org := Organization(orgInsert.value, body.name, Some(body.description));
      forall a | 0 <= a < |organizations| ensures organizations[a].id != org.id {
        assert KeysOf(organizations, OrganizationId)[a] == organizations[a].id;
      }
      organizations := organizations + [org];
      if !ownerInsertOk {
        forall b | b in bindings ensures b.organization.id != org.id {
          var a :| 0 <= a < |old(organizations)| && old(organizations)[a] == b.organization;
        }
        forall bot | bot in bots ensures bot.organizationId in KeysOf(organizations, OrganizationId) {
          var a :| 0 <= a < |old(organizations)| && KeysOf(old(organizations), OrganizationId)[a] == bot.organizationId;
          assert KeysOf(organizations, OrganizationId)[a] == bot.organizationId;
        }
        return Err(OwnerConflict);
      }
      var grant := Binding(currentUser, org, owner);
      bindings := bindings + [grant];
      GrantAllows(bindings, |bindings| - 1);
      if owner.level >= RequiredLevel {
        PermissionMonotone(bindings, currentUser.id, org.id, RequiredLevel, owner.level);
      }
      forall bot | bot in bots ensures bot.organizationId in KeysOf(organizations, OrganizationId) {
        var a :| 0 <= a < |old(organizations)| && KeysOf(old(organizations), OrganizationId)[a] == bot.organizationId;
        assert KeysOf(organizations, OrganizationId)[a] == bot.organizationId;
      }
      var response := ParseOrganization(org.id, org.name, org.description);
      r := Ok(response.value);
    }

    /**
     * Attaches a bot to an organization: the caller must hold the required
     * level there, then the messaging API must accept the token
     * (tokenAccepted), then the store must accept the row under the id it
     * assigns (botInsert).
     */
    method AddOrganizationBot(currentUserId: int, organizationId: int, token: String,
                              tokenAccepted: bool, botInsert: Option<int>) returns (r: Result<int, Error>)
      requires Valid()
      modifies this
      ensures Valid()
      ensures organizations == old(organizations) && bindings == old(bindings)
      ensures !HasRequiredPermission(bindings, currentUserId, organizationId, RequiredLevel) ==>
                r == Err(Forbidden) && bots == old(bots)
      ensures HasRequiredPermission(bindings, currentUserId, organizationId, RequiredLevel) && !tokenAccepted ==>
                r == Err(InvalidToken) && bots == old(bots)
      ensures HasRequiredPermission(bindings, currentUserId, organizationId, RequiredLevel) && tokenAccepted ==>
                if botInsert.Some? && botInsert.value !in KeysOf(old(bots), BotId)
                then r == Ok(botInsert.value) && bots == old(bots) + [Bot(botInsert.value, organizationId, token)]
                else r == Err(Conflict) && bots == old(bots)
      ensures r.Ok? ==> organizationId in KeysOf(organizations, OrganizationId)
    {
      if !HasRequiredPermission(bindings, currentUserId, organizationId, RequiredLevel) {
        return Err(Forbidden);
      }
      if !tokenAccepted {
        return Err(InvalidToken);
      }
      if botInsert.None? || botInsert.value in KeysOf(bots, BotId) {
        return Err(Conflict);
      }
      var k :| 0 <= k < |bindings| && Grants(bindings[k], currentUserId, organizationId, RequiredLevel);
      var a :| 0 <= a < |organizations| && organizations[a] == bindings[k].organization;
      assert KeysOf(organizations, OrganizationId)[a] == organizationId;
      var bot := Bot(botInsert.value, organizationId, token);
      forall j | 0 <= j < |bots| ensures bots[j].botId != bot.botId {
        assert KeysOf(bots, BotId)[j] == bots[j].botId;
      }
      bots := bots + [bot];
      r := Ok(bot.botId);
    }

    /** Lists an organization's bots to a caller holding the required level there. */
    method GetOrganizationBots(currentUserId: int, organizationId: int) returns (r: Result<seq<Bot>, Error>)
      ensures !HasRequiredPermission(bindings, currentUserId, organizationId, RequiredLevel) ==> r == Err(Forbidden)
      ensures HasRequiredPermission(bindings, currentUserId, organizationId, RequiredLevel) ==>
                && r == Ok(BotsOf(bots, organizationId))
                && (forall b :: b in r.value <==> b in bots && b.organizationId == organizationId)
                && (forall b :: multiset(r.value)[b] == if b.organizationId == organizationId then multiset(bots)[b] else 0)
    {
      if !HasRequiredPermission(bindings, currentUserId, organizationId, RequiredLevel) {
        return Err(Forbidden);
      }
      r := Ok(BotsOf(bots, organizationId));
    }

    /**
     * Lists an organization's members, each once with all their rights, to a
     * caller holding the required level there; the caller is among them.
     */
    method GetOrganizationUsers(currentUserId: int, organizationId: int) returns (r: Result<seq<OrganizationUser>, Error>)
      ensures !HasRequiredPermission(bindings, currentUserId, organizationId, RequiredLevel) ==> r == Err(Forbidden)
      ensures HasRequiredPermission(bindings, currentUserId, organizationId, RequiredLevel) ==>
                && r == Ok(MergedUsers(RowsOf(bindings, organizationId)))
                && TotalRights(r.value) == |RowsOf(bindings, organizationId)|
                && DistinctKeys(r.value, MemberId)
                && currentUserId in KeysOf(r.value, MemberId)
    {
      if !HasRequiredPermission(bindings, currentUserId, organizationId, RequiredLevel) {
        return Err(Forbidden);
      }
      var rows := RowsOf(bindings, organizationId);
      var users := GetUniqUsers(rows);
      var k :| 0 <= k < |bindings| && Grants(bindings[k], currentUserId, organizationId, RequiredLevel);
      var j :| 0 <= j < |rows| && rows[j] == bindings[k];
      assert KeysOf(rows, BindingUserId)[j] == currentUserId;
      MergedUsersOnePerUser(rows);
      r := Ok(users);
    }

    /** Lists the organizations the caller holds any grant in, each once, in first-seen order. */
    method GetUserOrganizations(currentUserId: int) returns (orgs: seq<Organization>)
      ensures orgs == FirstOccurrences(OrganizationsOf(bindings, currentUserId), OrganizationId)
      ensures DistinctKeys(orgs, OrganizationId)
      ensures forall id :: id in KeysOf(orgs, OrganizationId) <==>
                exists b :: b in bindings && b.user.id == currentUserId && b.organization.id == id
    {
      var mine := OrganizationsOf(bindings, currentUserId);
      orgs := GetUniqOrgs(mine);
      forall id ensures id in KeysOf(mine, OrganizationId) <==>
                        exists b :: b in bindings && b.user.id == currentUserId && b.organization.id == id
      {
        if id in KeysOf(mine, OrganizationId) {
          var a :| 0 <= a < |mine| && KeysOf(mine, OrganizationId)[a] == id;
          assert mine[a] in mine;
        }
        if exists b :: b in bindings && b.user.id == currentUserId && b.organization.id == id {
          var b :| b in bindings && b.user.id == currentUserId && b.organization.id == id;
          assert b.organization in mine;
          var a :| 0 <= a < |mine| && mine[a] == b.organization;
          assert KeysOf(mine, OrganizationId)[a] == id;
        }
      }
    }
  }
}
