# Organization membership and authorization model

This project models the authorization and membership layer of a multi-tenant
account service (a FastAPI backend). Users create organizations and hold
permission grants in them. Grants are additive rows (user, organization,
permission). A caller may act on an organization when one of their rows there
carries a permission of level 4 or more (the code gives this level no name). Organizations carry bot
credentials that only such callers may add or list.

The model has five modules:

- `Models` (`models.dfy`): the request and response records of
  `backend/models.py` as datatypes, with their `max_length` bounds as
  validating constructors (`Parse…`). Each returns the record or the list of
  fields that are too long.
- `Dedup` (`dedup.dfy`): deduplication by an integer key, keeping the first
  occurrence of each key in first-seen order. `FirstOccurrences` is the
  reference definition. Lemmas prove it keeps every key exactly once, in
  first-seen order, and that applying it twice changes nothing. `IndexOf` is
  the list lookup `ids.index(...)`.
- `Membership` (`membership.dfy`): grant rows (`Binding`) and the two merge
  loops of `backend/main.py`. `GetUniqOrgs` and `GetUniqUsers` are methods
  with loops and invariants, proved against `FirstOccurrences` and
  `MergedUsers`. Lemmas prove the properties of those reference functions.
- `Authorization` (`authorization.dfy`): the level check that three handlers
  repeat, as a count of granting rows (`CountGranting`,
  `HasRequiredPermission`). Their contracts give its exists-characterization.
  Lemmas give its monotonicity in the threshold and its behaviour when rows
  are added.
- `Registry` (`registry.dfy`): the store as a class `Store` whose fields are
  the persisted organizations, grant rows and bots. The handlers are methods
  that change those fields. Each error result is an `Error` value. Its
  `Reason()` is the exact text the handler returns: "conflict",
  "conflict when adding owner", "Don't have required permissions" and
  "Invalid token".

External decisions are parameters:
- `orgInsert` / `botInsert` is the id the store assigns, or `None` when the
  commit fails.
- `ownerInsertOk` says whether the owner grant's commit succeeds.
- `tokenAccepted` stands for the messaging API's `getMe` call answering 200.

The store also rejects an insert whose assigned id is already taken (a
primary-key conflict). This keeps the invariant `Store.Valid()`:
- ids are unique;
- stored organizations meet their field bounds;
- grant rows and bots refer to stored organizations.

The owner permission is passed in with the name "owner". Its level comes from
the permission catalog, which is not part of this model, so the model never
assumes that level is at least 4. `OrganizationCreate` states what follows
when it is.

Two behaviours of the code that are easy to miss:
- The member list does NOT deduplicate rights. A user with two identical
  grant rows gets that right twice (`backend/main.py:46`).
  `Membership.DuplicateGrantKept` proves this on a two-row example.
  `Membership.MergedUsersTotalRights` proves that the rights across all
  entries number exactly the input rows.
- Creating an organization commits the organization and the owner grant
  separately. If only the grant fails, the organization stays persisted
  with no grant row at all, and "conflict when adding owner" is returned
  (`backend/main.py:164-168`). `Registry.Store.OrganizationCreate` states
  this outcome.

## Model

| member | source | states |
|---|---|---|
| `Models.ParseSignIn` | backend/models.py:18-20 | a sign-in request is accepted iff the login has at most 50 characters; the fields are kept as given; otherwise the error names the login |
| `Models.ParseRegister` | backend/models.py:23-26 | a registration request is accepted iff login and name each have at most 50 characters; the password is unbounded; each over-long field is named in the error, and only those |
| `Models.ParseUserProfile` | backend/models.py:29-33 | a caller's profile is accepted iff name and login each have at most 50 characters; the admin flag is kept; each over-long field is named in the error, and only those |
| `Models.ParsePublicProfile` | backend/models.py:36-38 | a public profile (id, name) is accepted iff the name has at most 50 characters |
| `Models.ParseOrganizationCreate` | backend/models.py:45-47 | an organization-creation request is accepted iff name has at most 50 and description at most 150 characters; over-long fields are named exactly |
| `Models.ParseOrganization` | backend/models.py:50-53 | an organization is accepted iff its name has at most 50 characters and its description is absent or at most 150 characters; the result satisfies `ValidOrganization`; the error names each over-long field and no other |
| `Dedup.FirstOccurrencesKeys` | backend/main.py:30-38 | deduplication keeps exactly the set of keys of its input: a key is in the output iff it is in the input |
| `Dedup.FirstOccurrencesAppend` | backend/main.py:33-37 | one loop step: a new element is kept iff its key is not among the keys already kept |
| `Dedup.FirstOccurrencesDistinct` | backend/main.py:30-38 | no two elements of the output share a key |
| `Dedup.FirstOccurrencesOfDistinct` | backend/main.py:30-38 | an input without repeated keys comes back unchanged |
| `Dedup.FirstOccurrencesIdempotent` | backend/main.py:30-38 | deduplicating an output again changes nothing |
| `Dedup.FirstOccurrencesPositions` | backend/main.py:33-37 | the output is the input's subsequence of first occurrences: taken from strictly increasing positions, each the first of its key, and every first occurrence is taken |
| `Dedup.IndexOf` | backend/main.py:46 | the list lookup returns the first position holding the key |
| `Membership.GetUniqOrgs` | backend/main.py:30-38 | the loop returns the first-occurrence subsequence of the organizations by id; ids are distinct and are exactly the input's ids |
| `Membership.MergedUsersAppendKnown` | backend/main.py:45-46 | a row of an already-listed user appends its right to that user's entry only; the entry order does not change |
| `Membership.MergedUsersAppendNew` | backend/main.py:47-51 | a row of a new user appends one entry with that row's profile and exactly its one right |
| `Membership.MergedUsersTotalRights` | backend/main.py:44-51 | rights across all entries number exactly the input rows: none dropped, none merged |
| `Membership.MergedUsersOnePerUser` | backend/main.py:41-52 | one entry per distinct user id of the rows, no user twice, in order of each user's first row, with that first row's profile |
| `Membership.MergedUsersProfiles` | backend/main.py:49-51 | every entry's profile is the profile of one of the input rows |
| `Membership.MergedUsersValid` | backend/main.py:49-51 | when every row's profile meets the name bound, every merged entry is a valid `OrganizationUser` record |
| `Membership.DuplicateGrantKept` | backend/main.py:45-46 | two identical grant rows give one entry whose rights list holds that right twice |
| `Membership.GetUniqUsers` | backend/main.py:41-52 | the loop (with in-place append to an entry's rights) returns `MergedUsers` of its rows, whose rights total the number of rows |
| `Authorization.CountGranting` | backend/main.py:200-201 | the count of the caller's rows in the organization at or above the level never exceeds the rows, and is zero iff no row of that user in that organization reaches the level |
| `Authorization.HasRequiredPermission` | backend/main.py:224-225 | the caller passes iff some row of that user in that organization has a permission level at or above the threshold (the same check at main.py:200-201 and 254-255) |
| `Authorization.PermissionMonotone` | backend/main.py:224-225 | for fixed rows, raising the threshold can only turn allow into deny |
| `Authorization.GrantAllows` | backend/main.py:200-201 | any grant row in the ledger lets its holder pass the check in its organization at its permission's level |
| `Authorization.UnrelatedGrantsIrrelevant` | backend/main.py:254-255 | adding rows none of which grants this user this level in this organization (other users, other organizations, lower levels) leaves the decision unchanged |
| `Registry.ReasonIdentifiesError` | backend/main.py:157-230 | `Error.Reason` gives each failure the text its handler returns, and the four texts ("conflict", "conflict when adding owner", "Don't have required permissions", "Invalid token") are pairwise distinct, so each error response names exactly one failure |
| `Registry.RowsOf` | backend/main.py:204 | the query for an organization's grant rows returns exactly the stored rows of that organization, each as many times as it is stored (identical grant rows are not merged) |
| `Registry.BotsOf` | backend/main.py:258 | the query for an organization's bots returns exactly the stored bots of that organization, each as many times as it is stored |
| `Registry.OrganizationsOf` | backend/main.py:184 | the caller's binding organizations are exactly the organizations of the caller's rows |
| `Registry.Store.OrganizationCreate` | backend/main.py:147-169 | a failed organization insert returns "conflict" and changes nothing. Otherwise the organization (validated fields, description present) is persisted. If the owner grant succeeds, the creator holds an "owner" row and passes the check at the owner's level (and at level 4 when the owner level is at least 4); the validated organization is returned. If the grant fails, "conflict when adding owner" is returned, the organization stays, and no row refers to it |
| `Registry.Store.AddOrganizationBot` | backend/main.py:219-238 | the checks run in order: permission first ("Don't have required permissions"), then token ("Invalid token"), then the store insert ("conflict"); each failure persists nothing. Only after all pass is a bot for that organization appended and its id returned; organizations and grants never change |
| `Registry.Store.GetOrganizationBots` | backend/main.py:250-259 | a caller below level 4 in the organization gets the permission error; otherwise the organization's bots as the store query returns them: exactly the stored bots of that organization, none repeated or dropped |
| `Registry.Store.GetOrganizationUsers` | backend/main.py:196-205 | a caller below level 4 gets the permission error; otherwise the merged member list of the organization's rows: one entry per user, rights totalling the rows, and the caller among the entries |
| `Registry.Store.GetUserOrganizations` | backend/main.py:180-184 | the caller's organizations deduplicated by id in first-seen order; an id is listed iff the caller holds some row in that organization |

## Left out

- HTTP wiring: the FastAPI app, router, CORS middleware and response status codes (`backend/main.py:55-71`, `262`). The model keeps the error reasons, not the codes.
- `Registry.Store.AddOrganizationBot`: the "Invalid token" path sets no status code in the source; with status codes out of scope this is not represented.
- Registration, sign-in, profile and ping handlers (`backend/main.py:74-133`). They are identity-store plumbing around password hashing (passlib/bcrypt) and token issuing (`tools.auth`, which is not part of this model). Only their record shapes are modelled: the requests (`ParseSignIn`, `ParseRegister`) and the `UserProfile` response of registration and profile (`ParseUserProfile`, `backend/main.py:123`, `133`).
- Resolving the caller from the bearer token: each handler takes the caller's id or profile as a parameter.
- The messaging API `getMe` request (network I/O): the `tokenAccepted` parameter. The request (`backend/main.py:228`) has no timeout, and a connection error raises out of the handler unhandled; no outcome of `AddOrganizationBot` stands for that case.
- Store internals (SQLAlchemy sessions, commits, rollbacks): insert outcomes are the parameters `orgInsert`, `ownerInsertOk` and `botInsert`. Which conflicts the store raises beyond duplicate ids (unique names, foreign keys) is left to those parameters.
- The permission catalog (`database.models`, not part of this model): a grant row carries its permission already joined. So the inner join with the catalog drops no row, and the owner level is a parameter.
- Database query order: the queries for rows and bots return them in store order. `Registry.RowsOf` and `Registry.BotsOf` keep that order, so `Registry.Store.GetOrganizationBots` returns the bots in store order. The store order itself is whatever the database returns; it is not modelled further.
- Response-side revalidation in the merges: `GetUniqOrgs` and `GetUniqUsers` copy fields without re-running the length checks. `MergedUsersProfiles` and `Store.Valid()` say where the copied values come from.
- The `Bot`, `AddBotPostRequest`, `AddBotPostResponse` and `ListBotGetResponse` response models are not defined in `backend/models.py`, although `backend/main.py:14` imports them. A bot is modelled with the stored columns (bot id, organization id, token).
- Concurrency: each handler is one sequential state transition. Simultaneous creates with the same name are not modelled.
- The in-place mutation of a shared `OrganizationUser` object in `get_uniq_users` becomes a functional update of one entry of a sequence. No aliasing is possible there, because each entry is created inside the loop.
- Frontend (`frontend/src/logic/api.js`, `frontend/src/router.js`) and worker (`worker/utils.py`) code: HTTP client, routing table and task cleanup I/O.
