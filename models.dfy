/**
 * Record shapes of the service's API (request and response models) and the
 * field-length constraints that validate them when a request body or a
 * response object is built.
 */
module Models {

  datatype Option<+T> = None | Some(value: T)

  datatype Result<+T, +E> = Ok(value: T) | Err(error: E)

  type String = seq<char>

  /** Maximum lengths declared on the string fields. */
  const LoginMaxLength: nat := 50
  const NameMaxLength: nat := 50
  const DescriptionMaxLength: nat := 150

  /** A request body that failed validation names every offending field. */
  type FieldErrors = seq<String>

  datatype AuthSignInPostRequest = AuthSignInPostRequest(login: String, password: String)

  datatype AuthRegisterPostRequest = AuthRegisterPostRequest(login: String, password: String, name: String)

  datatype UserProfile = UserProfile(id: int, name: String, login: String, isAdmin: bool)

  datatype UserPublicProfile = UserPublicProfile(id: int, name: String)

  datatype OrganizationCreatePostRequest = OrganizationCreatePostRequest(name: String, description: String)

  datatype Organization = Organization(id: int, name: String, description: Option<String>)

  datatype UserRight = UserRight(name: String, canGrant: bool)

  /** One member of an organization with every right they hold there. */
  datatype OrganizationUser = OrganizationUser(user: UserPublicProfile, rights: seq<UserRight>)

  /** The field name, when the value is longer than allowed. */
  function TooLong(field: String, value: String, max: nat): FieldErrors
  {
    if |value| > max then [field] else []
  }

  predicate ValidUserProfile(p: UserProfile)
  {
    |p.name| <= NameMaxLength && |p.login| <= LoginMaxLength
  }

  predicate ValidUserPublicProfile(p: UserPublicProfile)
  {
    |p.name| <= NameMaxLength
  }

  predicate ValidOrganizationCreate(body: OrganizationCreatePostRequest)
  {
    |body.name| <= NameMaxLength && |body.description| <= DescriptionMaxLength
  }

  predicate ValidOrganization(o: Organization)
  {
    |o.name| <= NameMaxLength && (o.description.Some? ==> |o.description.value| <= DescriptionMaxLength)
  }

  predicate ValidOrganizationUser(u: OrganizationUser)
  {
    ValidUserPublicProfile(u.user)
  }

  /** Builds a sign-in request; only the login is bounded. */
  function ParseSignIn(login: String, password: String): (r: Result<AuthSignInPostRequest, FieldErrors>)
    ensures r.Ok? <==> |login| <= LoginMaxLength
    ensures r.Ok? ==> r.value.login == login && r.value.password == password
    ensures r.Err? ==> r.error == ["login"]
  {
    var errors := TooLong("login", login, LoginMaxLength);
    if errors == [] then Ok(AuthSignInPostRequest(login, password)) else Err(errors)
  }

  /** Builds a registration request; login and name are bounded, the password is not. */
  function ParseRegister(login: String, password: String, name: String): (r: Result<AuthRegisterPostRequest, FieldErrors>)
    ensures r.Ok? <==> |login| <= LoginMaxLength && |name| <= NameMaxLength
    ensures r.Ok? ==> r.value == AuthRegisterPostRequest(login, password, name)
    ensures r.Err? ==> ("login" in r.error <==> |login| > LoginMaxLength)
    ensures r.Err? ==> ("name" in r.error <==> |name| > NameMaxLength)
    ensures r.Err? ==> forall f :: f in r.error ==> f == "login" || f == "name"
  {
    var errors := TooLong("login", login, LoginMaxLength) + TooLong("name", name, NameMaxLength);
    if errors == [] then Ok(AuthRegisterPostRequest(login, password, name)) else Err(errors)
  }

  /** Builds an organization-creation request; the description is mandatory here. */
  function ParseOrganizationCreate(name: String, description: String): (r: Result<OrganizationCreatePostRequest, FieldErrors>)
    ensures r.Ok? <==> |name| <= NameMaxLength && |description| <= DescriptionMaxLength
    ensures r.Ok? ==> r.value == OrganizationCreatePostRequest(name, description) && ValidOrganizationCreate(r.value)
    ensures r.Err? ==> ("name" in r.error <==> |name| > NameMaxLength)
    ensures r.Err? ==> ("description" in r.error <==> |description| > DescriptionMaxLength)
    ensures r.Err? ==> forall f :: f in r.error ==> f == "name" || f == "description"
  {
    var errors := TooLong("name", name, NameMaxLength) + TooLong("description", description, DescriptionMaxLength);
    if errors == [] then Ok(OrganizationCreatePostRequest(name, description)) else Err(errors)
  }

  /** Builds a caller's full profile; name and login are bounded. */
  function ParseUserProfile(id: int, name: String, login: String, isAdmin: bool): (r: Result<UserProfile, FieldErrors>)
    ensures r.Ok? <==> |name| <= NameMaxLength && |login| <= LoginMaxLength
    ensures r.Ok? ==> r.value == UserProfile(id, name, login, isAdmin) && ValidUserProfile(r.value)
    ensures r.Err? ==> ("name" in r.error <==> |name| > NameMaxLength)
    ensures r.Err? ==> ("login" in r.error <==> |login| > LoginMaxLength)
    ensures r.Err? ==> forall f :: f in r.error ==> f == "name" || f == "login"
  {
    var errors := TooLong("name", name, NameMaxLength) + TooLong("login", login, LoginMaxLength);
    if errors == [] then Ok(UserProfile(id, name, login, isAdmin)) else Err(errors)
  }

  /** Builds a member's public profile; only the name is bounded. */
  function ParsePublicProfile(id: int, name: String): (r: Result<UserPublicProfile, FieldErrors>)
    ensures r.Ok? <==> |name| <= NameMaxLength
    ensures r.Ok? ==> r.value == UserPublicProfile(id, name) && ValidUserPublicProfile(r.value)
    ensures r.Err? ==> r.error == ["name"]
  {
    var errors := TooLong("name", name, NameMaxLength);
    if errors == [] then Ok(UserPublicProfile(id, name)) else Err(errors)
  }

  /** Builds an organization response; an absent description is always accepted. */
  function ParseOrganization(id: int, name: String, description: Option<String>): (r: Result<Organization, FieldErrors>)
    ensures r.Ok? <==> |name| <= NameMaxLength && (description.None? || |description.value| <= DescriptionMaxLength)
    ensures r.Ok? ==> r.value == Organization(id, name, description) && ValidOrganization(r.value)
    ensures r.Err? ==> ("name" in r.error <==> |name| > NameMaxLength)
    ensures r.Err? ==> ("description" in r.error <==> description.Some? && |description.value| > DescriptionMaxLength)
    ensures r.Err? ==> forall f :: f in r.error ==> f == "name" || f == "description"
  {
    var descriptionErrors := match description
      case None => []
      case Some(d) => TooLong("description", d, DescriptionMaxLength);
    var errors := TooLong("name", name, NameMaxLength) + descriptionErrors;
    if errors == [] then Ok(Organization(id, name, description)) else Err(errors)
  }
}
