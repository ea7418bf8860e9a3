/** The role gate in front of every handler, read off the three route tables.
    A route is public (no middleware), signed-in (`authenticate` only), or
    role-restricted (`authenticate` followed by `authorize([...])`).
    `authenticate` turns a valid bearer token into its claims and refuses a
    request without one; `authorize` admits the claims' role only when it is in
    the route's list. */
module Policy {
  import opened Base

  /** Every operation the server exposes, one per route. */
  datatype Operation =
    | ContentStats | ContentChart | ContentActivity
    | CreateContent(kind: Kind) | ListContent(kind: Kind) | ReadContent(kind: Kind)
    | UpdateContent(kind: Kind) | DeleteContent(kind: Kind)
    | RegisterUser | LoginUser | ReadSelf | ListUsers | ChangeUserRole | RemoveUser
    | UploadMedia | ListMedia | RemoveMedia | CheckMediaUsage

  /** The middleware a route runs before its handler. */
  datatype Guard =
    | Public
    | SignedIn
    | RolesIn(roles: set<Role>)

  /** The route tables. The three content kinds are wired identically. */
  function GuardOf(op: Operation): Guard {
    match op
    // content routes
    case ContentStats => SignedIn
    case ContentChart => SignedIn
    case ContentActivity => SignedIn
    case CreateContent(_) => RolesIn({ADMIN, EDITOR, AUTHOR})
    case ListContent(_) => Public
    case ReadContent(_) => Public
    case UpdateContent(_) => RolesIn({ADMIN, EDITOR})
    case DeleteContent(_) => RolesIn({ADMIN})
    // user routes
    case RegisterUser => Public
    case LoginUser => Public
    case ReadSelf => SignedIn
    case ListUsers => RolesIn({ADMIN})
    case ChangeUserRole => RolesIn({ADMIN})
    case RemoveUser => RolesIn({ADMIN})
    // media routes
    case UploadMedia => SignedIn
    case ListMedia => Public
    case RemoveMedia => RolesIn({ADMIN})
    case CheckMediaUsage => SignedIn
  }

  datatype Decision = Permit | Unauthenticated | Forbidden

  /** The verdict of the guard for a caller whose token yielded `caller`
      (None when the request carries no valid token). Authentication is
      checked before the role. */
  function Decide(caller: Option<Claims>, op: Operation): Decision {
    match GuardOf(op)
    case Public => Permit
    case SignedIn => if caller.None? then Unauthenticated else Permit
    case RolesIn(roles) =>
      if caller.None? then Unauthenticated
      else if caller.value.role in roles then Permit
      else Forbidden
  }

  predicate HasRole(caller: Option<Claims>, roles: set<Role>) {
    caller.Some? && caller.value.role in roles
  }

  // ---------------------------------------------------------------------------
  // Content

  lemma CreateContentAdmits(caller: Option<Claims>, k: Kind)
    ensures Decide(caller, CreateContent(k)) == Permit <==> HasRole(caller, {ADMIN, EDITOR, AUTHOR})
    ensures caller.Some? && caller.value.role == USER ==> Decide(caller, CreateContent(k)) == Forbidden
  {
  }

  lemma UpdateContentAdmits(caller: Option<Claims>, k: Kind)
    ensures Decide(caller, UpdateContent(k)) == Permit <==> HasRole(caller, {ADMIN, EDITOR})
    ensures HasRole(caller, {AUTHOR, USER}) ==> Decide(caller, UpdateContent(k)) == Forbidden
  {
  }

  lemma DeleteContentAdmits(caller: Option<Claims>, k: Kind)
    ensures Decide(caller, DeleteContent(k)) == Permit <==> HasRole(caller, {ADMIN})
  {
  }

  /** Listing and reading content never consult the token. */
  lemma ContentReadsArePublic(caller: Option<Claims>, k: Kind)
    ensures Decide(caller, ListContent(k)) == Permit
    ensures Decide(caller, ReadContent(k)) == Permit
  {
  }

  /** Stats, chart and activity need a token and then admit every role. */
  lemma DashboardViewsNeedOnlyAToken(caller: Option<Claims>)
    ensures Decide(caller, ContentStats) == Permit <==> caller.Some?
    ensures Decide(caller, ContentChart) == Permit <==> caller.Some?
    ensures Decide(caller, ContentActivity) == Permit <==> caller.Some?
  {
  }

  /** Posts, projects and stories share one permit table. */
  lemma SameTableForEveryKind(caller: Option<Claims>, k1: Kind, k2: Kind)
    ensures Decide(caller, CreateContent(k1)) == Decide(caller, CreateContent(k2))
    ensures Decide(caller, ListContent(k1)) == Decide(caller, ListContent(k2))
    ensures Decide(caller, ReadContent(k1)) == Decide(caller, ReadContent(k2))
    ensures Decide(caller, UpdateContent(k1)) == Decide(caller, UpdateContent(k2))
    ensures Decide(caller, DeleteContent(k1)) == Decide(caller, DeleteContent(k2))
  {
  }

  /** Whoever may delete may update, and whoever may update may create. */
  lemma ContentPermissionsNest(caller: Option<Claims>, k: Kind)
    ensures Decide(caller, DeleteContent(k)) == Permit ==> Decide(caller, UpdateContent(k)) == Permit
    ensures Decide(caller, UpdateContent(k)) == Permit ==> Decide(caller, CreateContent(k)) == Permit
  {
  }

  /** The verdict depends on the role alone: not on the user's id, hence not on
      who wrote the item an update or delete targets. */
  lemma VerdictDependsOnlyOnRole(c1: Claims, c2: Claims, op: Operation)
    requires c1.role == c2.role
    ensures Decide(Some(c1), op) == Decide(Some(c2), op)
  {
  }

  /** A plain USER can change no content of any kind. */
  lemma UsersCannotChangeContent(caller: Claims, k: Kind)
    requires caller.role == USER
    ensures Decide(Some(caller), CreateContent(k)) == Forbidden
    ensures Decide(Some(caller), UpdateContent(k)) == Forbidden
    ensures Decide(Some(caller), DeleteContent(k)) == Forbidden
  {
  }

  // ---------------------------------------------------------------------------
  // Users

  lemma RegisterAndLoginArePublic(caller: Option<Claims>)
    ensures Decide(caller, RegisterUser) == Permit
    ensures Decide(caller, LoginUser) == Permit
  {
  }

  lemma ReadSelfNeedsOnlyAToken(caller: Option<Claims>)
    ensures Decide(caller, ReadSelf) == Permit <==> caller.Some?
  {
  }

  lemma UserManagementIsForAdmins(caller: Option<Claims>)
    ensures Decide(caller, ListUsers) == Permit <==> HasRole(caller, {ADMIN})
    ensures Decide(caller, ChangeUserRole) == Permit <==> HasRole(caller, {ADMIN})
    ensures Decide(caller, RemoveUser) == Permit <==> HasRole(caller, {ADMIN})
  {
  }

  /** On every guarded route a missing token is reported before any role check,
      and a role refusal is only ever given to a caller with a token. */
  lemma AuthenticationPrecedesAuthorization(caller: Option<Claims>, op: Operation)
    ensures GuardOf(op) != Public && caller.None? ==> Decide(caller, op) == Unauthenticated
    ensures Decide(caller, op) == Forbidden ==> caller.Some? && GuardOf(op).RolesIn?
  {
  }

  // ---------------------------------------------------------------------------
  // Media

  lemma MediaRoutes(caller: Option<Claims>)
    ensures Decide(caller, UploadMedia) == Permit <==> caller.Some?
    ensures Decide(caller, ListMedia) == Permit
    ensures Decide(caller, RemoveMedia) == Permit <==> HasRole(caller, {ADMIN})
    ensures Decide(caller, CheckMediaUsage) == Permit <==> caller.Some?
  {
  }

  /** Only ADMIN deletes content, media or users, or changes a role. */
  lemma OnlyAdminsDestroy(caller: Option<Claims>, op: Operation)
    requires op.DeleteContent? || op == RemoveMedia || op == RemoveUser || op == ChangeUserRole
    ensures Decide(caller, op) == Permit <==> HasRole(caller, {ADMIN})
  {
  }
}
