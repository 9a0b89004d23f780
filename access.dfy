/** The access policy: who is calling, the permission classes a handler declares, and the
    framework's rule that a request goes through only when every declared class permits it.
    The decision is pure: it looks at the action and the caller's flags and nothing else. */
module Access {
  import opened Common
  import opened Models

  /** `request.user`: the anonymous user, or a stored user who authenticated. */
  datatype Caller = Anonymous | SignedIn(user: User)

  /** The actions of a model view set. */
  datatype Action = List | Retrieve | Create | Update | PartialUpdate | Destroy

  predicate IsReadAction(a: Action) {
    a == List || a == Retrieve
  }

  /** The permission classes the core uses; `IsStaffMember` is the application's own. */
  datatype PermissionClass = AllowAny | IsAuthenticated | IsAdminUser | IsStaffMember

  /** `has_permission` of each class. The anonymous user has `is_staff` false and no
      `is_staff_member` at all, which `IsStaffMember` never reads because it tests
      authentication first. */
  predicate HasPermission(p: PermissionClass, c: Caller): (r: bool)
    ensures p == AllowAny ==> r
    ensures c.Anonymous? ==> (r <==> p == AllowAny)
  {
    match p
    case AllowAny => true
    case IsAuthenticated => c.SignedIn?
    case IsAdminUser => c.SignedIn? && c.user.isStaff
    case IsStaffMember => c.SignedIn? && c.user.isStaffMember
  }

  /** The framework's `check_permissions`: every declared class must permit the request. */
  predicate Permits(ps: seq<PermissionClass>, c: Caller) {
    |ps| == 0 || (HasPermission(ps[0], c) && Permits(ps[1..], c))
  }

  /** A view that declares one permission class is decided by that class alone. */
  lemma PermitsOne(p: PermissionClass, c: Caller)
    ensures Permits([p], c) <==> HasPermission(p, c)
  {
    assert [p][1..] == [];
  }

  /** A refused anonymous request is "not authenticated"; a refused signed-in one is
      "permission denied". */
  function DenialStatus(c: Caller): (r: Status)
    ensures r == Unauthorized <==> c.Anonymous?
    ensures r == Forbidden <==> c.SignedIn?
  {
    if c.Anonymous? then Unauthorized else Forbidden
  }

  /** The resources of the decision table, and what each cell demands of the caller. */
  datatype Resource = MovieResource | TheaterResource | ShowingResource | SnackResource | UserResource

  datatype Requirement = Anyone | SignedInOnly | Staff | StaffMember

  /** A decision table by resource and action, written independently of the view sets:
      list/retrieve by resource, and every write "staff only",
      where staff means the framework flag except for snacks, which use the custom flag. */
  function Policy(r: Resource, a: Action): Requirement {
    match r
    case MovieResource => if IsReadAction(a) then Anyone else Staff
    case TheaterResource => if IsReadAction(a) then SignedInOnly else Staff
    case ShowingResource => if IsReadAction(a) then SignedInOnly else Staff
    case SnackResource => if IsReadAction(a) then SignedInOnly else StaffMember
    case UserResource => Staff
  }

  predicate Meets(c: Caller, req: Requirement) {
    match req
    case Anyone => true
    case SignedInOnly => c.SignedIn?
    case Staff => c.SignedIn? && c.user.isStaff
    case StaffMember => c.SignedIn? && c.user.isStaffMember
  }
}
