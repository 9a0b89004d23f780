/** The snack inventory's access rule: reading needs a signed-in caller, every write needs a
    signed-in caller with the application's own `is_staff_member` flag. */
module InventoryViews {
  import opened Common
  import opened Models
  import opened Access

  /** The custom permission class: authenticated, and flagged as a staff member. The flag
      is read only once authentication has succeeded. */
  lemma IsStaffMemberDecision(c: Caller)
    ensures HasPermission(IsStaffMember, c) <==> c.SignedIn? && c.user.isStaffMember
    ensures c.Anonymous? ==> !HasPermission(IsStaffMember, c)
  {
  }

  /** Snacks: list and retrieve need a signed-in caller; every other action needs the
      `is_staff_member` flag as well. */
  function SnackItemViewSetPermissions(a: Action): (r: seq<PermissionClass>)
    ensures forall c :: Permits(r, c) <==> c.SignedIn? && (IsReadAction(a) || c.user.isStaffMember)
  {
    if IsReadAction(a) then [IsAuthenticated] else [IsStaffMember]
  }

  /** The snack view set decides exactly as the reference decision table does. */
  lemma SnackViewSetFollowsPolicy(a: Action, c: Caller)
    ensures Permits(SnackItemViewSetPermissions(a), c) <==> Meets(c, Policy(SnackResource, a))
  {
  }

  /** The framework's `is_staff` flag alone grants no snack write. */
  lemma StaffFlagAloneGrantsNoSnackWrite(a: Action, u: User)
    requires !IsReadAction(a) && u.isStaff && !u.isStaffMember
    ensures !Permits(SnackItemViewSetPermissions(a), SignedIn(u))
  {
  }

  /** No anonymous caller may write snacks, whatever the action. */
  lemma AnonymousNeverWritesSnacks(a: Action)
    requires !IsReadAction(a)
    ensures !Permits(SnackItemViewSetPermissions(a), Anonymous)
    ensures DenialStatus(Anonymous) == Unauthorized
  {
  }
}
