/** The roles-and-permissions screen: an in-memory role list, the role form and its permission
    check boxes. */
module RoleManagement {
  import opened Wrappers
  import opened Text
  import opened Lists

  datatype RoleType = System | Custom

  datatype Role = Role(id: int, role: string, description: string, roleType: RoleType,
                       permissions: seq<string>, userCount: int, createdAt: string, avatar: string)

  /** The modal's form. It is either a copy of the role being edited, or a blank form that has
      neither an id nor a creation time yet. */
  datatype RoleForm = RoleForm(id: Option<int>, role: string, description: string, roleType: RoleType,
                               permissions: seq<string>, userCount: int, createdAt: Option<string>,
                               avatar: string)

  const AllPermissions: seq<string> := [
    "user.create", "user.read", "user.update", "user.delete", "role.manage", "tenant.manage", "system.configure",
    "audit.view", "reports.generate", "security.manage", "customer.create", "customer.read", "customer.update",
    "account.manage", "transaction.approve", "team.manage", "reports.branch", "kpi.view", "call.manage",
    "ticket.create", "knowledge.access", "compliance.monitor", "audit.conduct", "risk.assess",
    "report.regulatory", "alert.manage", "analytics.view", "reports.financial", "dashboard.access",
    "data.export", "settings.update", "support.handle", "chat.view"]

  const BlankForm: RoleForm := RoleForm(None, "", "", Custom, [], 0, None, "")

  function FormOf(r: Role): RoleForm {
    RoleForm(Some(r.id), r.role, r.description, r.roleType, r.permissions, r.userCount, Some(r.createdAt), r.avatar)
  }

  // ----------------------------------------------------------------------------------------------
  // Permissions
  // ----------------------------------------------------------------------------------------------

  /** togglePermission: a present permission is removed (every copy of it), an absent one is
      appended. Only that permission's membership changes. */
  function Toggle(perms: seq<string>, perm: string): (r: seq<string>)
    ensures perm in r <==> perm !in perms
    ensures forall q :: q != perm ==> (q in r <==> q in perms)
    ensures Distinct(perms) ==> Distinct(r)
  {
    if perm in perms then
      assert Distinct(perms) ==> Distinct(Filter(perms, (p: string) => p != perm)) by {
        if Distinct(perms) { FilterDistinct(perms, (p: string) => p != perm); }
      }
      Filter(perms, (p: string) => p != perm)
    else
      assert forall q :: q in perms + [perm] <==> q in perms || q == perm;
      perms + [perm]
  }

  /** Toggling twice gives every permission back its membership, and never duplicates one. */
  lemma ToggleTwice(perms: seq<string>, perm: string)
    ensures forall q :: q in Toggle(Toggle(perms, perm), perm) <==> q in perms
    ensures Distinct(perms) ==> Distinct(Toggle(Toggle(perms, perm), perm))
  {
  }

  // ----------------------------------------------------------------------------------------------
  // The role list
  // ----------------------------------------------------------------------------------------------

  /** `{ ...r, ...form }`: every field the form carries overrides the role's. */
  function Merge(r: Role, f: RoleForm): Role {
    Role(f.id.GetOr(r.id), f.role, f.description, f.roleType, f.permissions, f.userCount,
         f.createdAt.GetOr(r.createdAt), f.avatar)
  }

  /** The edit save: the roles with the form's id take the form's fields, the others are kept. */
  function SaveEdit(roles: seq<Role>, f: RoleForm): (r: seq<Role>)
    requires f.id.Some?
    ensures |r| == |roles|
    ensures forall i :: 0 <= i < |r| && roles[i].id != f.id.value ==> r[i] == roles[i]
    ensures forall i :: 0 <= i < |r| && roles[i].id == f.id.value ==>
      r[i].id == roles[i].id && r[i].role == f.role && r[i].permissions == f.permissions &&
      r[i].roleType == f.roleType && r[i].description == f.description &&
      r[i].userCount == f.userCount && r[i].avatar == f.avatar &&
      r[i].createdAt == (if f.createdAt.Some? then f.createdAt.value else roles[i].createdAt)
  {
    seq(|roles|, i requires 0 <= i < |roles| => if roles[i].id == f.id.value then Merge(roles[i], f) else roles[i])
  }

  /** Saving the same edit twice is saving it once. */
  lemma SaveEditIdempotent(roles: seq<Role>, f: RoleForm)
    requires f.id.Some?
    ensures SaveEdit(SaveEdit(roles, f), f) == SaveEdit(roles, f)
  {
    var once := SaveEdit(roles, f);
    forall i | 0 <= i < |roles| ensures SaveEdit(once, f)[i] == once[i] {
      if roles[i].id == f.id.value {
        assert once[i] == Merge(roles[i], f);
      }
    }
  }

  /** Opening a role in the modal and saving without changes leaves the list as it was, when the
      ids are unique. */
  lemma SaveUnchangedForm(roles: seq<Role>, k: nat)
    requires k < |roles|
    requires forall i, j :: 0 <= i < j < |roles| ==> roles[i].id != roles[j].id
    ensures SaveEdit(roles, FormOf(roles[k])) == roles
  {
    var r := SaveEdit(roles, FormOf(roles[k]));
    forall i | 0 <= i < |roles| ensures r[i] == roles[i] {
      if roles[i].id == roles[k].id {
        assert i == k;
      }
    }
  }

  /** The create save: the form becomes a role with the given id and time, ahead of the others. */
  function NewRole(f: RoleForm, now: int, nowIso: string): Role {
    Role(now, f.role, f.description, f.roleType, f.permissions, f.userCount, nowIso, f.avatar)
  }

  /** handleSave's effect on the list: nothing for a blank role name; otherwise an edit of the
      matching role when editing a role with a (non-zero) id, else one new role in front. */
  function SavedRoles(roles: seq<Role>, f: RoleForm, isEditMode: bool, now: int, nowIso: string): (r: seq<Role>)
    ensures IsBlank(f.role) ==> r == roles
    ensures !IsBlank(f.role) && !(isEditMode && f.id.Some? && f.id.value != 0) ==>
      |r| == |roles| + 1 && r[1..] == roles && r[0].id == now && r[0].role == f.role &&
      r[0] == NewRole(f, now, nowIso)
    ensures !IsBlank(f.role) && isEditMode && f.id.Some? && f.id.value != 0 ==>
      |r| == |roles| && (forall i :: 0 <= i < |r| ==> r[i].id == roles[i].id) && r == SaveEdit(roles, f)
  {
    if Trim(f.role) == "" then roles
    else if isEditMode && f.id.Some? && f.id.value != 0 then SaveEdit(roles, f)
    else [NewRole(f, now, nowIso)] + roles
  }

  /** handleDelete, once confirmed: no role with the id is left, every other role stays in order. */
  function DeleteRole(roles: seq<Role>, id: int): (r: seq<Role>)
    ensures forall i :: 0 <= i < |r| ==> r[i].id != id && r[i] in roles
    ensures forall i :: 0 <= i < |roles| && roles[i].id != id ==> roles[i] in r
    ensures SubSeq(r, roles)
  {
    Filter(roles, (x: Role) => x.id != id)
  }

  // ----------------------------------------------------------------------------------------------
  // Statistics and the filter
  // ----------------------------------------------------------------------------------------------

  predicate IsSystem(r: Role) { r.roleType == System }
  predicate IsCustom(r: Role) { r.roleType == Custom }

  /** `roles.reduce((s, r) => s + r.userCount, 0)` */
  function TotalUsers(roles: seq<Role>): int {
    if |roles| == 0 then 0 else TotalUsers(roles[..|roles| - 1]) + roles[|roles| - 1].userCount
  }

  datatype RoleStats = RoleStats(total: nat, systemRoles: nat, customRoles: nat, totalUsers: int)

  /** The four tiles: the number of roles, how many are system and custom roles, and the sum of
      their user counts. Every role is either a system or a custom role, so those two tiles add
      up to the total. */
  function Stats(roles: seq<Role>): (st: RoleStats)
    ensures st.total == |roles|
    ensures st.systemRoles == Count(roles, IsSystem) && st.customRoles == Count(roles, IsCustom)
    ensures st.totalUsers == TotalUsers(roles)
    ensures st.systemRoles + st.customRoles == st.total
  {
    CountComplement(roles, IsSystem, IsCustom);
    RoleStats(|roles|, Count(roles, IsSystem), Count(roles, IsCustom), TotalUsers(roles))
  }

  /** A new role adds its own user count to the total. */
  lemma {:induction false} TotalUsersPrepend(r: Role, roles: seq<Role>)
    ensures TotalUsers([r] + roles) == r.userCount + TotalUsers(roles)
    decreases |roles|
  {
    if |roles| > 0 {
      var n := |roles| - 1;
      assert ([r] + roles)[..n + 1] == [r] + roles[..n];
      TotalUsersPrepend(r, roles[..n]);
    }
  }

  /** The search: role name or description contains the term, ignoring case; a type filter of
      None stands for 'all'. */
  predicate Shown(r: Role, term: string, typeFilter: Option<RoleType>) {
    (ContainsIgnoringCase(r.role, term) || ContainsIgnoringCase(r.description, term)) &&
    (typeFilter.None? || r.roleType == typeFilter.value)
  }

  function FilteredRoles(roles: seq<Role>, term: string, typeFilter: Option<RoleType>): (r: seq<Role>)
    ensures forall i :: 0 <= i < |r| ==> r[i] in roles && Shown(r[i], term, typeFilter)
    ensures forall i :: 0 <= i < |roles| && Shown(roles[i], term, typeFilter) ==> roles[i] in r
    ensures SubSeq(r, roles)
  {
    Filter(roles, (x: Role) => Shown(x, term, typeFilter))
  }

  /** With no search term and no type filter every role is listed, in order. */
  lemma EmptySearchShowsAll(roles: seq<Role>)
    ensures FilteredRoles(roles, "", None) == roles
  {
    forall x | x in roles ensures Shown(x, "", None) {
      ContainsEmptyIgnoringCase(x.role);
    }
    FilterAll(roles, (x: Role) => Shown(x, "", None));
  }

  // ----------------------------------------------------------------------------------------------
  // The screen
  // ----------------------------------------------------------------------------------------------

  class RoleScreen {
    var roles: seq<Role>
    var isModalOpen: bool
    var isEditMode: bool
    var form: RoleForm
    var selectAll: bool

    constructor (initial: seq<Role>)
      ensures roles == initial && !isModalOpen && !isEditMode && form == BlankForm && !selectAll
    {
      roles := initial;
      isModalOpen := false;
      isEditMode := false;
      form := BlankForm;
      selectAll := false;
    }

    /** openModal: a copy of the role to edit, or a blank form; "select all" starts checked iff
        the role holds as many permissions as there are. */
    method OpenModal(edit: Option<Role>)
      modifies this
      ensures isModalOpen && roles == old(roles)
      ensures edit.Some? ==> isEditMode && form == FormOf(edit.value) &&
                             (selectAll <==> |edit.value.permissions| == |AllPermissions|)
      ensures edit.None? ==> !isEditMode && form == BlankForm && !selectAll
    {
      if edit.Some? {
        isEditMode := true;
        form := FormOf(edit.value);
        selectAll := |edit.value.permissions| == |AllPermissions|;
      } else {
        isEditMode := false;
        form := BlankForm;
        selectAll := false;
      }
      isModalOpen := true;
    }

    /** The X button: the modal closes, and the form and the list are kept. */
    method CloseModal()
      modifies this
      ensures !isModalOpen
      ensures roles == old(roles) && form == old(form) && isEditMode == old(isEditMode) && selectAll == old(selectAll)
    {
      isModalOpen := false;
    }

    /** Typing into the role-name input: only the form's role name changes. */
    method SetRoleName(name: string)
      modifies this
      ensures form == old(form).(role := name)
      ensures roles == old(roles) && isModalOpen == old(isModalOpen) && isEditMode == old(isEditMode) &&
              selectAll == old(selectAll)
    {
      form := form.(role := name);
    }

    /** Typing into the description box: only the form's description changes. */
    method SetDescription(description: string)
      modifies this
      ensures form == old(form).(description := description)
      ensures roles == old(roles) && isModalOpen == old(isModalOpen) && isEditMode == old(isEditMode) &&
              selectAll == old(selectAll)
    {
      form := form.(description := description);
    }

    /** The user-count input: only the form's user count changes, to the number entered. */
    method SetUserCount(count: int)
      modifies this
      ensures form == old(form).(userCount := count)
      ensures roles == old(roles) && isModalOpen == old(isModalOpen) && isEditMode == old(isEditMode) &&
              selectAll == old(selectAll)
    {
      form := form.(userCount := count);
    }

    /** The type select: only the form's role type changes. */
    method SetRoleType(roleType: RoleType)
      modifies this
      ensures form == old(form).(roleType := roleType)
      ensures roles == old(roles) && isModalOpen == old(isModalOpen) && isEditMode == old(isEditMode) &&
              selectAll == old(selectAll)
    {
      form := form.(roleType := roleType);
    }

    /** handleSave: a blank role name changes nothing (the modal stays open); otherwise the list
        is saved and the modal closed. */
    method HandleSave(now: int, nowIso: string)
      modifies this
      ensures roles == SavedRoles(old(roles), form, isEditMode, now, nowIso)
      ensures isModalOpen == (old(isModalOpen) && IsBlank(form.role))
      ensures form == old(form) && isEditMode == old(isEditMode) && selectAll == old(selectAll)
    {
      if Trim(form.role) == "" {
        return;
      }
      roles := SavedRoles(roles, form, isEditMode, now, nowIso);
      isModalOpen := false;
    }

    /** handleDelete: only once the user confirms. */
    method HandleDelete(id: int, confirmed: bool)
      modifies this
      ensures roles == (if confirmed then DeleteRole(old(roles), id) else old(roles))
      ensures form == old(form) && isModalOpen == old(isModalOpen) && selectAll == old(selectAll)
    {
      if confirmed {
        roles := DeleteRole(roles, id);
      }
    }

    method TogglePermission(perm: string)
      modifies this
      ensures form == old(form).(permissions := Toggle(old(form).permissions, perm))
      ensures roles == old(roles) && selectAll == old(selectAll) && isModalOpen == old(isModalOpen)
    {
      form := form.(permissions := Toggle(form.permissions, perm));
    }

    /** handleSelectAll: checked clears every permission, unchecked selects them all; the box
        flips either way. */
    method HandleSelectAll()
      modifies this
      ensures selectAll == !old(selectAll)
      ensures form == old(form).(permissions := if old(selectAll) then [] else AllPermissions)
      ensures roles == old(roles) && isModalOpen == old(isModalOpen)
    {
      if selectAll {
        form := form.(permissions := []);
        selectAll := false;
      } else {
        form := form.(permissions := AllPermissions);
        selectAll := true;
      }
    }
  }
}
