/** The user administration screen: an in-memory user list, its search and status filter, the
    four statistics tiles and the create/edit modal. A user made through the modal has no
    username (the modal has no such input) and no role unless one was typed, which is why those
    two fields are optional here. */
module UserManagement {
  import opened Wrappers
  import opened Text
  import opened Lists

  datatype User = User(id: int, firstName: string, lastName: Option<string>, username: Option<string>,
                       email: string, phone: Option<string>, role: Option<string>, status: string,
                       avatar: string, createdAt: string)

  /** `Partial<User>`: every field may be missing. */
  datatype UserForm = UserForm(id: Option<int>, firstName: Option<string>, lastName: Option<string>,
                               username: Option<string>, email: Option<string>, phone: Option<string>,
                               role: Option<string>, status: Option<string>, avatar: Option<string>,
                               createdAt: Option<string>)

  const EmptyForm: UserForm := UserForm(None, None, None, None, None, None, None, None, None, None)
  const DefaultAvatar: string := "https://cdn-icons-png.flaticon.com/512/4140/4140040.png"

  function FormOf(u: User): UserForm {
    UserForm(Some(u.id), Some(u.firstName), u.lastName, u.username, Some(u.email), u.phone, u.role,
             Some(u.status), Some(u.avatar), Some(u.createdAt))
  }

  /** JavaScript truthiness of an optional string: present and not empty. */
  predicate Filled(s: Option<string>) { s.Some? && s.value != "" }

  /** The status select offers only "active" and "inactive". */
  predicate StatusChosen(f: UserForm) {
    f.status.None? || f.status.value == "active" || f.status.value == "inactive"
  }

  predicate KnownStatuses(users: seq<User>) {
    forall i :: 0 <= i < |users| ==> users[i].status == "active" || users[i].status == "inactive"
  }

  predicate UniqueIds(users: seq<User>) {
    forall i, j :: 0 <= i < j < |users| ==> users[i].id != users[j].id
  }

  // ----------------------------------------------------------------------------------------------
  // Saving and deleting
  // ----------------------------------------------------------------------------------------------

  /** `Math.max(0, ...users.map(u => u.id))` */
  function MaxId(users: seq<User>): (m: int)
    ensures m >= 0
    ensures forall i :: 0 <= i < |users| ==> users[i].id <= m
    ensures |users| > 0 && m > 0 ==> exists i :: 0 <= i < |users| && users[i].id == m
  {
    if |users| == 0 then 0
    else
      var rest := MaxId(users[1..]);
      assert forall i :: 1 <= i < |users| ==> users[i] == users[1..][i - 1];
      if users[0].id > rest then users[0].id else rest
  }

  /** The new user's id: one more than the largest id, and so different from every id in use. */
  function NewId(users: seq<User>): (id: int)
    ensures id >= 1
    ensures forall i :: 0 <= i < |users| ==> users[i].id < id
  {
    MaxId(users) + 1
  }

  /** The user the create save builds: the form's fields, a fresh id, the creation time, and the
      default status and avatar for missing or empty ones. */
  function NewUser(f: UserForm, users: seq<User>, nowIso: string): (u: User)
    requires Filled(f.firstName) && Filled(f.email)
    ensures u.id == NewId(users) && u.createdAt == nowIso
    ensures u.status == (if Filled(f.status) then f.status.value else "active")
    ensures u.avatar == (if Filled(f.avatar) then f.avatar.value else DefaultAvatar)
  {
    User(NewId(users), f.firstName.value, f.lastName, f.username, f.email.value, f.phone, f.role,
         if Filled(f.status) then f.status.value else "active",
         if Filled(f.avatar) then f.avatar.value else DefaultAvatar, nowIso)
  }

  /** `{ ...u, ...form }`: every field the form carries overrides the user's. */
  function Merge(u: User, f: UserForm): User {
    User(f.id.GetOr(u.id), f.firstName.GetOr(u.firstName), if f.lastName.Some? then f.lastName else u.lastName,
         if f.username.Some? then f.username else u.username, f.email.GetOr(u.email),
         if f.phone.Some? then f.phone else u.phone, if f.role.Some? then f.role else u.role,
         f.status.GetOr(u.status), f.avatar.GetOr(u.avatar), f.createdAt.GetOr(u.createdAt))
  }

  /** The edit save: only the user whose id is being edited changes. */
  function SaveEdit(users: seq<User>, editingId: int, f: UserForm): (r: seq<User>)
    ensures |r| == |users|
    ensures forall i :: 0 <= i < |r| && users[i].id != editingId ==> r[i] == users[i]
    ensures forall i :: 0 <= i < |r| && users[i].id == editingId ==> r[i] == Merge(users[i], f)
  {
    seq(|users|, i requires 0 <= i < |users| => if users[i].id == editingId then Merge(users[i], f) else users[i])
  }

  /** handleSave's effect on the list: nothing without a first name and an email; an edit when an
      id is being edited; otherwise one new user in front. */
  function SavedUsers(users: seq<User>, editingId: Option<int>, f: UserForm, nowIso: string): (r: seq<User>)
    ensures !(Filled(f.firstName) && Filled(f.email)) ==> r == users
    ensures Filled(f.firstName) && Filled(f.email) && !(editingId.Some? && editingId.value != 0) ==>
      |r| == |users| + 1 && r[1..] == users && r[0] == NewUser(f, users, nowIso)
    ensures Filled(f.firstName) && Filled(f.email) && editingId.Some? && editingId.value != 0 ==>
      r == SaveEdit(users, editingId.value, f)
  {
    if !(Filled(f.firstName) && Filled(f.email)) then users
    else if editingId.Some? && editingId.value != 0 then SaveEdit(users, editingId.value, f)
    else [NewUser(f, users, nowIso)] + users
  }

  /** handleDelete, once confirmed: the user with the id is gone, every other user stays in order. */
  function DeleteUser(users: seq<User>, id: int): (r: seq<User>)
    ensures forall i :: 0 <= i < |r| ==> r[i].id != id && r[i] in users
    ensures forall i :: 0 <= i < |users| && users[i].id != id ==> users[i] in r
    ensures SubSeq(r, users)
  {
    Filter(users, (u: User) => u.id != id)
  }

  /** Saving keeps user ids unique and statuses known, as long as an edit goes through the
      edited user's own form and the status comes from the select. */
  lemma SaveKeepsInvariant(users: seq<User>, editingId: Option<int>, f: UserForm, nowIso: string)
    requires UniqueIds(users) && KnownStatuses(users) && StatusChosen(f)
    requires editingId.Some? ==> f.id == editingId
    ensures UniqueIds(SavedUsers(users, editingId, f, nowIso))
    ensures KnownStatuses(SavedUsers(users, editingId, f, nowIso))
  {
    var r := SavedUsers(users, editingId, f, nowIso);
    if Filled(f.firstName) && Filled(f.email) && !(editingId.Some? && editingId.value != 0) {
      forall i, j | 0 <= i < j < |r| ensures r[i].id != r[j].id {
        if i == 0 {
          assert r[j] == users[j - 1];
        } else {
          assert r[i] == users[i - 1] && r[j] == users[j - 1];
        }
      }
    }
  }

  /** An id absent from a list is absent from the list after a delete. */
  lemma IdAbsentAfterDelete(users: seq<User>, id: int, other: int)
    requires forall i :: 0 <= i < |users| ==> users[i].id != other
    ensures forall i :: 0 <= i < |DeleteUser(users, id)| ==> DeleteUser(users, id)[i].id != other
  {
    var r := DeleteUser(users, id);
    forall i | 0 <= i < |r| ensures r[i].id != other {
      assert r[i] in users;
    }
  }

  /** Deleting keeps user ids unique. */
  lemma {:induction false} DeleteKeepsUniqueIds(users: seq<User>, id: int)
    requires UniqueIds(users)
    ensures UniqueIds(DeleteUser(users, id))
  {
    if |users| > 0 {
      var tail := users[1..];
      assert UniqueIds(tail) by {
        forall i, j | 0 <= i < j < |tail| ensures tail[i].id != tail[j].id {
          assert tail[i] == users[i + 1] && tail[j] == users[j + 1];
        }
      }
      DeleteKeepsUniqueIds(tail, id);
      assert forall i :: 0 <= i < |tail| ==> tail[i].id != users[0].id by {
        forall i | 0 <= i < |tail| ensures tail[i].id != users[0].id {
          assert tail[i] == users[i + 1];
        }
      }
      IdAbsentAfterDelete(tail, id, users[0].id);
      var rest := DeleteUser(tail, id);
      if users[0].id != id {
        var r := DeleteUser(users, id);
        assert r == [users[0]] + rest;
        forall i, j | 0 <= i < j < |r| ensures r[i].id != r[j].id {
          assert r[j] == rest[j - 1];
          if i > 0 {
            assert r[i] == rest[i - 1];
          }
        }
      } else {
        assert DeleteUser(users, id) == rest;
      }
    }
  }

  // ----------------------------------------------------------------------------------------------
  // Statistics
  // ----------------------------------------------------------------------------------------------

  predicate IsActive(u: User) { u.status == "active" }
  predicate IsInactive(u: User) { u.status == "inactive" }

  /** The admin tile as intended: a role containing "admin", ignoring case; no role is no admin. */
  predicate IsAdmin(u: User) { u.role.Some? && ContainsIgnoringCase(u.role.value, "admin") }

  datatype UserStats = UserStats(total: nat, active: nat, inactive: nat, admin: nat)

  /** The four tiles: the number of users, how many are active and inactive by status, and how
      many are admins (the intended admin test). No user is both active and inactive, so those
      two never exceed the total. */
  function Stats(users: seq<User>): (st: UserStats)
    ensures st.total == |users|
    ensures st.active == Count(users, IsActive) && st.inactive == Count(users, IsInactive)
    ensures st.admin == Count(users, IsAdmin)
    ensures st.active + st.inactive <= st.total && st.admin <= st.total
  {
    CountDisjoint(users, IsActive, IsInactive);
    UserStats(|users|, Count(users, IsActive), Count(users, IsInactive), Count(users, IsAdmin))
  }

  /** Every status is "active" or "inactive", so the two tiles add up to the total. */
  lemma ActivePlusInactiveIsTotal(users: seq<User>)
    requires KnownStatuses(users)
    ensures Stats(users).active + Stats(users).inactive == Stats(users).total
  {
    assert forall u :: u in users ==> IsActive(u) || IsInactive(u);
    CountPartition(users, IsActive, IsInactive);
  }

  /** Two predicates that never hold together and cover the sequence split it. */
  lemma {:induction false} CountPartition(users: seq<User>, p: User -> bool, q: User -> bool)
    requires forall u :: !(p(u) && q(u))
    requires forall u :: u in users ==> p(u) || q(u)
    ensures Count(users, p) + Count(users, q) == |users|
  {
    if |users| > 0 {
      CountPartition(users[1..], p, q);
    }
  }

  /** The admin tile as written: `u.role.toLowerCase()` raises a TypeError on a user without a
      role, and the error ends the count. */
  function AdminCountAsWritten(users: seq<User>): (r: Result<nat, string>)
    ensures r.Err? <==> exists i :: 0 <= i < |users| && users[i].role.None?
    ensures r.Ok? ==> r.value == Count(users, IsAdmin)
  {
    if |users| == 0 then Ok(0)
    else if users[0].role.None? then
      var raised: Result<nat, string> := Err("TypeError: Cannot read properties of undefined (reading 'toLowerCase')");
      raised
    else
      NoRoleShift(users);
      CountCons(users, IsAdmin);
      match AdminCountAsWritten(users[1..])
      case Err(e) => Err(e)
      case Ok(n) => Ok((if IsAdmin(users[0]) then 1 else 0) + n)
  }

  lemma NoRoleShift(users: seq<User>)
    requires |users| > 0
    ensures (exists i :: 0 <= i < |users| && users[i].role.None?) <==>
            users[0].role.None? || exists i :: 0 <= i < |users[1..]| && users[1..][i].role.None?
  {
    if exists i :: 0 <= i < |users| && users[i].role.None? {
      var i :| 0 <= i < |users| && users[i].role.None?;
      if i > 0 {
        assert users[1..][i - 1] == users[i];
      }
    }
    if exists i :: 0 <= i < |users[1..]| && users[1..][i].role.None? {
      var i :| 0 <= i < |users[1..]| && users[1..][i].role.None?;
      assert users[i + 1] == users[1..][i];
    }
  }

  /** The intended admin tile never raises, and shows 0 exactly when no user has a role
      containing "admin"; a user without a role simply is not an admin. */
  lemma {:induction false} AdminTileZeroIffNoAdmin(users: seq<User>)
    ensures Stats(users).admin == 0 <==> forall i :: 0 <= i < |users| ==> !IsAdmin(users[i])
  {
    if |users| > 0 {
      CountCons(users, IsAdmin);
      AdminTileZeroIffNoAdmin(users[1..]);
      assert forall i :: 1 <= i < |users| ==> users[i] == users[1..][i - 1];
    }
  }

  // ----------------------------------------------------------------------------------------------
  // The search
  // ----------------------------------------------------------------------------------------------

  /** Field i is the first to contain the term, and every field before it is present. */
  predicate FirstFound(fields: seq<Option<string>>, search: string, i: int) {
    0 <= i < |fields| && fields[i].Some? && ContainsIgnoringCase(fields[i].value, search) &&
    forall j :: 0 <= j < i ==> fields[j].Some? && !ContainsIgnoringCase(fields[j].value, search)
  }

  /** `[...].some(field => field.toLowerCase().includes(term))` as written: the fields are tried in
      order, the first containing the term stops the search, and a missing field reached before
      that raises. */
  function SomeFieldAsWritten(fields: seq<Option<string>>, search: string): (r: Result<bool, string>)
    ensures r == Ok(true) <==> exists i :: FirstFound(fields, search, i)
  {
    if |fields| == 0 then Ok(false)
    else if fields[0].None? then Err("TypeError: Cannot read properties of undefined (reading 'toLowerCase')")
    else if ContainsIgnoringCase(fields[0].value, search) then
      assert FirstFound(fields, search, 0);
      Ok(true)
    else
      FirstFoundShift(fields, search);
      SomeFieldAsWritten(fields[1..], search)
  }

  /** Past a present field without the term, the first field with it is one further on. */
  lemma FirstFoundShift(fields: seq<Option<string>>, search: string)
    requires |fields| > 0 && fields[0].Some? && !ContainsIgnoringCase(fields[0].value, search)
    ensures (exists i :: FirstFound(fields, search, i)) <==> exists i :: FirstFound(fields[1..], search, i)
  {
    assert forall i :: 1 <= i < |fields| ==> fields[i] == fields[1..][i - 1];
    if exists i :: FirstFound(fields[1..], search, i) {
      var i :| FirstFound(fields[1..], search, i);
      assert FirstFound(fields, search, i + 1);
    }
    if exists i :: FirstFound(fields, search, i) {
      var i :| FirstFound(fields, search, i);
      assert FirstFound(fields[1..], search, i - 1);
    }
  }

  function SearchFields(u: User): seq<Option<string>> {
    [Some(u.firstName), u.lastName, u.username, Some(u.email)]
  }

  /** The status filter; None stands for 'all'. */
  predicate StatusMatches(u: User, statusFilter: Option<string>) {
    statusFilter.None? || u.status == statusFilter.value
  }

  /** The search as written raises on this user: the term is not empty and some() reaches a
      missing field before a field containing it. */
  predicate Raises(u: User, search: string) {
    search != "" && SomeFieldAsWritten(SearchFields(u), search).Err?
  }

  /** filteredUsers as written: an empty search matches without looking at the fields; otherwise
      a TypeError from any user ends the filter. When nothing raises, the list is the intended
      one. */
  function FilteredUsersAsWritten(users: seq<User>, search: string, statusFilter: Option<string>): (r: Result<seq<User>, string>)
    ensures r.Err? <==> exists i :: 0 <= i < |users| && Raises(users[i], search)
    ensures r.Ok? ==> forall i :: 0 <= i < |r.value| ==> r.value[i] in users && StatusMatches(r.value[i], statusFilter)
    ensures r.Ok? ==> r.value == FilteredUsers(users, search, statusFilter)
  {
    if |users| == 0 then Ok([])
    else
      var here := if search == "" then Ok(true) else SomeFieldAsWritten(SearchFields(users[0]), search);
      var later := FilteredUsersAsWritten(users[1..], search, statusFilter);
      RaisesShift(users, search);
      SomeFieldOkValue(SearchFields(users[0]), search);
      FilteredUsersCons(users, search, statusFilter);
      match here
      case Err(e) => Err(e)
      case Ok(m) =>
        match later
        case Err(e) => Err(e)
        case Ok(rest) => Ok((if m && StatusMatches(users[0], statusFilter) then [users[0]] else []) + rest)
  }

  /** When some() as written does not raise, it finds the term iff a field contains it. */
  lemma {:induction false} SomeFieldOkValue(fields: seq<Option<string>>, search: string)
    ensures SomeFieldAsWritten(fields, search).Ok? ==> (SomeFieldAsWritten(fields, search).value <==>
      exists i :: 0 <= i < |fields| && fields[i].Some? && ContainsIgnoringCase(fields[i].value, search))
  {
    if |fields| > 0 && fields[0].Some? && !ContainsIgnoringCase(fields[0].value, search) {
      SomeFieldOkValue(fields[1..], search);
      assert forall i :: 1 <= i < |fields| ==> fields[i] == fields[1..][i - 1];
      if exists i :: 0 <= i < |fields| && fields[i].Some? && ContainsIgnoringCase(fields[i].value, search) {
        var i :| 0 <= i < |fields| && fields[i].Some? && ContainsIgnoringCase(fields[i].value, search);
        assert fields[1..][i - 1] == fields[i];
      }
    }
  }

  lemma RaisesShift(users: seq<User>, search: string)
    requires |users| > 0
    ensures (exists i :: 0 <= i < |users| && Raises(users[i], search)) <==>
            Raises(users[0], search) || exists i :: 0 <= i < |users[1..]| && Raises(users[1..][i], search)
  {
    if exists i :: 0 <= i < |users| && Raises(users[i], search) {
      var i :| 0 <= i < |users| && Raises(users[i], search);
      if i > 0 {
        assert users[1..][i - 1] == users[i];
      }
    }
    if exists i :: 0 <= i < |users[1..]| && Raises(users[1..][i], search) {
      var i :| 0 <= i < |users[1..]| && Raises(users[1..][i], search);
      assert users[i + 1] == users[1..][i];
    }
  }

  /** The intended match: a missing field simply does not contain the term. */
  predicate Shown(u: User, search: string, statusFilter: Option<string>) {
    (search == "" || exists i :: 0 <= i < 4 && SearchFields(u)[i].Some? && ContainsIgnoringCase(SearchFields(u)[i].value, search)) &&
    StatusMatches(u, statusFilter)
  }

  function FilteredUsers(users: seq<User>, search: string, statusFilter: Option<string>): (r: seq<User>)
    ensures forall i :: 0 <= i < |r| ==> r[i] in users && Shown(r[i], search, statusFilter)
    ensures forall i :: 0 <= i < |users| && Shown(users[i], search, statusFilter) ==> users[i] in r
    ensures SubSeq(r, users)
  {
    Filter(users, (u: User) => Shown(u, search, statusFilter))
  }

  /** An empty search with the 'all' filter lists every user. */
  lemma EmptySearchShowsAll(users: seq<User>)
    ensures FilteredUsers(users, "", None) == users
  {
    FilterAll(users, (u: User) => Shown(u, "", None));
  }

  predicate AllFieldsPresent(u: User) { u.lastName.Some? && u.username.Some? && u.role.Some? }

  /** With every field present nothing raises, and some() finds the term iff a field has it. */
  lemma {:induction false} SomeFieldAllPresent(fields: seq<Option<string>>, search: string)
    requires forall i :: 0 <= i < |fields| ==> fields[i].Some?
    ensures SomeFieldAsWritten(fields, search) ==
      Ok(exists i :: 0 <= i < |fields| && fields[i].Some? && ContainsIgnoringCase(fields[i].value, search))
  {
    if |fields| > 0 {
      SomeFieldAllPresent(fields[1..], search);
      assert forall i :: 1 <= i < |fields| ==> fields[i] == fields[1..][i - 1];
      if exists i :: 0 <= i < |fields[1..]| && fields[1..][i].Some? && ContainsIgnoringCase(fields[1..][i].value, search) {
        var i :| 0 <= i < |fields[1..]| && fields[1..][i].Some? && ContainsIgnoringCase(fields[1..][i].value, search);
        assert fields[i + 1] == fields[1..][i];
      }
    }
  }

  /** Where every user has all fields, the filter as written yields the intended list. */
  lemma {:induction false} FilterAgreesWhenFieldsPresent(users: seq<User>, search: string, statusFilter: Option<string>)
    requires forall i :: 0 <= i < |users| ==> AllFieldsPresent(users[i])
    ensures FilteredUsersAsWritten(users, search, statusFilter) == Ok(FilteredUsers(users, search, statusFilter))
  {
    forall i | 0 <= i < |users| ensures !Raises(users[i], search) {
      if search != "" {
        SomeFieldAllPresent(SearchFields(users[i]), search);
      }
    }
  }

  /** The intended filter, one user at a time from the front. */
  lemma FilteredUsersCons(users: seq<User>, search: string, statusFilter: Option<string>)
    requires |users| > 0
    ensures FilteredUsers(users, search, statusFilter) ==
      (if Shown(users[0], search, statusFilter) then [users[0]] else []) + FilteredUsers(users[1..], search, statusFilter)
  {
  }

  /** A user created through the modal with a first name, last name and email: no username. */
  const Created: User := NewUser(UserForm(None, Some("Ann"), Some("Lee"), None, Some("ann@example.com"),
                                          None, Some("Analyst"), None, None, None), [], "2025-01-01T00:00:00.000Z")

  /** Searching for a term that is neither in the first nor in the last name of such a user
      reaches the missing username and the filter raises. */
  lemma CreatedUserBreaksSearch()
    ensures FilteredUsersAsWritten([Created], "zzzz", None).Err?
  {
    var f := SearchFields(Created);
    assert !ContainsIgnoringCase("Ann", "zzzz") && !ContainsIgnoringCase("Lee", "zzzz");
    assert f[1..][1..][0].None?;
  }

  /** A user created without typing a role makes the admin tile raise. */
  lemma CreatedUserWithoutRoleBreaksStats()
    ensures AdminCountAsWritten([Created.(role := None)]).Err?
  {
  }

  // ----------------------------------------------------------------------------------------------
  // The screen
  // ----------------------------------------------------------------------------------------------

  class UserScreen {
    var users: seq<User>
    var isModalOpen: bool
    var editingId: Option<int>
    var form: UserForm

    /** Ids are unique, statuses are the select's, and an edit form belongs to the edited user. */
    predicate Valid()
      reads this
    {
      UniqueIds(users) && KnownStatuses(users) && StatusChosen(form) &&
      (editingId.Some? ==> form.id == editingId)
    }

    constructor (initial: seq<User>)
      requires UniqueIds(initial) && KnownStatuses(initial)
      ensures Valid() && users == initial && !isModalOpen && editingId.None? && form == EmptyForm
    {
      users := initial;
      isModalOpen := false;
      editingId := None;
      form := EmptyForm;
    }

    /** The "Add User" button only opens the modal: the form and editingId are left as they were. */
    method OpenCreate()
      requires Valid()
      modifies this
      ensures Valid() && isModalOpen && users == old(users) && form == old(form) && editingId == old(editingId)
    {
      isModalOpen := true;
    }

    /** A row's edit button. */
    method OpenEdit(u: User)
      requires Valid() && u in users
      modifies this
      ensures Valid() && isModalOpen && editingId == Some(u.id) && form == FormOf(u) && users == old(users)
    {
      editingId := Some(u.id);
      form := FormOf(u);
      isModalOpen := true;
    }

    /** Typing into the modal: the fields that have an input (first and last name, email, phone,
        role, avatar) and the status, only as the select offers it. The id, the username and the
        creation time have no input and are kept. */
    method EditForm(f: UserForm)
      requires Valid() && StatusChosen(f)
      modifies this
      ensures Valid() && users == old(users) && editingId == old(editingId)
      ensures form == f.(id := old(form).id, username := old(form).username, createdAt := old(form).createdAt)
    {
      form := f.(id := form.id, username := form.username, createdAt := form.createdAt);
    }

    /** Closing the modal keeps the form and editingId. */
    method CloseModal()
      requires Valid()
      modifies this
      ensures Valid() && !isModalOpen && users == old(users) && form == old(form) && editingId == old(editingId)
    {
      isModalOpen := false;
    }

    /** handleSave: without a first name and an email nothing changes; otherwise the list is saved,
        the form emptied, editingId cleared and the modal closed. */
    method HandleSave(nowIso: string)
      requires Valid()
      modifies this
      ensures Valid()
      ensures !(Filled(old(form).firstName) && Filled(old(form).email)) ==>
        users == old(users) && form == old(form) && editingId == old(editingId) && isModalOpen == old(isModalOpen)
      ensures Filled(old(form).firstName) && Filled(old(form).email) ==>
        users == SavedUsers(old(users), old(editingId), old(form), nowIso) &&
        form == EmptyForm && editingId.None? && !isModalOpen
    {
      if !(Filled(form.firstName) && Filled(form.email)) {
        return;
      }
      SaveKeepsInvariant(users, editingId, form, nowIso);
      users := SavedUsers(users, editingId, form, nowIso);
      isModalOpen := false;
      form := EmptyForm;
      editingId := None;
    }

    /** handleDelete: only once the user confirms. */
    method HandleDelete(id: int, confirmed: bool)
      requires Valid()
      modifies this
      ensures Valid()
      ensures users == (if confirmed then DeleteUser(old(users), id) else old(users))
      ensures form == old(form) && editingId == old(editingId) && isModalOpen == old(isModalOpen)
    {
      if confirmed {
        DeleteKeepsUniqueIds(users, id);
        users := DeleteUser(users, id);
      }
    }
  }
}
