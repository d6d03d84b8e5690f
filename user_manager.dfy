/** The user table of src/pages/admin/UserManager.tsx: the search, role and
    status filter, activating and deactivating, changing a role, deleting,
    and the invitation form. */
module UserManager {
  import opened Wrappers
  import opened Text
  import opened Seqs

  datatype User = User(
    id: int,
    name: string,
    email: string,
    role: string,
    status: string,
    joinDate: string,
    lastLogin: string,
    documentsCreated: nat)

  /** A role or status filter: `all`, or one value. */
  datatype Choice = All | Only(value: string)

  predicate Allows(c: Choice, v: string) {
    c.All? || c.value == v
  }

  /** The filter's predicate: the search term in the name or the e-mail
      ignoring case, and the role and the status the filters allow. */
  predicate Matches(u: User, searchTerm: string, roleFilter: Choice, statusFilter: Choice) {
    && (IncludesIgnoringCase(u.name, searchTerm) || IncludesIgnoringCase(u.email, searchTerm))
    && Allows(roleFilter, u.role)
    && Allows(statusFilter, u.status)
  }

  /** `filteredUsers`: the matching users, in table order. */
  function FilteredUsers(users: seq<User>, searchTerm: string, roleFilter: Choice, statusFilter: Choice): (r: seq<User>)
    ensures IsSubsequence(r, users)
    ensures forall i :: 0 <= i < |r| ==> Matches(r[i], searchTerm, roleFilter, statusFilter)
    ensures forall i :: 0 <= i < |users| && Matches(users[i], searchTerm, roleFilter, statusFilter) ==> users[i] in r
  {
    Filter(users, u => Matches(u, searchTerm, roleFilter, statusFilter))
  }

  /** With no search and both filters on `all`, every user shows. */
  lemma NoFilterShowsAll(users: seq<User>)
    ensures FilteredUsers(users, "", All, All) == users
  {
    forall i | 0 <= i < |users| ensures Matches(users[i], "", All, All) {
      IncludesEmptyTerm(users[i].name);
    }
    FilterKeepsAll(users, u => Matches(u, "", All, All));
  }

  /** The status after a toggle: `active` becomes `inactive`, anything else
      becomes `active`. */
  function Toggled(status: string): (r: string)
    ensures r == "active" || r == "inactive"
    ensures r == "inactive" <==> status == "active"
  {
    if status == "active" then "inactive" else "active"
  }

  /** The list update of `handleToggleUserStatus(id)`. */
  function ToggleStatus(users: seq<User>, id: int): (r: seq<User>)
    ensures |r| == |users|
    ensures forall i :: 0 <= i < |users| && users[i].id != id ==> r[i] == users[i]
    ensures forall i :: 0 <= i < |users| && users[i].id == id ==> r[i] == users[i].(status := Toggled(users[i].status))
  {
    seq(|users|, i requires 0 <= i < |users| =>
      if users[i].id == id then users[i].(status := Toggled(users[i].status)) else users[i])
  }

  predicate HasId(u: User, id: int) {
    u.id == id
  }

  /** The first user with that id is active. */
  predicate FirstActive(users: seq<User>, id: int) {
    exists i :: 0 <= i < |users| && users[i].id == id && users[i].status == "active" && forall j :: 0 <= j < i ==> users[j].id != id
  }

  /** `find` returns the first user with the id. */
  lemma FindFirstUser(users: seq<User>, id: int)
    ensures var user := Find(users, (u: User) => HasId(u, id));
      user.Some? && user.value.status == "active" <==> FirstActive(users, id)
  {
    var p := (u: User) => HasId(u, id);
    var k := FindIndex(users, p);
    if k.Some? {
      assert p(users[k.value]);
    }
  }

  /** The toast of `handleToggleUserStatus(id)`, worked out from the list
      before the update: `deactivated` exactly when the first user with
      that id was active; an unknown id reads as not active. */
  function ToggleToast(users: seq<User>, id: int): (t: string)
    ensures t == "User deactivated successfully" || t == "User activated successfully"
    ensures t == "User deactivated successfully" <==> FirstActive(users, id)
  {
    FindFirstUser(users, id);
    var user := Find(users, (u: User) => HasId(u, id));
    var newStatus := if user.Some? && user.value.status == "active" then "inactive" else "active";
    if newStatus == "active" then "User activated successfully" else "User deactivated successfully"
  }

  /** Toggling twice gives back every user whose status was `active` or
      `inactive`. */
  lemma ToggleTwice(users: seq<User>, id: int)
    requires forall i :: 0 <= i < |users| ==> users[i].status == "active" || users[i].status == "inactive"
    ensures ToggleStatus(ToggleStatus(users, id), id) == users
  {
    var r := ToggleStatus(ToggleStatus(users, id), id);
    forall i | 0 <= i < |users| ensures r[i] == users[i] {
    }
  }

  /** A status other than those two is not restored: `pending` becomes
      `active` and then `inactive`. */
  lemma ToggleTwiceLosesOtherStatus(u: User)
    requires u.status == "pending"
    ensures ToggleStatus(ToggleStatus([u], u.id), u.id) == [u.(status := "inactive")]
  {
  }

  /** `handleChangeUserRole(id, role)`. */
  function ChangeRole(users: seq<User>, id: int, role: string): (r: seq<User>)
    ensures |r| == |users|
    ensures forall i :: 0 <= i < |users| && users[i].id != id ==> r[i] == users[i]
    ensures forall i :: 0 <= i < |users| && users[i].id == id ==> r[i] == users[i].(role := role)
  {
    seq(|users|, i requires 0 <= i < |users| => if users[i].id == id then users[i].(role := role) else users[i])
  }

  /** Setting the role a user already has changes nothing; setting two roles
      in a row leaves the second. */
  lemma ChangeRoleLastWins(users: seq<User>, id: int, first: string, second: string)
    ensures ChangeRole(ChangeRole(users, id, first), id, second) == ChangeRole(users, id, second)
    ensures (forall i :: 0 <= i < |users| && users[i].id == id ==> users[i].role == first) ==> ChangeRole(users, id, first) == users
  {
    var a := ChangeRole(ChangeRole(users, id, first), id, second);
    var b := ChangeRole(users, id, second);
    assert forall i :: 0 <= i < |users| ==> a[i] == b[i];
    if forall i :: 0 <= i < |users| && users[i].id == id ==> users[i].role == first {
      var c := ChangeRole(users, id, first);
      assert forall i :: 0 <= i < |users| ==> c[i] == users[i];
    }
  }

  /** `handleDeleteUser(id)`, once the dialog is confirmed. */
  function DeleteUser(users: seq<User>, id: int, confirmed: bool): (r: seq<User>)
    ensures !confirmed ==> r == users
    ensures IsSubsequence(r, users)
    ensures confirmed ==> forall i :: 0 <= i < |r| ==> r[i].id != id
    ensures forall i :: 0 <= i < |users| && users[i].id != id ==> users[i] in r
  {
    if confirmed then Filter(users, (u: User) => u.id != id)
    else SubsequenceReflexive(users); users
  }

  /** The invitation form. */
  datatype InviteForm = InviteForm(inviteEmail: string, inviteRole: string, isInviting: bool)

  datatype InviteOutcome = InviteOutcome(form: InviteForm, toast: string)

  /** `handleSendInvite`: an empty e-mail or one the pattern rejects keeps
      the form as it is and shows an error; otherwise the invitation toast
      names the address, and the form is cleared, the role reset to `user`
      and the form closed. */
  function SendInvite(form: InviteForm): (r: InviteOutcome)
    ensures !EmailShaped(form.inviteEmail) <==> r.form == form && r.toast == "Please enter a valid email address"
    ensures EmailShaped(form.inviteEmail) ==>
      r == InviteOutcome(InviteForm("", "user", false), "Invitation sent to " + form.inviteEmail)
  {
    if form.inviteEmail == "" || !EmailShaped(form.inviteEmail) then
      InviteOutcome(form, "Please enter a valid email address")
    else
      InviteOutcome(InviteForm("", "user", false), "Invitation sent to " + form.inviteEmail)
  }
}
