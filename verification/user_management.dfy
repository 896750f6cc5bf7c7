/**
 * The admin's user table: save (edit by merge, or add), delete (admins protected), and search.
 * Each handler's result list is what the component stores in state and writes to `tms_users`.
 */
module UserManagement {
  import opened Optional
  import opened Text
  import opened Collections
  import opened Entities
  import opened AddEditUserModal

  /**
   * `{ ...u, ...data }`: the form's fields override, the stored password survives when the form
   * dropped it, and the id and the verified flag are never touched.
   */
  function Merge(u: User, data: UserPatch): (m: User)
    ensures m.id == u.id && m.verified == u.verified
    ensures m.name == data.name && m.email == data.email && m.role == data.role
    ensures data.password.Some? ==> m.password == data.password
    ensures data.password.None? ==> m.password == u.password
  {
    u.(name := data.name, email := data.email, role := data.role,
       password := if data.password.Some? then data.password else u.password)
  }

  /**
   * `handleSaveUser`. Editing merges the data into exactly the records with the edited id and
   * keeps the length; adding appends one verified record with a fresh id.
   */
  function SaveUser(users: seq<User>, editing: Option<User>, data: UserPatch, now: nat): (r: seq<User>)
    ensures editing.Some? ==>
              && |r| == |users|
              && forall i | 0 <= i < |users| ::
                   r[i] == (if users[i].id == editing.value.id then Merge(users[i], data) else users[i])
    ensures editing.None? ==>
              && |r| == |users| + 1 && r[..|users|] == users
              && r[|users|].id == NewUserId(now) && r[|users|].verified == Some(true)
              && r[|users|].name == data.name && r[|users|].email == data.email
              && r[|users|].role == data.role && r[|users|].password == data.password
  {
    match editing
    case Some(e) => MapWhere(users, UserHasId(e.id), (u: User) => Merge(u, data))
    case None => users + [User(NewUserId(now), data.name, data.email, data.password, data.role, Some(true))]
  }

  /**
   * Editing with the password field left blank keeps every stored password: the form drops the
   * empty field and the merge then leaves the stored one alone.
   */
  lemma BlankPasswordEditKeepsPasswords(users: seq<User>, editing: User, data: UserPatch, now: nat)
    requires data.password.None?
    ensures var r := SaveUser(users, Some(editing), data, now);
            forall i | 0 <= i < |users| :: r[i].password == users[i].password && r[i].id == users[i].id
  {
  }

  /**
   * Opening the form on a user and saving it untouched gives the user back: the prefilled fields
   * are written over themselves and the blank password field leaves the stored one alone. Only a
   * missing role changes, to the customer role the form falls back to.
   */
  lemma UntouchedEditRoundTrip(u: User)
    ensures var f := Prefill(Some(u));
            Merge(u, UserPatch(f.name, f.email, None, f.role))
            == (if u.role != "" then u else u.(role := CustomerRole))
  {
  }

  datatype DeleteResult =
    | NoPending                      // no id awaiting confirmation: nothing happens
    | Forbidden                      // "Action Forbidden" toast, list unchanged
    | Deleted(users: seq<User>)      // list written back without the id

  /** The first record with the pending id is looked up unguarded, so it must exist. */
  ghost predicate DeletableId(users: seq<User>, deletingId: Option<string>) {
    deletingId.Some? && deletingId.value != "" ==>
      exists i | 0 <= i < |users| :: users[i].id == deletingId.value
  }

  /** `u => u.id !== id`. */
  function LacksId(id: string): User -> bool {
    (u: User) => u.id != id
  }

  /**
   * `handleDeleteUser`. An absent or empty pending id does nothing; when the first record with
   * the id is an admin the deletion is refused; otherwise every record with the id is removed.
   */
  function DeleteUser(users: seq<User>, deletingId: Option<string>): (r: DeleteResult)
    requires DeletableId(users, deletingId)
    ensures deletingId.None? || deletingId.value == "" ==> r == NoPending
    ensures deletingId.Some? && deletingId.value != "" ==>
              && r != NoPending
              && (r == Forbidden <==>
                    exists i :: FirstAt(users, UserHasId(deletingId.value), i) && users[i].role == AdminRole)
    ensures r.Deleted? ==>
              && |r.users| < |users|
              && (forall i | 0 <= i < |r.users| :: r.users[i] in users && r.users[i].id != deletingId.value)
              && (forall i | 0 <= i < |users| :: users[i].id != deletingId.value ==> users[i] in r.users)
              && IsSubseq(r.users, users)
              && (forall u: User | u.id != deletingId.value :: multiset(r.users)[u] == multiset(users)[u])
  {
    if deletingId.None? || deletingId.value == "" then NoPending
    else
      var id := deletingId.value;
      match Find(users, UserHasId(id))
      case Some(u) =>
        if u.role == AdminRole then Forbidden
        else
          var w :| 0 <= w < |users| && users[w].id == id;
          FilterShrinks(users, LacksId(id), w);
          var kept := Filter(users, LacksId(id));
          FilterKeepsOrder(users, LacksId(id));
          assert forall u: User | u.id != id :: multiset(kept)[u] == multiset(users)[u] by {
            forall u: User | u.id != id ensures multiset(kept)[u] == multiset(users)[u] {
              assert LacksId(id)(u);
            }
          }
          Deleted(kept)
  }

  /** With unique ids, no deletion ever removes an admin. */
  lemma DeleteKeepsAdmins(users: seq<User>, deletingId: Option<string>)
    requires UniqueIds(users)
    requires DeletableId(users, deletingId)
    ensures var r := DeleteUser(users, deletingId);
            r.Deleted? ==> forall i | 0 <= i < |users| && users[i].role == AdminRole :: users[i] in r.users
  {
    var r := DeleteUser(users, deletingId);
    if r.Deleted? {
      var id := deletingId.value;
      var f :| FirstAt(users, UserHasId(id), f) && users[f].role != AdminRole;
      forall i | 0 <= i < |users| && users[i].role == AdminRole ensures users[i] in r.users {
        assert users[i].id == id ==> i == f;
      }
    }
  }

  /**
   * The admin guard looks only at the first record with the id: when a non-admin record shares
   * its id with a later admin record, deleting that id removes the admin too.
   */
  lemma DuplicateIdDeletesAdmin()
    ensures var driver := User("user-1", "D", "d@x.io", Some("secret"), DriverRole, Some(true));
            var admin := User("user-1", "A", "a@x.io", Some("secret"), AdminRole, Some(true));
            && DeletableId([driver, admin], Some("user-1"))
            && DeleteUser([driver, admin], Some("user-1")) == Deleted([])
  {
    var driver := User("user-1", "D", "d@x.io", Some("secret"), DriverRole, Some(true));
    var admin := User("user-1", "A", "a@x.io", Some("secret"), AdminRole, Some(true));
    assert [driver, admin][0].id == "user-1";
    assert Filter([driver, admin], LacksId("user-1")) == [];
  }

  /** The search test on lower-cased name, email and role. */
  function SearchMatches(term: string): User -> bool {
    (u: User) => Contains(Lower(u.name), Lower(term)) || Contains(Lower(u.email), Lower(term))
                 || Contains(Lower(u.role), Lower(term))
  }

  /**
   * `filteredUsers`: a user is shown exactly when the lower-cased term occurs in its lower-cased
   * name, email or role, in table order and as often as it is stored; the empty term shows
   * everyone.
   */
  function FilteredUsers(users: seq<User>, term: string): (r: seq<User>)
    ensures forall i | 0 <= i < |r| :: r[i] in users && SearchMatches(term)(r[i])
    ensures forall i | 0 <= i < |users| :: SearchMatches(term)(users[i]) ==> users[i] in r
    ensures term == "" ==> r == users
    ensures IsSubseq(r, users)
    ensures forall u | SearchMatches(term)(u) :: multiset(r)[u] == multiset(users)[u]
  {
    FilterKeepsOrder(users, SearchMatches(term));
    if term == "" then
      forall i | 0 <= i < |users| ensures SearchMatches(term)(users[i]) {
        ContainsEmpty(Lower(users[i].name));
      }
      FilterAll(users, SearchMatches(term));
      Filter(users, SearchMatches(term))
    else Filter(users, SearchMatches(term))
  }

  /** Search ignores the case of ASCII letters in the term. */
  lemma SearchCaseInsensitive(users: seq<User>, term: string)
    ensures FilteredUsers(users, Lower(term)) == FilteredUsers(users, term)
  {
    LowerIdempotent(term);
    if term == "" || Lower(term) == "" {
      assert |term| == 0;
    }
    assert SearchMatches(Lower(term)) == SearchMatches(term);
  }
}
