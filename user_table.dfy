/** The user table: the free-text search filter, the column comparators, the
    role filter and the pagination settings. */
module UserTable {
  import opened Common
  import opened Records
  import opened Seqs
  import opened Text
  import UserForm

  /** `user.username.toLowerCase().includes(q) || user.team.toLowerCase().includes(q)`
      with `q` the lowercased search text. */
  predicate Matches(u: UserRecord, searchText: string) {
    Contains(ToLower(u.username), ToLower(searchText)) || Contains(ToLower(u.team), ToLower(searchText))
  }

  function MatchesSearch(searchText: string): UserRecord -> bool {
    u => Matches(u, searchText)
  }

  /** `filteredUsers`, the table's data source. */
  function FilteredUsers(users: seq<UserRecord>, searchText: string): (r: seq<UserRecord>)
    ensures |r| <= |users|
    ensures forall i :: 0 <= i < |r| ==> Matches(r[i], searchText)
  {
    Filter(users, MatchesSearch(searchText))
  }

  /** A user is kept iff the lowercased username or team contains the
      lowercased search text at some position; kept users appear as often
      and in the same relative order as in the input. */
  lemma FilteredUsersSpec(users: seq<UserRecord>, searchText: string)
    ensures var r := FilteredUsers(users, searchText);
      && IsSubsequence(r, users)
      && forall u :: multiset(r)[u] == if Matches(u, searchText) then multiset(users)[u] else 0
    ensures forall u :: Matches(u, searchText) <==>
      (exists i :: OccursAt(ToLower(u.username), ToLower(searchText), i))
      || (exists i :: OccursAt(ToLower(u.team), ToLower(searchText), i))
  {
    FilterIsSubsequence(users, MatchesSearch(searchText));
    FilterCount(users, MatchesSearch(searchText));
    forall u ensures Matches(u, searchText) <==>
      (exists i :: OccursAt(ToLower(u.username), ToLower(searchText), i))
      || (exists i :: OccursAt(ToLower(u.team), ToLower(searchText), i))
    {
      ContainsIff(ToLower(u.username), ToLower(searchText));
      ContainsIff(ToLower(u.team), ToLower(searchText));
    }
  }

  /** The initial, empty search text keeps every user. */
  lemma EmptySearchKeepsAll(users: seq<UserRecord>)
    ensures FilteredUsers(users, "") == users
  {
    forall i | 0 <= i < |users| ensures MatchesSearch("")(users[i]) {
      assert ToLower("") == "";
    }
    FilterKeepsAll(users, MatchesSearch(""));
  }

  /** The Expiration sorter `new Date(a.expiration) - new Date(b.expiration)`;
      an absent expiration makes the difference NaN, here `None`. */
  function ExpirationOrder(a: UserRecord, b: UserRecord): (d: Option<int>)
    ensures d.Some? <==> a.expiration.Some? && b.expiration.Some?
    ensures d.Some? ==> (d.value < 0 <==> a.expiration.value < b.expiration.value)
    ensures d.Some? ==> (d.value == 0 <==> a.expiration.value == b.expiration.value)
  {
    if a.expiration.Some? && b.expiration.Some? then Some(a.expiration.value - b.expiration.value) else None
  }

  /** Swapping the arguments negates the Expiration comparison. */
  lemma ExpirationOrderAntisymmetric(a: UserRecord, b: UserRecord)
    requires a.expiration.Some? && b.expiration.Some?
    ensures ExpirationOrder(b, a) == Some(-ExpirationOrder(a, b).value)
  {
  }

  /** The instant the Last Login sorter compares: `lastLogin || 0`. */
  function LastLoginKey(u: UserRecord): int {
    u.lastLogin.GetOr(0)
  }

  /** The Last Login sorter `new Date(a.lastLogin || 0) - new Date(b.lastLogin || 0)`. */
  function LastLoginOrder(a: UserRecord, b: UserRecord): (d: int)
    ensures d < 0 <==> LastLoginKey(a) < LastLoginKey(b)
    ensures d == 0 <==> LastLoginKey(a) == LastLoginKey(b)
  {
    LastLoginKey(a) - LastLoginKey(b)
  }

  /** A user who never logged in compares as logged in at the epoch: no later
      than anyone whose last login is not before 1970. */
  lemma NeverLoggedInSortsOldest(a: UserRecord, b: UserRecord)
    requires a.lastLogin.None?
    requires b.lastLogin.Some? ==> b.lastLogin.value >= 0
    ensures LastLoginOrder(a, b) <= 0
    ensures b.lastLogin.None? ==> LastLoginOrder(a, b) == 0
  {
  }

  /** Swapping the arguments negates the Last Login comparison. */
  lemma LastLoginOrderAntisymmetric(a: UserRecord, b: UserRecord)
    ensures LastLoginOrder(b, a) == -LastLoginOrder(a, b)
  {
  }

  /** The Last Login comparison is transitive, so it orders the table consistently. */
  lemma LastLoginOrderTransitive(a: UserRecord, b: UserRecord, c: UserRecord)
    requires LastLoginOrder(a, b) <= 0 && LastLoginOrder(b, c) <= 0
    ensures LastLoginOrder(a, c) <= 0
  {
  }

  /** The values the Role column offers as filters. */
  const RoleFilterValues: seq<string> := ["admin", "superadmin"]

  /** The Role column's `onFilter`. */
  predicate RoleFilter(value: string, record: UserRecord) {
    record.role == value
  }

  function HasRole(value: string): UserRecord -> bool {
    u => RoleFilter(value, u)
  }

  /** The rows left when the Role filter is set to one value. */
  function RoleFiltered(users: seq<UserRecord>, value: string): (r: seq<UserRecord>)
    ensures |r| <= |users|
    ensures forall i :: 0 <= i < |r| ==> r[i].role == value
  {
    Filter(users, HasRole(value))
  }

  /** The Role filter keeps exactly the records with the chosen role, in order. */
  lemma RoleFilteredSpec(users: seq<UserRecord>, value: string)
    ensures var r := RoleFiltered(users, value);
      && IsSubsequence(r, users)
      && (forall u :: u in r <==> u in users && u.role == value)
      && forall u: UserRecord :: u.role == value ==> multiset(r)[u] == multiset(users)[u]
  {
    FilterIsSubsequence(users, HasRole(value));
    FilterCount(users, HasRole(value));
  }

  /** The Role filter and the form's role select offer different roles: the
      filter has `superadmin` but no `user`, the select `user` but no
      `superadmin`. So no filter value shows a user created with role `user`. */
  lemma RoleChoicesDiffer(users: seq<UserRecord>, value: string)
    requires value in RoleFilterValues
    ensures forall r :: r in RoleFilterValues && r in UserForm.RoleOptions <==> r == "admin"
    ensures "superadmin" in RoleFilterValues && "superadmin" !in UserForm.RoleOptions
    ensures "user" in UserForm.RoleOptions && "user" !in RoleFilterValues
    ensures forall i :: 0 <= i < |RoleFiltered(users, value)| ==> RoleFiltered(users, value)[i].role != "user"
  {
  }

  /** The table's pagination settings. */
  datatype Pagination = Pagination(pageSize: nat, total: nat, showSizeChanger: bool, showQuickJumper: bool)

  datatype TableView = TableView(rows: seq<UserRecord>, pagination: Pagination)

  /** The table as rendered for the given users, search text and layout. */
  function View(users: seq<UserRecord>, searchText: string, isMobile: bool): (v: TableView)
    ensures v.rows == FilteredUsers(users, searchText)
    ensures v.pagination.pageSize == if isMobile then 10 else 20
    ensures v.pagination.total == |v.rows| <= |users|
    ensures v.pagination.showSizeChanger == v.pagination.showQuickJumper == !isMobile
  {
    var rows := FilteredUsers(users, searchText);
    TableView(rows, Pagination(if isMobile then 10 else 20, |rows|, !isMobile, !isMobile))
  }
}
