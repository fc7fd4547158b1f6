/** The user-management page (src/pages/Users.tsx): the user records, the
    search-and-filter that selects the rows of the table, the tallies of the
    statistics cards, and the labels, colours and actions shown per user. */
module Users {
  import opened Collections
  import opened Text

  datatype Role = Admin | Partenaire | Dirigeant | Utilisateur
  datatype UserStatus = Active | Pending | Suspended

  /** The string the source stores for a role. */
  function RoleName(role: Role): string
  {
    match role
    case Admin => "Admin"
    case Partenaire => "Partenaire"
    case Dirigeant => "Dirigeant"
    case Utilisateur => "Utilisateur"
  }

  /** The string the source stores for a status. */
  function StatusName(status: UserStatus): string
  {
    match status
    case Active => "active"
    case Pending => "pending"
    case Suspended => "suspended"
  }

  /** Distinct statuses are stored as distinct strings, so a status filter
      selects exactly one status. */
  lemma StatusNamesDistinct(a: UserStatus, b: UserStatus)
    ensures StatusName(a) == StatusName(b) <==> a == b
  {
  }

  /** Distinct roles are stored as distinct strings, so a role filter selects
      exactly one role. */
  lemma RoleNamesDistinct(a: Role, b: Role)
    ensures RoleName(a) == RoleName(b) <==> a == b
  {
  }

  datatype User = User(
    id: string,
    name: string,
    email: string,
    role: Role,
    status: UserStatus,
    lastLogin: string,
    avatar: Option<string>)

  // ---------------------------------------------------------------------------
  // Search and filters

  /** The search box and the two selects; "all" is the wildcard of a select. */
  datatype UserQuery = UserQuery(searchTerm: string, roleFilter: string, statusFilter: string)

  /** The page's initial query: empty search, every role, every status. */
  const DefaultQuery := UserQuery("", "all", "all")

  /** The search box: a user is found exactly when the typed term, ignoring ASCII
      case, occurs somewhere in the name or somewhere in the e-mail; an empty term
      finds everyone. */
  function MatchesSearch(user: User, term: string): (r: bool)
    ensures r <==>
      (exists i :: OccursAt(ToLower(user.name), ToLower(term), i)) ||
      (exists i :: OccursAt(ToLower(user.email), ToLower(term), i))
    ensures term == "" ==> r
  {
    IncludesIgnoringCase(user.name, term) || IncludesIgnoringCase(user.email, term)
  }

  /** The role select: "all" lets every user through, the name of a role lets
      exactly the users of that role through, anything else lets no one through. */
  function MatchesRole(user: User, roleFilter: string): (r: bool)
    ensures roleFilter == "all" ==> r
    ensures forall role :: roleFilter == RoleName(role) ==> (r <==> user.role == role)
    ensures roleFilter != "all" && (forall role :: roleFilter != RoleName(role)) ==> !r
  {
    roleFilter == "all" || RoleName(user.role) == roleFilter
  }

  /** The status select: "all" lets every user through, the name of a status
      lets exactly the users with that status through, anything else lets no one
      through. */
  function MatchesStatus(user: User, statusFilter: string): (r: bool)
    ensures statusFilter == "all" ==> r
    ensures forall status :: statusFilter == StatusName(status) ==> (r <==> user.status == status)
    ensures statusFilter != "all" && (forall status :: statusFilter != StatusName(status)) ==> !r
  {
    statusFilter == "all" || StatusName(user.status) == statusFilter
  }

  /** The predicate handed to `users.filter`: all three tests at once; the
      initial query lets every user through. */
  function Matches(q: UserQuery): (keep: User -> bool)
    ensures forall u :: keep(u) ==> MatchesSearch(u, q.searchTerm) && MatchesRole(u, q.roleFilter) && MatchesStatus(u, q.statusFilter)
    ensures forall u :: MatchesSearch(u, q.searchTerm) && MatchesRole(u, q.roleFilter) && MatchesStatus(u, q.statusFilter) ==> keep(u)
    ensures q == DefaultQuery ==> forall u :: keep(u)
  {
    (u: User) => MatchesSearch(u, q.searchTerm) && MatchesRole(u, q.roleFilter) && MatchesStatus(u, q.statusFilter)
  }

  /** Typing a user's full name or full e-mail always finds that user. */
  lemma SearchFindsOwnNameAndEmail(user: User)
    ensures MatchesSearch(user, user.name) && MatchesSearch(user, user.email)
  {
    IncludesItself(ToLower(user.name));
    IncludesItself(ToLower(user.email));
    assert IncludesIgnoringCase(user.name, user.name);
  }

  /** `filteredUsers`: the users that pass all three tests, in table order. */
  function FilteredUsers(users: seq<User>, q: UserQuery): (r: seq<User>)
    ensures SubsequenceOf(r, users) && |r| <= |users|
    ensures forall u :: u in r <==>
      u in users && MatchesSearch(u, q.searchTerm) && MatchesRole(u, q.roleFilter) && MatchesStatus(u, q.statusFilter)
    ensures q.searchTerm == "" ==> forall u :: u in users && MatchesRole(u, q.roleFilter) && MatchesStatus(u, q.statusFilter) ==> u in r
    ensures q.roleFilter != "all" ==> forall u :: u in r ==> RoleName(u.role) == q.roleFilter
    ensures q.statusFilter != "all" ==> forall u :: u in r ==> StatusName(u.status) == q.statusFilter
    ensures q == DefaultQuery ==> r == users
    ensures forall u :: multiset(r)[u] == if Matches(q)(u) then multiset(users)[u] else 0
  {
    FilterIsSubsequence(users, Matches(q));
    FilterMultiset(users, Matches(q));
    Filter(users, Matches(q))
  }

  // ---------------------------------------------------------------------------
  // Tallies

  function HasStatus(status: UserStatus): User -> bool
  {
    (u: User) => u.status == status
  }

  /** `users.filter(u => u.status === ...).length`. */
  function CountStatus(users: seq<User>, status: UserStatus): (n: nat)
    ensures n <= |users|
    ensures n == 0 <==> forall u :: u in users ==> u.status != status
  {
    var kept := Filter(users, HasStatus(status));
    assert kept != [] ==> kept[0] in kept;
    |kept|
  }

  /** The "Actifs", "En attente" and "Suspendus" cards add up to the "Total" card. */
  lemma {:induction false} StatusCountsSum(users: seq<User>)
    ensures CountStatus(users, Active) + CountStatus(users, Pending) + CountStatus(users, Suspended) == |users|
  {
    if users != [] {
      StatusCountsSum(users[1..]);
    }
  }

  // ---------------------------------------------------------------------------
  // Labels, colours, actions

  const StatusNames: seq<string> := ["active", "pending", "suspended"]

  /** The text of `getStatusBadge(status)`. */
  function StatusLabel(status: string): (text: string)
    ensures status !in StatusNames ==> text == status
    ensures status in StatusNames ==> text != status && text in ["Actif", "En attente", "Suspendu"]
  {
    match status
    case "active" => "Actif"
    case "pending" => "En attente"
    case "suspended" => "Suspendu"
    case _ => status
  }

  /** Distinct statuses get distinct badges. */
  lemma StatusLabelsDistinct(a: UserStatus, b: UserStatus)
    ensures StatusLabel(StatusName(a)) == StatusLabel(StatusName(b)) <==> a == b
  {
  }

  /** The options of the status select, as (value, text). */
  const StatusFilterOptions: seq<(string, string)> :=
    [("all", "Tous les statuts"), ("active", "Actif"), ("pending", "En attente"), ("suspended", "Suspendu")]

  /** Every status the select offers is shown with the same text as its badge. */
  lemma StatusBadgesMatchFilterOptions()
    ensures forall i :: 1 <= i < |StatusFilterOptions| ==>
      StatusLabel(StatusFilterOptions[i].0) == StatusFilterOptions[i].1
  {
  }

  /** `getRoleColor(role)`. */
  function RoleColor(role: string): (color: string)
    ensures role !in ["Admin", "Dirigeant", "Partenaire"] ==> color == "text-muted-foreground"
    ensures role in ["Admin", "Dirigeant", "Partenaire"] ==> color != "text-muted-foreground"
  {
    match role
    case "Admin" => "text-destructive"
    case "Dirigeant" => "text-primary"
    case "Partenaire" => "text-warning"
    case _ => "text-muted-foreground"
  }

  /** The three privileged roles have three different colours: an Admin is drawn
      in the destructive colour, a Dirigeant in the primary one, a Partenaire in
      the warning one; a plain "Utilisateur" is drawn muted. */
  lemma RoleColorsOfRoles()
    ensures RoleColor(RoleName(Admin)) != RoleColor(RoleName(Dirigeant))
    ensures RoleColor(RoleName(Admin)) != RoleColor(RoleName(Partenaire))
    ensures RoleColor(RoleName(Dirigeant)) != RoleColor(RoleName(Partenaire))
    ensures RoleColor(RoleName(Admin)) == "text-destructive"
    ensures RoleColor(RoleName(Dirigeant)) == "text-primary"
    ensures RoleColor(RoleName(Partenaire)) == "text-warning"
    ensures RoleColor(RoleName(Utilisateur)) == "text-muted-foreground"
  {
  }

  /** The last entry of a user's action menu: an active user can be suspended,
      anyone else can be activated. */
  function StatusAction(status: UserStatus): (action: string)
    ensures action == "Suspendre" <==> status == Active
    ensures action == "Activer" <==> status != Active
  {
    if status == Active then "Suspendre" else "Activer"
  }
}
