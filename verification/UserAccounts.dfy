/**
  Account commands over users, username reservations, credentials and command intents
  (`performSetUserAccount`). Each command is one transaction.
 */
module UserAccounts {
  import opened Wrappers

  datatype Role = Staff | Manager | Admin

  /** Ids derived from an idempotency key never meet ids that were given; both hashes are injective. */
  datatype UserId = FromKey(key: string) | Given(id: string)

  datatype Profile = Profile(firstName: string, lastName: string, role: Role, branchIds: seq<string>,
                             permissions: string)

  datatype User = User(profile: Profile, username: string, isActive: bool, authVersion: nat, deleted: bool)

  /** What the create hash covers; branch order does not matter. */
  datatype Payload = Payload(
    username: string, firstName: string, lastName: string, role: Role,
    branchIds: multiset<string>, permissions: string, isActive: bool)

  datatype CreateIntent = CreateIntent(payload: Payload, userId: UserId)

  datatype RotateIntent = RotateIntent(userId: UserId, reason: string, credentialVersion: nat, authVersion: nat)

  datatype Marker = Marker(complete: bool, maintenance: bool)

  datatype Accounts = Accounts(
    users: map<UserId, User>,
    names: map<string, UserId>,
    credentials: map<UserId, nat>,
    creates: map<string, CreateIntent>,
    rotates: map<string, RotateIntent>,
    marker: Marker)

  datatype Actor = OperatorCli | StaffActor(staffId: UserId, authVersion: nat, cleared: Option<UserId>)

  datatype Command =
    | Create(key: string, username: string, profile: Profile, isActive: bool, pin: string)
    | Rotate(key: string, target: UserId, reason: string, pin: string)
    | UpdateProfile(target: UserId, firstName: Option<string>, lastName: Option<string>, role: Option<Role>,
                    branchIds: Option<seq<string>>, permissions: Option<string>)
    | SetActive(target: UserId, isActive: bool)
    | SoftDelete(target: UserId)
    | Rename(target: UserId, newUsername: string)

  datatype Status =
    | Created | DuplicateConfirmed | Updated | Rotated
    | ConflictRequiresManualReview | UsernameReservationConflict | UnexpectedExistingResource
    | MaintenanceBlocked | ReservationsIncomplete | Unauthorized
    | ProtectedAdminTarget | ProtectedAccountTarget | NotFound | InvalidArgument

  datatype Outcome = Outcome(state: Accounts, status: Status)

  // --- usernames ------------------------------------------------------------------------------

  function LowerChar(c: char): char {
    if 'A' <= c <= 'Z' then c - 'A' + 'a' else c
  }

  function Lower(s: string): string {
    if s == "" then "" else [LowerChar(s[0])] + Lower(s[1..])
  }

  predicate IsSpace(c: char) {
    c == ' ' || c == '\t' || c == '\n' || c == '\r'
  }

  function Trim(s: string): string {
    if s == "" then ""
    else if IsSpace(s[0]) then Trim(s[1..])
    else if IsSpace(s[|s| - 1]) then Trim(s[..|s| - 1])
    else s
  }

  function Normalize(raw: string): string {
    Lower(Trim(raw))
  }

  ghost predicate Trimmed(s: string) {
    s == "" || (!IsSpace(s[0]) && !IsSpace(s[|s| - 1]))
  }

  lemma {:induction false} TrimTrims(s: string)
    ensures Trimmed(Trim(s))
  {
    if s != "" {
      if IsSpace(s[0]) {
        TrimTrims(s[1..]);
      } else if IsSpace(s[|s| - 1]) {
        TrimTrims(s[..|s| - 1]);
      }
    }
  }

  lemma {:induction false} LowerAt(s: string)
    ensures |Lower(s)| == |s|
    ensures forall i :: 0 <= i < |s| ==> Lower(s)[i] == LowerChar(s[i])
  {
    if s != "" {
      LowerAt(s[1..]);
    }
  }

  /** A normalized name normalizes to itself. */
  lemma NormalizeIdempotent(raw: string)
    ensures Normalize(Normalize(raw)) == Normalize(raw)
  {
    var n := Normalize(raw);
    TrimTrims(raw);
    LowerAt(Trim(raw));
    assert Trim(n) == n;
    LowerAt(n);
    assert Lower(n) == n;
  }

  // --- guards -----------------------------------------------------------------------------------

  predicate ActorAllowed(a: Accounts, actor: Actor) {
    match actor
    case OperatorCli => true
    case StaffActor(staffId, authVersion, _) =>
      && staffId in a.users
      && a.users[staffId].isActive && !a.users[staffId].deleted
      && a.users[staffId].profile.role == Admin
      && a.users[staffId].authVersion == authVersion
  }

  function TargetRefusal(actor: Actor, target: UserId, live: User, resultingRole: Option<Role>): Option<Status> {
    if actor.OperatorCli? then None
    else if actor.cleared == Some(target) then None
    else if live.profile.role == Admin || resultingRole == Some(Admin) then Some(ProtectedAdminTarget)
    else Some(ProtectedAccountTarget)
  }

  predicate IsPin(pin: string) {
    |pin| == 4 && forall i :: 0 <= i < 4 ==> '0' <= pin[i] <= '9'
  }

  predicate IsBlank(target: UserId) {
    target.Given? && Trim(target.id) == ""
  }

  // --- the transactions, as values -----------------------------------------------------------------

  function PayloadOf(c: Command): Payload
    requires c.Create?
  {
    Payload(Normalize(c.username), Trim(c.profile.firstName), Trim(c.profile.lastName), c.profile.role,
            multiset(c.profile.branchIds), c.profile.permissions, c.isActive)
  }

  function NewUser(c: Command): User
    requires c.Create?
  {
    User(c.profile.(firstName := Trim(c.profile.firstName), lastName := Trim(c.profile.lastName)),
         Normalize(c.username), c.isActive, 0, false)
  }

  function HandleCreate(a: Accounts, c: Command): Outcome
    requires c.Create?
  {
    var username, userId := Normalize(c.username), FromKey(c.key);
    if !IsPin(c.pin) || username == "" then Outcome(a, InvalidArgument)
    else if c.key in a.creates then
      Outcome(a, if a.creates[c.key].payload == PayloadOf(c) then DuplicateConfirmed else ConflictRequiresManualReview)
    else if userId in a.users then Outcome(a, UnexpectedExistingResource)
    else if !a.marker.complete then Outcome(a, ReservationsIncomplete)
    else if a.marker.maintenance then Outcome(a, MaintenanceBlocked)
    else if username in a.names then Outcome(a, UsernameReservationConflict)
    else
      Outcome(a.(users := a.users[userId := NewUser(c)], names := a.names[username := userId],
                 credentials := a.credentials[userId := 0],
                 creates := a.creates[c.key := CreateIntent(PayloadOf(c), userId)]), Created)
  }

  function CredentialVersion(a: Accounts, target: UserId): nat {
    if target in a.credentials then a.credentials[target] else 0
  }

  function Bumped(u: User): User {
    u.(authVersion := u.authVersion + 1)
  }

  function HandleRotate(a: Accounts, actor: Actor, c: Command): Outcome
    requires c.Rotate?
  {
    if !IsPin(c.pin) || IsBlank(c.target) then Outcome(a, InvalidArgument)
    else if c.key in a.rotates then
      Outcome(a, if a.rotates[c.key].userId == c.target && a.rotates[c.key].reason == c.reason then DuplicateConfirmed
                 else ConflictRequiresManualReview)
    else if c.target !in a.users then Outcome(a, NotFound)
    else
      var live := a.users[c.target];
      var refusal := TargetRefusal(actor, c.target, live, None);
      if refusal.Some? then Outcome(a, refusal.value)
      else
        var version := CredentialVersion(a, c.target) + 1;
        Outcome(a.(users := a.users[c.target := Bumped(live)], credentials := a.credentials[c.target := version],
                   rotates := a.rotates[c.key := RotateIntent(c.target, c.reason, version, live.authVersion + 1)]),
                Rotated)
  }

  function Or<T>(o: Option<T>, otherwise: T): T {
    if o.Some? then o.value else otherwise
  }

  function PatchedProfile(p: Profile, c: Command): Profile
    requires c.UpdateProfile?
  {
    Profile(if c.firstName.Some? then Trim(c.firstName.value) else p.firstName,
            if c.lastName.Some? then Trim(c.lastName.value) else p.lastName,
            Or(c.role, p.role), Or(c.branchIds, p.branchIds), Or(c.permissions, p.permissions))
  }

  /** The record a profile, activity or delete command leaves; the name is not theirs to change. */
  function Changed(u: User, c: Command): User
    requires c.UpdateProfile? || c.SetActive? || c.SoftDelete?
  {
    match c
    case UpdateProfile(_, _, _, _, _, _) => Bumped(u).(profile := PatchedProfile(u.profile, c))
    case SetActive(_, isActive) => Bumped(u).(isActive := isActive)
    case SoftDelete(_) => Bumped(u).(deleted := true, isActive := false)
  }

  function Released(names: map<string, UserId>, name: string, owner: UserId): map<string, UserId> {
    if name != "" && name in names && names[name] == owner then names - {name} else names
  }

  function HandleChange(a: Accounts, actor: Actor, c: Command): Outcome
    requires c.UpdateProfile? || c.SetActive? || c.SoftDelete?
  {
    if IsBlank(c.target) then Outcome(a, InvalidArgument)
    else if c.target !in a.users then Outcome(a, NotFound)
    else
      var live := a.users[c.target];
      var refusal := TargetRefusal(actor, c.target, live, if c.UpdateProfile? then c.role else None);
      if refusal.Some? then Outcome(a, refusal.value)
      else
        Outcome(a.(users := a.users[c.target := Changed(live, c)],
                   names := if c.SoftDelete? then Released(a.names, Normalize(live.username), c.target)
                            else a.names),
                Updated)
  }

  /** The old name given up if it was the target's, the new one taken. */
  function Renamed(a: Accounts, target: UserId, current: string, name: string): Accounts
    requires target in a.users
  {
    a.(users := a.users[target := Bumped(a.users[target]).(username := name)],
       names := Released(a.names, current, target)[name := target])
  }

  function HandleRename(a: Accounts, actor: Actor, c: Command): Outcome
    requires c.Rename?
  {
    var name := Normalize(c.newUsername);
    if IsBlank(c.target) || name == "" then Outcome(a, InvalidArgument)
    else if !a.marker.complete then Outcome(a, ReservationsIncomplete)
    else if a.marker.maintenance then Outcome(a, MaintenanceBlocked)
    else if c.target !in a.users then Outcome(a, NotFound)
    else
      var live := a.users[c.target];
      var refusal := TargetRefusal(actor, c.target, live, None);
      var current := Normalize(live.username);
      if refusal.Some? then Outcome(a, refusal.value)
      else if current == name then Outcome(a, Updated)
      else if name in a.names then Outcome(a, UsernameReservationConflict)
      else
        Outcome(Renamed(a, c.target, current, name), Updated)
  }

  function Handle(a: Accounts, actor: Actor, c: Command): Outcome {
    if !ActorAllowed(a, actor) then Outcome(a, Unauthorized)
    else
      match c
      case Create(_, _, _, _, _) => HandleCreate(a, c)
      case Rotate(_, _, _, _) => HandleRotate(a, actor, c)
      case Rename(_, _) => HandleRename(a, actor, c)
      case _ => HandleChange(a, actor, c)
  }

  // --- the documents in place -------------------------------------------------------------------------

  class AccountDocs {
    var users: map<UserId, User>
    var names: map<string, UserId>
    var credentials: map<UserId, nat>
    var creates: map<string, CreateIntent>
    var rotates: map<string, RotateIntent>
    var marker: Marker

    function View(): Accounts
      reads this
    {
      Accounts(users, names, credentials, creates, rotates, marker)
    }

    constructor (a: Accounts)
      ensures View() == a
    {
      users, names, credentials, creates, rotates, marker :=
        a.users, a.names, a.credentials, a.creates, a.rotates, a.marker;
    }

    method CreateAccount(c: Command) returns (status: Status)
      requires c.Create?
      modifies this
      ensures Outcome(View(), status) == HandleCreate(old(View()), c)
    {
      if !IsPin(c.pin) { return InvalidArgument; }
      var username := Normalize(c.username);
      if username == "" { return InvalidArgument; }
      var userId := FromKey(c.key);
      if c.key in creates {
        if creates[c.key].payload == PayloadOf(c) { return DuplicateConfirmed; }
        return ConflictRequiresManualReview;
      }
      if userId in users { return UnexpectedExistingResource; }
      if !marker.complete { return ReservationsIncomplete; }
      if marker.maintenance { return MaintenanceBlocked; }
      if username in names { return UsernameReservationConflict; }
      users := users[userId := NewUser(c)];
      credentials := credentials[userId := 0];
      names := names[username := userId];
      creates := creates[c.key := CreateIntent(PayloadOf(c), userId)];
      return Created;
    }

    method RotatePin(actor: Actor, c: Command) returns (status: Status)
      requires c.Rotate?
      modifies this
      ensures Outcome(View(), status) == HandleRotate(old(View()), actor, c)
    {
      if !IsPin(c.pin) || IsBlank(c.target) { return InvalidArgument; }
      if c.key in rotates {
        if rotates[c.key].userId == c.target && rotates[c.key].reason == c.reason { return DuplicateConfirmed; }
        return ConflictRequiresManualReview;
      }
      if c.target !in users { return NotFound; }
      var live := users[c.target];
      var refusal := TargetRefusal(actor, c.target, live, None);
      if refusal.Some? { return refusal.value; }
      var version := (if c.target in credentials then credentials[c.target] else 0) + 1;
      credentials := credentials[c.target := version];
      users := users[c.target := live.(authVersion := live.authVersion + 1)];
      rotates := rotates[c.key := RotateIntent(c.target, c.reason, version, live.authVersion + 1)];
      return Rotated;
    }

    /** Profile, activity and soft delete. */
    method ChangeAccount(actor: Actor, c: Command) returns (status: Status)
      requires c.UpdateProfile? || c.SetActive? || c.SoftDelete?
      modifies this
      ensures Outcome(View(), status) == HandleChange(old(View()), actor, c)
    {
      if IsBlank(c.target) { return InvalidArgument; }
      if c.target !in users { return NotFound; }
      var live := users[c.target];
      var refusal := TargetRefusal(actor, c.target, live, if c.UpdateProfile? then c.role else None);
      if refusal.Some? { return refusal.value; }
      users := users[c.target := Changed(live, c)];
      if c.SoftDelete? {
        var username := Normalize(live.username);
        if username != "" && username in names && names[username] == c.target {
          names := names - {username};
        }
      }
      return Updated;
    }

    method RenameAccount(actor: Actor, c: Command) returns (status: Status)
      requires c.Rename?
      modifies this
      ensures Outcome(View(), status) == HandleRename(old(View()), actor, c)
    {
      var name := Normalize(c.newUsername);
      if IsBlank(c.target) || name == "" { return InvalidArgument; }
      if !marker.complete { return ReservationsIncomplete; }
      if marker.maintenance { return MaintenanceBlocked; }
      if c.target !in users { return NotFound; }
      var live := users[c.target];
      var refusal := TargetRefusal(actor, c.target, live, None);
      if refusal.Some? { return refusal.value; }
      var current := Normalize(live.username);
      if current == name { return Updated; }
      if name in names { return UsernameReservationConflict; }
      if current != "" && current in names && names[current] == c.target {
        names := names - {current};
      }
      names := names[name := c.target];
      users := users[c.target := live.(authVersion := live.authVersion + 1, username := name)];
      return Updated;
    }

    method PerformSetUserAccount(actor: Actor, c: Command) returns (status: Status)
      modifies this
      ensures Outcome(View(), status) == Handle(old(View()), actor, c)
    {
      if !ActorAllowed(View(), actor) { return Unauthorized; }
      match c
      case Create(_, _, _, _, _) => status := CreateAccount(c);
      case Rotate(_, _, _, _) => status := RotatePin(actor, c);
      case Rename(_, _) => status := RenameAccount(actor, c);
      case _ => status := ChangeAccount(actor, c);
    }
  }

  // --- runs ---------------------------------------------------------------------------------------------

  datatype Step = Perform(actor: Actor, command: Command) | SetMarker(marker: Marker)

  function After(a: Accounts, s: Step): Accounts {
    match s
    case Perform(actor, command) => Handle(a, actor, command).state
    case SetMarker(marker) => a.(marker := marker)
  }

  function Run(a: Accounts, steps: seq<Step>): Accounts {
    if steps == [] then a else After(Run(a, steps[..|steps| - 1]), steps[|steps| - 1])
  }

  type Users = map<UserId, User>

  type Names = map<string, UserId>

  ghost predicate IsName(n: string) {
    n != "" && Normalize(n) == n
  }

  ghost predicate NamesNormal(users: Users) {
    forall u :: u in users ==> IsName(users[u].username)
  }

  /** Every non-deleted user owns the reservation of its current username. */
  ghost predicate LiveOwnNames(users: Users, names: Names) {
    forall u :: u in users && !users[u].deleted ==> users[u].username in names && names[users[u].username] == u
  }

  /** Every reservation is held by the user currently named so. */
  ghost predicate NamesHaveHolders(users: Users, names: Names) {
    forall n :: n in names ==> names[n] in users && users[names[n]].username == n
  }

  ghost predicate Reserved(users: Users, names: Names) {
    LiveOwnNames(users, names) && NamesHaveHolders(users, names)
  }

  /** Every create that went through left its user. */
  ghost predicate CreatesKept(users: Users, creates: map<string, CreateIntent>) {
    forall k :: k in creates ==> creates[k].userId == FromKey(k) && FromKey(k) in users
  }

  ghost predicate WellFormed(a: Accounts) {
    NamesNormal(a.users) && Reserved(a.users, a.names) && CreatesKept(a.users, a.creates)
  }

  lemma ReserveNew(users: Users, names: Names, u: UserId, user: User)
    requires Reserved(users, names) && u !in users && user.username !in names
    ensures Reserved(users[u := user], names[user.username := u])
  {
  }

  lemma ReserveSame(users: Users, names: Names, u: UserId, user: User)
    requires Reserved(users, names) && u in users
    requires user.username == users[u].username && (users[u].deleted ==> user.deleted)
    ensures Reserved(users[u := user], names)
  {
  }

  lemma ReserveRelease(users: Users, names: Names, u: UserId, user: User)
    requires Reserved(users, names) && u in users && user.username == users[u].username && user.deleted
    ensures Reserved(users[u := user], Released(names, users[u].username, u))
  {
  }

  lemma ReserveRenamed(users: Users, names: Names, u: UserId, user: User)
    requires Reserved(users, names) && u in users && user.deleted == users[u].deleted
    requires users[u].username != "" && user.username !in names
    ensures Reserved(users[u := user], Released(names, users[u].username, u)[user.username := u])
  {
  }

  lemma NormalKept(users: Users, u: UserId, user: User)
    requires NamesNormal(users) && IsName(user.username)
    ensures NamesNormal(users[u := user])
  {
  }

  lemma NormalizedIsName(raw: string)
    requires Normalize(raw) != ""
    ensures IsName(Normalize(raw))
  {
    NormalizeIdempotent(raw);
  }

  lemma UsernameIsName(users: Users, u: UserId)
    requires NamesNormal(users) && u in users
    ensures IsName(users[u].username) && Normalize(users[u].username) == users[u].username != ""
  {
  }

  lemma CreatedKeeps(a: Accounts, key: string, user: User, payload: Payload)
    requires WellFormed(a) && FromKey(key) !in a.users && user.username !in a.names && IsName(user.username)
    ensures WellFormed(a.(users := a.users[FromKey(key) := user], names := a.names[user.username := FromKey(key)],
                          credentials := a.credentials[FromKey(key) := 0],
                          creates := a.creates[key := CreateIntent(payload, FromKey(key))]))
  {
    NormalKept(a.users, FromKey(key), user);
    ReserveNew(a.users, a.names, FromKey(key), user);
  }

  lemma CreateKeeps(a: Accounts, c: Command)
    requires WellFormed(a) && c.Create?
    ensures WellFormed(HandleCreate(a, c).state)
  {
    if HandleCreate(a, c).status == Created {
      NormalizedIsName(c.username);
      CreatedKeeps(a, c.key, NewUser(c), PayloadOf(c));
    }
  }

  lemma RotateKeeps(a: Accounts, actor: Actor, c: Command)
    requires WellFormed(a) && c.Rotate?
    ensures WellFormed(HandleRotate(a, actor, c).state)
  {
    if HandleRotate(a, actor, c).status == Rotated {
      UsernameIsName(a.users, c.target);
      NormalKept(a.users, c.target, Bumped(a.users[c.target]));
      ReserveSame(a.users, a.names, c.target, Bumped(a.users[c.target]));
    }
  }

  lemma ChangeKeeps(a: Accounts, actor: Actor, c: Command)
    requires WellFormed(a) && (c.UpdateProfile? || c.SetActive? || c.SoftDelete?)
    ensures WellFormed(HandleChange(a, actor, c).state)
  {
    if HandleChange(a, actor, c).status == Updated {
      var live := a.users[c.target];
      UsernameIsName(a.users, c.target);
      NormalKept(a.users, c.target, Changed(live, c));
      if c.SoftDelete? {
        ReserveRelease(a.users, a.names, c.target, Changed(live, c));
      } else {
        ReserveSame(a.users, a.names, c.target, Changed(live, c));
      }
    }
  }

  lemma RenamedKeeps(a: Accounts, target: UserId, name: string)
    requires WellFormed(a) && target in a.users && IsName(name) && name !in a.names
    ensures WellFormed(Renamed(a, target, a.users[target].username, name))
  {
    var user := Bumped(a.users[target]).(username := name);
    UsernameIsName(a.users, target);
    NormalKept(a.users, target, user);
    ReserveRenamed(a.users, a.names, target, user);
  }

  lemma RenameOutcome(a: Accounts, actor: Actor, c: Command)
    requires c.Rename? && HandleRename(a, actor, c).state != a
    ensures c.target in a.users && Normalize(c.newUsername) != "" && Normalize(c.newUsername) !in a.names
    ensures HandleRename(a, actor, c).state
            == Renamed(a, c.target, Normalize(a.users[c.target].username), Normalize(c.newUsername))
  {
  }

  lemma RenameKeeps(a: Accounts, actor: Actor, c: Command)
    requires WellFormed(a) && c.Rename?
    ensures WellFormed(HandleRename(a, actor, c).state)
  {
    if HandleRename(a, actor, c).state != a {
      RenameOutcome(a, actor, c);
      UsernameIsName(a.users, c.target);
      NormalizedIsName(c.newUsername);
      RenamedKeeps(a, c.target, Normalize(c.newUsername));
    }
  }

  lemma StepKeeps(a: Accounts, s: Step)
    requires WellFormed(a)
    ensures WellFormed(After(a, s))
  {
    if s.Perform? && ActorAllowed(a, s.actor) {
      if s.command.Create? {
        CreateKeeps(a, s.command);
      } else if s.command.Rotate? {
        RotateKeeps(a, s.actor, s.command);
      } else if s.command.Rename? {
        RenameKeeps(a, s.actor, s.command);
      } else {
        ChangeKeeps(a, s.actor, s.command);
      }
    }
  }

  lemma {:induction false} RunKeeps(a: Accounts, steps: seq<Step>)
    requires WellFormed(a)
    ensures WellFormed(Run(a, steps))
  {
    if steps != [] {
      RunKeeps(a, steps[..|steps| - 1]);
      StepKeeps(Run(a, steps[..|steps| - 1]), steps[|steps| - 1]);
    }
  }

  /** After any run, each non-deleted user owns its name and no two share one. */
  lemma NamesNeverShared(a: Accounts, steps: seq<Step>, u: UserId, v: UserId)
    requires WellFormed(a)
    requires u in Run(a, steps).users && v in Run(a, steps).users
    requires !Run(a, steps).users[u].deleted && !Run(a, steps).users[v].deleted
    ensures var r := Run(a, steps);
            && r.users[u].username in r.names && r.names[r.users[u].username] == u
            && (r.users[u].username == r.users[v].username ==> u == v)
  {
    RunKeeps(a, steps);
  }

  // --- deleted users ---------------------------------------------------------------------------------------

  /** Records are only ever replaced, never removed, revived or rolled back. */
  ghost predicate UserKept(before: Users, after: Users, u: UserId) {
    u in before ==>
      && u in after
      && (before[u].deleted ==> after[u].deleted)
      && before[u].authVersion <= after[u].authVersion
  }

  lemma CreateKeepsUser(a: Accounts, c: Command, u: UserId)
    requires c.Create?
    ensures UserKept(a.users, HandleCreate(a, c).state.users, u)
  {
  }

  lemma RotateKeepsUser(a: Accounts, actor: Actor, c: Command, u: UserId)
    requires c.Rotate?
    ensures UserKept(a.users, HandleRotate(a, actor, c).state.users, u)
  {
  }

  lemma RenameKeepsUser(a: Accounts, actor: Actor, c: Command, u: UserId)
    requires c.Rename?
    ensures UserKept(a.users, HandleRename(a, actor, c).state.users, u)
  {
  }

  lemma ChangeKeepsUser(a: Accounts, actor: Actor, c: Command, u: UserId)
    requires c.UpdateProfile? || c.SetActive? || c.SoftDelete?
    ensures UserKept(a.users, HandleChange(a, actor, c).state.users, u)
  {
  }

  lemma StepKeepsUser(a: Accounts, s: Step, u: UserId)
    ensures UserKept(a.users, After(a, s).users, u)
  {
    if s.Perform? && ActorAllowed(a, s.actor) {
      if s.command.Create? {
        CreateKeepsUser(a, s.command, u);
      } else if s.command.Rotate? {
        RotateKeepsUser(a, s.actor, s.command, u);
      } else if s.command.Rename? {
        RenameKeepsUser(a, s.actor, s.command, u);
      } else {
        ChangeKeepsUser(a, s.actor, s.command, u);
      }
    }
  }

  /** Only a rename of a deleted user makes a deleted user hold a name. */
  ghost predicate NamesOfLiveOnly(users: Users, names: Names) {
    forall n :: n in names ==> names[n] in users && !users[names[n]].deleted
  }

  /** What lets a rename through, all of it readable before the call. */
  predicate RenameAllowed(a: Accounts, actor: Actor, c: Command)
    requires c.Rename?
  {
    && ActorAllowed(a, actor) && !IsBlank(c.target) && Normalize(c.newUsername) != ""
    && a.marker.complete && !a.marker.maintenance
    && c.target in a.users && (actor.OperatorCli? || actor.cleared == Some(c.target))
    && Normalize(a.users[c.target].username) != Normalize(c.newUsername) && Normalize(c.newUsername) !in a.names
  }

  ghost predicate RenamesDeleted(a: Accounts, s: Step) {
    && s.Perform? && s.command.Rename?
    && RenameAllowed(a, s.actor, s.command) && a.users[s.command.target].deleted
  }

  lemma RenameAllowedIff(a: Accounts, actor: Actor, c: Command)
    requires c.Rename?
    ensures Handle(a, actor, c).state != a <==> RenameAllowed(a, actor, c)
  {
    if RenameAllowed(a, actor, c) {
      assert Normalize(c.newUsername) in HandleRename(a, actor, c).state.names;
    }
  }

  lemma ReleasedHolders(users: Users, names: Names, u: UserId, user: User)
    requires Reserved(users, names) && NamesOfLiveOnly(users, names) && u in users
    ensures users[u].username != "" ==> NamesOfLiveOnly(users[u := user], Released(names, users[u].username, u))
  {
  }

  lemma RenameHolders(a: Accounts, actor: Actor, c: Command)
    requires WellFormed(a) && NamesOfLiveOnly(a.users, a.names) && c.Rename?
    requires HandleRename(a, actor, c).state != a
    ensures c.target in a.users
    ensures var b := HandleRename(a, actor, c).state;
            NamesOfLiveOnly(b.users, b.names) <==> !a.users[c.target].deleted
  {
    var b := HandleRename(a, actor, c).state;
    var name := Normalize(c.newUsername);
    UsernameIsName(a.users, c.target);
    assert name in b.names && b.names[name] == c.target && b.users[c.target].deleted == a.users[c.target].deleted;
    if !a.users[c.target].deleted {
      ReleasedHolders(a.users, a.names, c.target, b.users[c.target]);
    }
  }

  lemma ChangeHolders(a: Accounts, actor: Actor, c: Command)
    requires WellFormed(a) && NamesOfLiveOnly(a.users, a.names) && (c.UpdateProfile? || c.SetActive? || c.SoftDelete?)
    ensures var b := HandleChange(a, actor, c).state; NamesOfLiveOnly(b.users, b.names)
  {
    if HandleChange(a, actor, c).status == Updated && c.SoftDelete? {
      UsernameIsName(a.users, c.target);
      ReleasedHolders(a.users, a.names, c.target, Changed(a.users[c.target], c));
    }
  }

  lemma CreateHolders(a: Accounts, c: Command)
    requires NamesOfLiveOnly(a.users, a.names) && c.Create?
    ensures var b := HandleCreate(a, c).state; NamesOfLiveOnly(b.users, b.names)
  {
  }

  lemma RotateHolders(a: Accounts, actor: Actor, c: Command)
    requires NamesOfLiveOnly(a.users, a.names) && c.Rotate?
    ensures var b := HandleRotate(a, actor, c).state; NamesOfLiveOnly(b.users, b.names)
  {
  }

  lemma OtherHolders(a: Accounts, s: Step)
    requires WellFormed(a) && NamesOfLiveOnly(a.users, a.names) && (s.Perform? ==> !s.command.Rename?)
    ensures NamesOfLiveOnly(After(a, s).users, After(a, s).names)
  {
    if s.Perform? && ActorAllowed(a, s.actor) {
      if s.command.Create? {
        CreateHolders(a, s.command);
      } else if s.command.Rotate? {
        RotateHolders(a, s.actor, s.command);
      } else {
        ChangeHolders(a, s.actor, s.command);
      }
    }
  }

  lemma RenameStep(a: Accounts, actor: Actor, c: Command)
    requires WellFormed(a) && NamesOfLiveOnly(a.users, a.names) && c.Rename?
    ensures var b := Handle(a, actor, c).state;
            NamesOfLiveOnly(b.users, b.names) <==> !(RenameAllowed(a, actor, c) && a.users[c.target].deleted)
  {
    RenameAllowedIff(a, actor, c);
    if Handle(a, actor, c).state != a {
      RenameHolders(a, actor, c);
    }
  }

  /** From a state where only live users hold names, a step breaks that exactly when it renames a deleted user. */
  lemma DeletedHolderIffRenamed(a: Accounts, s: Step)
    requires WellFormed(a) && NamesOfLiveOnly(a.users, a.names)
    ensures NamesOfLiveOnly(After(a, s).users, After(a, s).names) <==> !RenamesDeleted(a, s)
  {
    if s.Perform? && s.command.Rename? {
      RenameStep(a, s.actor, s.command);
    } else {
      OtherHolders(a, s);
    }
  }

  lemma NormalName(n: string)
    requires n in {"a", "b"}
    ensures Normalize(n) == n
  {
    assert n[1..] == "";
  }

  const PROFILE := Profile("f", "l", Staff, [], "")

  /** One account named "a". */
  const ONE_ACCOUNT :=
    Accounts(map[Given("u") := User(PROFILE, "a", true, 0, false)], map["a" := Given("u")], map[Given("u") := 0],
             map[], map[], Marker(true, false))

  const ONE_DELETED :=
    ONE_ACCOUNT.(users := map[Given("u") := User(PROFILE, "a", false, 1, true)], names := map[])

  const ONE_RENAMED :=
    ONE_DELETED.(users := map[Given("u") := User(PROFILE, "b", false, 2, true)], names := map["b" := Given("u")])

  lemma WitnessDeleted()
    ensures After(ONE_ACCOUNT, Perform(OperatorCli, SoftDelete(Given("u")))) == ONE_DELETED
  {
    NormalName("a");
    assert Trim("u") == "u";
    assert Released(ONE_ACCOUNT.names, "a", Given("u")) == map[];
  }

  lemma WitnessRenamed()
    ensures After(ONE_DELETED, Perform(OperatorCli, Rename(Given("u"), "b"))) == ONE_RENAMED
  {
    NormalName("a");
    NormalName("b");
    assert Trim("u") == "u";
    assert Renamed(ONE_DELETED, Given("u"), "a", "b").names == map["b" := Given("u")];
  }

  /** Delete, rename the deleted account, and its new name is refused to everyone although no live user has it. */
  lemma DeletedHolderBlocksName()
    ensures var run := [Perform(OperatorCli, SoftDelete(Given("u"))), Perform(OperatorCli, Rename(Given("u"), "b"))];
            var end := Run(ONE_ACCOUNT, run);
            && NamesOfLiveOnly(ONE_ACCOUNT.users, ONE_ACCOUNT.names) && !NamesOfLiveOnly(end.users, end.names)
            && (forall v :: v in end.users ==> end.users[v].deleted)
            && Handle(end, OperatorCli, Create("k", "b", PROFILE, true, "1234")).status == UsernameReservationConflict
  {
    var a, b := Perform(OperatorCli, SoftDelete(Given("u"))), Perform(OperatorCli, Rename(Given("u"), "b"));
    WitnessDeleted();
    WitnessRenamed();
    NormalName("b");
    assert [a, b][..1] == [a] && [a][..0] == [];
    assert Run(ONE_ACCOUNT, [a]) == ONE_DELETED;
    assert Run(ONE_ACCOUNT, [a, b]) == ONE_RENAMED;
    assert "b" in ONE_RENAMED.names && ONE_RENAMED.names["b"] == Given("u");
  }

  lemma ReleasedExactly(users: Users, names: Names, u: UserId)
    requires Reserved(users, names) && u in users && users[u].username != ""
    ensures forall n :: n in Released(names, users[u].username, u) <==> n in names && names[n] != u
    ensures forall n :: n in Released(names, users[u].username, u) ==>
            Released(names, users[u].username, u)[n] == names[n]
  {
  }

  lemma DeleteOutcome(a: Accounts, actor: Actor, c: Command)
    requires c.SoftDelete? && Handle(a, actor, c).status == Updated
    ensures c.target in a.users
    ensures Handle(a, actor, c).state
            == a.(users := a.users[c.target := Changed(a.users[c.target], c)],
                  names := Released(a.names, Normalize(a.users[c.target].username), c.target))
  {
  }

  /** A soft delete frees the target's name and no other, even when its old name has been taken again. */
  lemma SoftDeleteFrees(a: Accounts, actor: Actor, c: Command)
    requires WellFormed(a) && c.SoftDelete? && Handle(a, actor, c).status == Updated
    ensures c.target in Handle(a, actor, c).state.users && Handle(a, actor, c).state.users[c.target].deleted
    ensures forall n :: n in Handle(a, actor, c).state.names <==> n in a.names && a.names[n] != c.target
  {
    DeleteOutcome(a, actor, c);
    UsernameIsName(a.users, c.target);
    ReleasedExactly(a.users, a.names, c.target);
  }

  // --- replays and revocation ----------------------------------------------------------------------------------

  lemma StepKeepsIntents(a: Accounts, s: Step, k: string)
    ensures k in a.creates ==> k in After(a, s).creates && After(a, s).creates[k] == a.creates[k]
    ensures k in a.rotates ==> k in After(a, s).rotates && After(a, s).rotates[k] == a.rotates[k]
  {
  }

  lemma {:induction false} RunKeepsIntents(a: Accounts, steps: seq<Step>, k: string)
    ensures k in a.creates ==> k in Run(a, steps).creates && Run(a, steps).creates[k] == a.creates[k]
    ensures k in a.rotates ==> k in Run(a, steps).rotates && Run(a, steps).rotates[k] == a.rotates[k]
  {
    if steps != [] {
      RunKeepsIntents(a, steps[..|steps| - 1], k);
      StepKeepsIntents(Run(a, steps[..|steps| - 1]), steps[|steps| - 1], k);
    }
  }

  /**
    A create that went through is never applied again: whatever happened since, the same key only ever
    confirms or conflicts.
   */
  lemma CreateOnce(a: Accounts, actor: Actor, c: Command, steps: seq<Step>, later: Actor, d: Command)
    requires c.Create? && d.Create? && d.key == c.key && Handle(a, actor, c).status == Created
    ensures var r := Run(Handle(a, actor, c).state, steps);
            var replay := Handle(r, later, d);
            && replay.state == r
            && (ActorAllowed(r, later) && IsPin(d.pin) && Normalize(d.username) != "" ==>
                  replay.status == if PayloadOf(d) == PayloadOf(c) then DuplicateConfirmed
                                   else ConflictRequiresManualReview)
  {
    RunKeepsIntents(Handle(a, actor, c).state, steps, c.key);
  }

  /** The same for a PIN rotation: one key, one rotation. */
  lemma RotateOnce(a: Accounts, actor: Actor, c: Command, steps: seq<Step>, later: Actor, d: Command)
    requires c.Rotate? && d.Rotate? && d.key == c.key && Handle(a, actor, c).status == Rotated
    ensures var r := Run(Handle(a, actor, c).state, steps);
            var replay := Handle(r, later, d);
            && replay.state == r
            && (replay.status == DuplicateConfirmed ==> d.target == c.target && d.reason == c.reason)
  {
    RunKeepsIntents(Handle(a, actor, c).state, steps, c.key);
  }

  lemma {:induction false} RunKeepsUsers(a: Accounts, steps: seq<Step>, u: UserId)
    ensures UserKept(a.users, Run(a, steps).users, u)
  {
    if steps != [] {
      RunKeepsUsers(a, steps[..|steps| - 1], u);
      StepKeepsUser(Run(a, steps[..|steps| - 1]), steps[|steps| - 1], u);
    }
  }

  /** Whatever changes an administrator's own account cuts off every session issued before, for good. */
  lemma OldSessionsCutOff(a: Accounts, actor: Actor, c: Command, steps: seq<Step>, session: Actor, d: Command)
    requires session.StaffActor? && session.staffId in a.users
    requires session.authVersion <= a.users[session.staffId].authVersion
    requires !c.Create? && c.target == session.staffId && Handle(a, actor, c).state != a
    ensures var r := Run(Handle(a, actor, c).state, steps);
            Handle(r, session, d) == Outcome(r, Unauthorized)
  {
    var b := Handle(a, actor, c).state;
    assert b.users[session.staffId].authVersion == a.users[session.staffId].authVersion + 1;
    RunKeepsUsers(b, steps, session.staffId);
  }

  /** Who may change whom: an allowed actor, an existing account, and for staff a clearance for exactly that account. */
  lemma ChangeAcceptedIff(a: Accounts, actor: Actor, c: Command)
    requires c.UpdateProfile? || c.SetActive? || c.SoftDelete?
    ensures Handle(a, actor, c).status == Updated <==>
            ActorAllowed(a, actor) && !IsBlank(c.target) && c.target in a.users &&
            (actor.OperatorCli? || actor.cleared == Some(c.target))
    ensures Handle(a, actor, c).status == Updated <==> Handle(a, actor, c).state != a
  {
    if Handle(a, actor, c).status == Updated {
      assert Handle(a, actor, c).state.users[c.target].authVersion == a.users[c.target].authVersion + 1;
    }
  }

  // --- who sets a profile -------------------------------------------------------------------------------------

  /** A profile update sets what it names and keeps the rest, name and deletion included. */
  lemma UpdateTouchesOnlyGiven(u: User, c: Command)
    requires c.UpdateProfile?
    ensures var v := Changed(u, c);
            && v.username == u.username && v.isActive == u.isActive && v.deleted == u.deleted
            && (c.firstName.None? ==> v.profile.firstName == u.profile.firstName)
            && (c.lastName.None? ==> v.profile.lastName == u.profile.lastName)
            && (c.role.None? ==> v.profile.role == u.profile.role)
            && (c.branchIds.None? ==> v.profile.branchIds == u.profile.branchIds)
            && (c.permissions.None? ==> v.profile.permissions == u.profile.permissions)
            && (c.role.Some? ==> v.profile.role == c.role.value)
            && (c.branchIds.Some? ==> v.profile.branchIds == c.branchIds.value)
  {
  }

  /** The step is an accepted update of `u` that names a role. */
  ghost predicate GivesRole(a: Accounts, s: Step, u: UserId) {
    && s.Perform? && s.command.UpdateProfile? && s.command.target == u && s.command.role.Some?
    && Handle(a, s.actor, s.command).status == Updated
  }

  lemma ChangeKeepsRole(a: Accounts, actor: Actor, c: Command, u: UserId)
    requires u in a.users && (c.UpdateProfile? || c.SetActive? || c.SoftDelete?)
    ensures var b := HandleChange(a, actor, c);
            u in b.state.users &&
            b.state.users[u].profile.role ==
            if c.UpdateProfile? && c.target == u && c.role.Some? && b.status == Updated then c.role.value
            else a.users[u].profile.role
  {
    if c.UpdateProfile? {
      UpdateTouchesOnlyGiven(a.users[u], c);
    }
  }

  lemma StepSetsRole(a: Accounts, s: Step, u: UserId)
    requires u in a.users
    ensures u in After(a, s).users
    ensures After(a, s).users[u].profile.role ==
            if GivesRole(a, s, u) then s.command.role.value else a.users[u].profile.role
  {
    if s.Perform? && ActorAllowed(a, s.actor) {
      if s.command.Create? {
        assert u in HandleCreate(a, s.command).state.users;
      } else if s.command.Rotate? {
        assert HandleRotate(a, s.actor, s.command).state.users[u].profile == a.users[u].profile;
      } else if s.command.Rename? {
        assert HandleRename(a, s.actor, s.command).state.users[u].profile == a.users[u].profile;
      } else {
        ChangeKeepsRole(a, s.actor, s.command, u);
      }
    }
  }

  ghost predicate NoRoleGiven(a: Accounts, steps: seq<Step>, u: UserId) {
    forall i :: 0 <= i < |steps| ==> !GivesRole(Run(a, steps[..i]), steps[i], u)
  }

  lemma {:induction false} RoleKept(a: Accounts, steps: seq<Step>, u: UserId)
    requires u in a.users && NoRoleGiven(a, steps, u)
    ensures u in Run(a, steps).users && Run(a, steps).users[u].profile.role == a.users[u].profile.role
  {
    if steps != [] {
      var n := |steps| - 1;
      forall i | 0 <= i < n ensures !GivesRole(Run(a, steps[..n][..i]), steps[..n][i], u) {
        assert steps[..n][..i] == steps[..i];
      }
      RoleKept(a, steps[..n], u);
      StepSetsRole(Run(a, steps[..n]), steps[n], u);
    }
  }

  /** Over any run an account's role is the one the last accepted update naming a role gave it. */
  lemma RoleIsLastGiven(a: Accounts, s: Step, steps: seq<Step>, u: UserId)
    requires u in a.users && GivesRole(a, s, u) && NoRoleGiven(After(a, s), steps, u)
    ensures u in Run(After(a, s), steps).users
    ensures Run(After(a, s), steps).users[u].profile.role == s.command.role.value
  {
    StepSetsRole(a, s, u);
    RoleKept(After(a, s), steps, u);
  }

  /** Neither an operator nor a staff actor cleared for `u`. */
  ghost predicate Uncleared(s: Step, u: UserId) {
    s.Perform? ==> s.actor.StaffActor? && s.actor.cleared != Some(u)
  }

  lemma CreateLeavesUser(a: Accounts, c: Command, u: UserId)
    requires u in a.users && c.Create?
    ensures var b := HandleCreate(a, c).state; u in b.users && b.users[u] == a.users[u]
  {
  }

  lemma UnclearedStep(a: Accounts, s: Step, u: UserId)
    requires u in a.users && Uncleared(s, u)
    ensures u in After(a, s).users && After(a, s).users[u] == a.users[u]
  {
    if s.Perform? && s.command.Create? {
      CreateLeavesUser(a, s.command, u);
    }
  }

  /** Whatever a run of staff actors does, an account none of them was cleared for stays exactly as it was. */
  lemma {:induction false} UnclearedTargetUntouched(a: Accounts, steps: seq<Step>, u: UserId)
    requires u in a.users && (forall i :: 0 <= i < |steps| ==> Uncleared(steps[i], u))
    ensures u in Run(a, steps).users && Run(a, steps).users[u] == a.users[u]
  {
    if steps != [] {
      UnclearedTargetUntouched(a, steps[..|steps| - 1], u);
      UnclearedStep(Run(a, steps[..|steps| - 1]), steps[|steps| - 1], u);
    }
  }
}
