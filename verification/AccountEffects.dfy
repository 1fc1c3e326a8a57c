/**
  What account commands do, read off the documents: who may call, when a command goes through,
  which fields it sets, and what is left of it after any run.
 */
module AccountEffects {
  import opened Wrappers
  import opened UserAccounts

  // --- names ----------------------------------------------------------------------------------

  lemma {:induction false} TrimIsSlice(s: string) returns (i: nat, j: nat)
    ensures i <= j <= |s| && Trim(s) == s[i..j]
    ensures forall k :: 0 <= k < |s| && (k < i || j <= k) ==> IsSpace(s[k])
    ensures i < j ==> !IsSpace(s[i]) && !IsSpace(s[j - 1])
  {
    i, j := 0, |s|;
    if s != "" {
      if IsSpace(s[0]) {
        var p, q := TrimIsSlice(s[1..]);
        i, j := p + 1, q + 1;
        assert s[1..][p..q] == s[i..j];
        forall k | 0 <= k < |s| && (k < i || j <= k) ensures IsSpace(s[k]) {
          assert k > 0 ==> s[k] == s[1..][k - 1];
        }
      } else if IsSpace(s[|s| - 1]) {
        i, j := TrimIsSlice(s[..|s| - 1]);
        assert s[..|s| - 1][i..j] == s[i..j];
        forall k | 0 <= k < |s| && (k < i || j <= k) ensures IsSpace(s[k]) {
          assert k < |s| - 1 ==> s[k] == s[..|s| - 1][k];
        }
      }
    }
  }

  /** A name loses its outer spaces and its capitals, and nothing else. */
  lemma NormalizedIsCore(raw: string) returns (i: nat, j: nat)
    ensures i <= j <= |raw| && |Normalize(raw)| == j - i
    ensures forall k :: 0 <= k < |raw| && (k < i || j <= k) ==> raw[k] in {' ', '\t', '\n', '\r'}
    ensures i < j ==> raw[i] !in {' ', '\t', '\n', '\r'} && raw[j - 1] !in {' ', '\t', '\n', '\r'}
    ensures forall k :: 0 <= k < j - i ==>
              Normalize(raw)[k] == if 'A' <= raw[i + k] <= 'Z' then raw[i + k] - 'A' + 'a' else raw[i + k]
  {
    i, j := TrimIsSlice(raw);
    LowerAt(raw[i..j]);
  }

  // --- who may call ---------------------------------------------------------------------------

  /** A live administrator whose session is the current one. */
  ghost predicate LiveAdmin(users: Users, id: UserId, authVersion: nat) {
    && id in users
    && users[id].profile.role == Admin && users[id].isActive && !users[id].deleted
    && users[id].authVersion == authVersion
  }

  ghost predicate MayCall(a: Accounts, actor: Actor) {
    actor.StaffActor? ==> LiveAdmin(a.users, actor.staffId, actor.authVersion)
  }

  ghost predicate MayTouch(actor: Actor, u: UserId) {
    actor.StaffActor? ==> actor.cleared == Some(u)
  }

  /** Exactly the callers who are not a live administrator of the current session are turned away, whatever they ask. */
  lemma TurnedAwayIff(a: Accounts, actor: Actor, c: Command)
    ensures Handle(a, actor, c).status == Unauthorized <==> !MayCall(a, actor)
    ensures !MayCall(a, actor) ==> Handle(a, actor, c).state == a
  {
  }

  /** A command that did not go through changed no document. */
  lemma RefusalChangesNothing(a: Accounts, actor: Actor, c: Command)
    ensures Handle(a, actor, c).status !in {Created, Rotated, Updated} ==> Handle(a, actor, c).state == a
  {
  }

  ghost predicate CommandKnown(a: Accounts, c: Command) {
    c.Create? || (c.target in a.users && !IsBlank(c.target))
  }

  /** The resulting role of an account after a command on it, were the command accepted. */
  ghost function ResultingRole(u: User, c: Command): Role {
    if c.UpdateProfile? && c.role.Some? then c.role.value else u.profile.role
  }

  /** A staff actor not cleared for the account is told which guard it met: administrators have their own. */
  lemma GuardMet(a: Accounts, actor: Actor, c: Command)
    requires c.UpdateProfile? || c.SetActive? || c.SoftDelete?
    requires MayCall(a, actor) && CommandKnown(a, c) && !MayTouch(actor, c.target)
    ensures Handle(a, actor, c).status == ProtectedAdminTarget <==>
            a.users[c.target].profile.role == Admin || ResultingRole(a.users[c.target], c) == Admin
    ensures Handle(a, actor, c).status == ProtectedAccountTarget <==>
            a.users[c.target].profile.role != Admin && ResultingRole(a.users[c.target], c) != Admin
  {
  }

  // --- create ---------------------------------------------------------------------------------

  ghost predicate FourDigits(pin: string) {
    |pin| == 4 && forall i :: 0 <= i < |pin| ==> '0' <= pin[i] <= '9'
  }

  lemma CreatedIff(a: Accounts, actor: Actor, c: Command)
    requires c.Create?
    ensures Handle(a, actor, c).status == Created <==>
            && MayCall(a, actor) && FourDigits(c.pin) && Normalize(c.username) != ""
            && c.key !in a.creates && FromKey(c.key) !in a.users
            && a.marker.complete && !a.marker.maintenance && Normalize(c.username) !in a.names
  {
  }

  /** Everything but the documents of `u`, its name and the create intent of `key` is as it was. */
  ghost predicate OthersKept(a: Accounts, b: Accounts, u: UserId) {
    && (forall v :: v != u ==> (v in b.users <==> v in a.users))
    && (forall v :: v != u && v in a.users ==> b.users[v] == a.users[v])
    && (forall v :: v != u ==> (v in b.credentials <==> v in a.credentials))
    && (forall v :: v != u && v in a.credentials ==> b.credentials[v] == a.credentials[v])
    && (forall n :: n in a.names && a.names[n] != u ==> n in b.names && b.names[n] == a.names[n])
    && (forall n :: n in b.names && b.names[n] != u ==> n in a.names && a.names[n] == b.names[n])
    && a.marker == b.marker
  }

  /** A created account carries what was asked for, owns its name, starts both versions at zero and is not deleted. */
  lemma CreatedAccount(a: Accounts, actor: Actor, c: Command)
    requires c.Create? && Handle(a, actor, c).status == Created
    ensures var b, id := Handle(a, actor, c).state, FromKey(c.key);
            && id in b.users && id in b.credentials && OthersKept(a, b, id)
            && b.users[id].username == Normalize(c.username)
            && b.users[id].profile.firstName == Trim(c.profile.firstName)
            && b.users[id].profile.lastName == Trim(c.profile.lastName)
            && b.users[id].profile.role == c.profile.role && b.users[id].profile.branchIds == c.profile.branchIds
            && b.users[id].profile.permissions == c.profile.permissions
            && b.users[id].isActive == c.isActive && !b.users[id].deleted
            && b.users[id].authVersion == 0 && b.credentials[id] == 0
            && Normalize(c.username) in b.names && b.names[Normalize(c.username)] == id
            && b.rotates == a.rotates && c.key in b.creates && b.creates[c.key].userId == id
  {
  }

  /** What two create requests must share for the second to be taken for the first. */
  ghost predicate SameRequest(c: Command, d: Command)
    requires c.Create? && d.Create?
  {
    && Normalize(c.username) == Normalize(d.username)
    && Trim(c.profile.firstName) == Trim(d.profile.firstName) && Trim(c.profile.lastName) == Trim(d.profile.lastName)
    && c.profile.role == d.profile.role && c.profile.permissions == d.profile.permissions
    && multiset(c.profile.branchIds) == multiset(d.profile.branchIds) && c.isActive == d.isActive
  }

  /** A replayed create confirms exactly a request with the same fields, branches in any order, whatever its PIN. */
  lemma CreateReplay(a: Accounts, actor: Actor, c: Command, steps: seq<Step>, later: Actor, d: Command)
    requires c.Create? && d.Create? && d.key == c.key && Handle(a, actor, c).status == Created
    ensures var r := Run(Handle(a, actor, c).state, steps);
            MayCall(r, later) && FourDigits(d.pin) && Normalize(d.username) != "" ==>
              (Handle(r, later, d).status == DuplicateConfirmed <==> SameRequest(c, d)) &&
              (Handle(r, later, d).status == ConflictRequiresManualReview <==> !SameRequest(c, d))
  {
    CreateOnce(a, actor, c, steps, later, d);
  }

  // --- rotate ---------------------------------------------------------------------------------

  lemma RotatedIff(a: Accounts, actor: Actor, c: Command)
    requires c.Rotate?
    ensures Handle(a, actor, c).status == Rotated <==>
            && MayCall(a, actor) && FourDigits(c.pin) && CommandKnown(a, c) && c.key !in a.rotates
            && MayTouch(actor, c.target)
  {
  }

  /** A rotation moves the credential and the session version on by one each, and touches nothing else. */
  lemma RotatedAccount(a: Accounts, actor: Actor, c: Command)
    requires c.Rotate? && Handle(a, actor, c).status == Rotated
    ensures var b := Handle(a, actor, c).state;
            && c.target in a.users && c.target in b.users && c.target in b.credentials && OthersKept(a, b, c.target)
            && b.credentials[c.target] == (if c.target in a.credentials then a.credentials[c.target] else 0) + 1
            && b.users[c.target].authVersion == a.users[c.target].authVersion + 1
            && b.users[c.target].profile == a.users[c.target].profile
            && b.users[c.target].username == a.users[c.target].username
            && b.users[c.target].isActive == a.users[c.target].isActive
            && b.users[c.target].deleted == a.users[c.target].deleted
            && b.names == a.names && b.creates == a.creates
            && c.key in b.rotates && b.rotates[c.key].userId == c.target && b.rotates[c.key].reason == c.reason
  {
  }

  // --- profile, activity, deletion, name ------------------------------------------------------

  /** One account moved on by one session version; credentials, intents and every other account as they were. */
  ghost predicate OneChanged(a: Accounts, b: Accounts, u: UserId) {
    && u in a.users && u in b.users && OthersKept(a, b, u)
    && b.users[u].authVersion == a.users[u].authVersion + 1
    && b.credentials == a.credentials && b.creates == a.creates && b.rotates == a.rotates
  }

  lemma ActivitySet(a: Accounts, actor: Actor, c: Command)
    requires c.SetActive? && Handle(a, actor, c).status == Updated
    ensures var b := Handle(a, actor, c).state;
            && OneChanged(a, b, c.target) && b.users[c.target].isActive == c.isActive
            && b.users[c.target].deleted == a.users[c.target].deleted && b.names == a.names
            && b.users[c.target].username == a.users[c.target].username
            && b.users[c.target].profile == a.users[c.target].profile
  {
  }

  lemma Deleted(a: Accounts, actor: Actor, c: Command)
    requires c.SoftDelete? && Handle(a, actor, c).status == Updated
    ensures var b := Handle(a, actor, c).state;
            && OneChanged(a, b, c.target) && b.users[c.target].deleted && !b.users[c.target].isActive
            && b.users[c.target].username == a.users[c.target].username
            && b.users[c.target].profile == a.users[c.target].profile
  {
  }

  lemma ProfileSet(a: Accounts, actor: Actor, c: Command)
    requires c.UpdateProfile? && Handle(a, actor, c).status == Updated
    ensures var b := Handle(a, actor, c).state;
            && OneChanged(a, b, c.target) && b.names == a.names
            && b.users[c.target].username == a.users[c.target].username
            && b.users[c.target].isActive == a.users[c.target].isActive
            && b.users[c.target].deleted == a.users[c.target].deleted
            && b.users[c.target].profile.role == ResultingRole(a.users[c.target], c)
            && (c.firstName.Some? ==> b.users[c.target].profile.firstName == Trim(c.firstName.value))
            && (c.lastName.Some? ==> b.users[c.target].profile.lastName == Trim(c.lastName.value))
            && (c.branchIds.Some? ==> b.users[c.target].profile.branchIds == c.branchIds.value)
            && (c.permissions.Some? ==> b.users[c.target].profile.permissions == c.permissions.value)
            && (c.firstName.None? ==> b.users[c.target].profile.firstName == a.users[c.target].profile.firstName)
            && (c.lastName.None? ==> b.users[c.target].profile.lastName == a.users[c.target].profile.lastName)
            && (c.branchIds.None? ==> b.users[c.target].profile.branchIds == a.users[c.target].profile.branchIds)
            && (c.permissions.None? ==> b.users[c.target].profile.permissions == a.users[c.target].profile.permissions)
  {
  }

  lemma ReleasedAndTaken(names: Names, owner: UserId, current: string, name: string)
    requires current != "" && name !in names
    requires forall n :: n in names && names[n] == owner ==> n == current
    ensures var after := Released(names, current, owner)[name := owner];
            && (forall n :: n in after && after[n] == owner ==> n == name)
            && (forall n :: n in names && names[n] != owner ==> n in after && after[n] == names[n])
            && (forall n :: n in after && after[n] != owner ==> n in names && names[n] == after[n])
  {
  }

  lemma RenamedFields(a: Accounts, target: UserId, current: string, name: string)
    requires target in a.users && current != "" && name !in a.names
    requires forall n :: n in a.names && a.names[n] == target ==> n == current
    ensures var b := Renamed(a, target, current, name);
            && OneChanged(a, b, target) && b.users[target].username == name
            && b.users[target].profile == a.users[target].profile
            && b.users[target].isActive == a.users[target].isActive
            && b.users[target].deleted == a.users[target].deleted
            && name in b.names && b.names[name] == target
            && (forall n :: n in b.names && b.names[n] == target ==> n == name)
  {
    ReleasedAndTaken(a.names, target, current, name);
  }

  /** A rename moves the account from the one name it held to the new one. */
  lemma RenamedAccount(a: Accounts, actor: Actor, c: Command)
    requires WellFormed(a) && c.Rename? && Handle(a, actor, c).state != a
    ensures var b, name := Handle(a, actor, c).state, Normalize(c.newUsername);
            && OneChanged(a, b, c.target) && b.users[c.target].username == name
            && b.users[c.target].profile == a.users[c.target].profile
            && b.users[c.target].isActive == a.users[c.target].isActive
            && b.users[c.target].deleted == a.users[c.target].deleted
            && name !in a.names && name in b.names && b.names[name] == c.target
            && (forall n :: n in b.names && b.names[n] == c.target ==> n == name)
  {
    RenameOutcome(a, actor, c);
    UsernameIsName(a.users, c.target);
    RenamedFields(a, c.target, Normalize(a.users[c.target].username), Normalize(c.newUsername));
  }

  // --- what a run leaves ----------------------------------------------------------------------

  /** The step is an accepted command on `u` that settles whether it is active. */
  ghost predicate GivesActivity(a: Accounts, s: Step, u: UserId) {
    && s.Perform? && (s.command.SetActive? || s.command.SoftDelete?) && s.command.target == u
    && Handle(a, s.actor, s.command).status == Updated
  }

  ghost function ActivityGiven(c: Command): bool
    requires c.SetActive? || c.SoftDelete?
  {
    c.SetActive? && c.isActive
  }

  /** One account's documents after a command of each kind, told apart by its target and by whether it went through. */
  ghost predicate AccountMoves(a: Accounts, b: Outcome, c: Command, u: UserId)
    requires u in a.users && !c.Create?
  {
    && u in b.state.users
    && b.state.users[u].authVersion == a.users[u].authVersion + (if c.target == u && b.state != a then 1 else 0)
    && b.state.users[u].isActive
       == (if (c.SetActive? || c.SoftDelete?) && c.target == u && b.status == Updated then ActivityGiven(c)
           else a.users[u].isActive)
  }

  lemma RotateMoves(a: Accounts, actor: Actor, c: Command, u: UserId)
    requires u in a.users && c.Rotate?
    ensures AccountMoves(a, HandleRotate(a, actor, c), c, u)
  {
  }

  lemma RenameMoves(a: Accounts, actor: Actor, c: Command, u: UserId)
    requires u in a.users && c.Rename?
    ensures AccountMoves(a, HandleRename(a, actor, c), c, u)
  {
  }

  lemma ChangeMoves(a: Accounts, actor: Actor, c: Command, u: UserId)
    requires u in a.users && (c.UpdateProfile? || c.SetActive? || c.SoftDelete?)
    ensures AccountMoves(a, HandleChange(a, actor, c), c, u)
  {
  }

  lemma CommandMoves(a: Accounts, actor: Actor, c: Command, u: UserId)
    requires u in a.users && !c.Create?
    ensures AccountMoves(a, Handle(a, actor, c), c, u)
  {
    if ActorAllowed(a, actor) {
      if c.Rotate? {
        RotateMoves(a, actor, c, u);
      } else if c.Rename? {
        RenameMoves(a, actor, c, u);
      } else {
        ChangeMoves(a, actor, c, u);
      }
    }
  }

  lemma StepSetsActivity(a: Accounts, s: Step, u: UserId)
    requires u in a.users
    ensures u in After(a, s).users
    ensures After(a, s).users[u].isActive ==
            if GivesActivity(a, s, u) then ActivityGiven(s.command) else a.users[u].isActive
  {
    if s.Perform? && s.command.Create? {
      CreateLeavesUser(a, s.command, u);
    } else if s.Perform? {
      CommandMoves(a, s.actor, s.command, u);
    }
  }

  ghost predicate NoActivityGiven(a: Accounts, steps: seq<Step>, u: UserId) {
    forall i :: 0 <= i < |steps| ==> !GivesActivity(Run(a, steps[..i]), steps[i], u)
  }

  lemma {:induction false} ActivityKept(a: Accounts, steps: seq<Step>, u: UserId)
    requires u in a.users && NoActivityGiven(a, steps, u)
    ensures u in Run(a, steps).users && Run(a, steps).users[u].isActive == a.users[u].isActive
  {
    if steps != [] {
      var n := |steps| - 1;
      forall i | 0 <= i < n ensures !GivesActivity(Run(a, steps[..n][..i]), steps[..n][i], u) {
        assert steps[..n][..i] == steps[..i];
      }
      ActivityKept(a, steps[..n], u);
      StepSetsActivity(Run(a, steps[..n]), steps[n], u);
    }
  }

  /** Over any run an account is active exactly as the last accepted activity or delete command left it. */
  lemma ActivityIsLastGiven(a: Accounts, s: Step, steps: seq<Step>, u: UserId)
    requires u in a.users && GivesActivity(a, s, u) && NoActivityGiven(After(a, s), steps, u)
    ensures u in Run(After(a, s), steps).users
    ensures Run(After(a, s), steps).users[u].isActive <==> s.command.SetActive? && s.command.isActive
  {
    StepSetsActivity(a, s, u);
    ActivityKept(After(a, s), steps, u);
  }

  /** The step is a command on `u` that changed something. */
  ghost predicate Touches(a: Accounts, s: Step, u: UserId) {
    s.Perform? && !s.command.Create? && s.command.target == u && Handle(a, s.actor, s.command).state != a
  }

  ghost predicate Rotates(a: Accounts, s: Step, u: UserId) {
    s.Perform? && s.command.Rotate? && s.command.target == u && Handle(a, s.actor, s.command).status == Rotated
  }

  ghost function Touched(a: Accounts, steps: seq<Step>, u: UserId): nat {
    if steps == [] then 0
    else
      var n := |steps| - 1;
      Touched(a, steps[..n], u) + if Touches(Run(a, steps[..n]), steps[n], u) then 1 else 0
  }

  ghost function Rotations(a: Accounts, steps: seq<Step>, u: UserId): nat {
    if steps == [] then 0
    else
      var n := |steps| - 1;
      Rotations(a, steps[..n], u) + if Rotates(Run(a, steps[..n]), steps[n], u) then 1 else 0
  }

  lemma StepVersions(a: Accounts, s: Step, u: UserId)
    requires u in a.users
    ensures u in After(a, s).users
    ensures After(a, s).users[u].authVersion == a.users[u].authVersion + if Touches(a, s, u) then 1 else 0
  {
    if s.Perform? && s.command.Create? {
      CreateLeavesUser(a, s.command, u);
    } else if s.Perform? {
      CommandMoves(a, s.actor, s.command, u);
    }
  }

  lemma RotateCredential(a: Accounts, actor: Actor, c: Command, u: UserId)
    requires c.Rotate?
    ensures var b := HandleRotate(a, actor, c);
            CredentialVersion(b.state, u) ==
            CredentialVersion(a, u) + if c.target == u && b.status == Rotated then 1 else 0
  {
  }

  lemma CreateCredential(a: Accounts, c: Command, u: UserId)
    requires u in a.users && c.Create?
    ensures CredentialVersion(HandleCreate(a, c).state, u) == CredentialVersion(a, u)
  {
  }

  lemma StepCredential(a: Accounts, s: Step, u: UserId)
    requires u in a.users
    ensures CredentialVersion(After(a, s), u) == CredentialVersion(a, u) + if Rotates(a, s, u) then 1 else 0
  {
    if s.Perform? && ActorAllowed(a, s.actor) {
      if s.command.Create? {
        CreateCredential(a, s.command, u);
      } else if s.command.Rotate? {
        RotateCredential(a, s.actor, s.command, u);
      } else if s.command.Rename? {
        assert HandleRename(a, s.actor, s.command).state.credentials == a.credentials;
      } else {
        assert HandleChange(a, s.actor, s.command).state.credentials == a.credentials;
      }
    }
  }

  /** Over any run the session version counts the changes of the account, and the credential version its rotations. */
  lemma {:induction false} VersionsCount(a: Accounts, steps: seq<Step>, u: UserId)
    requires u in a.users
    ensures u in Run(a, steps).users
    ensures Run(a, steps).users[u].authVersion == a.users[u].authVersion + Touched(a, steps, u)
    ensures CredentialVersion(Run(a, steps), u) == CredentialVersion(a, u) + Rotations(a, steps, u)
  {
    if steps != [] {
      var n := |steps| - 1;
      VersionsCount(a, steps[..n], u);
      StepVersions(Run(a, steps[..n]), steps[n], u);
      StepCredential(Run(a, steps[..n]), steps[n], u);
    }
  }

  /** Whoever a run's staff actors are, none that is not a live administrator at its step changes a document. */
  lemma {:induction false} OutsidersChangeNothing(a: Accounts, steps: seq<Step>)
    requires forall i :: 0 <= i < |steps| ==> steps[i].Perform? && !MayCall(Run(a, steps[..i]), steps[i].actor)
    ensures Run(a, steps) == a
  {
    if steps != [] {
      var n := |steps| - 1;
      forall i | 0 <= i < n ensures steps[..n][i].Perform? && !MayCall(Run(a, steps[..n][..i]), steps[..n][i].actor) {
        assert steps[..n][..i] == steps[..i];
      }
      OutsidersChangeNothing(a, steps[..n]);
      TurnedAwayIff(Run(a, steps[..n]), steps[n].actor, steps[n].command);
    }
  }
}
