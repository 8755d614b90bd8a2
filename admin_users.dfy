/**
 * Administrative user operations: disabling and re-enabling user accounts.
 * Each is guarded, in this order, by: the account is already in the wanted
 * state; the administrator is acting on their own account; the target is an
 * administrator.
 */
module AdminUsers {
  import opened Domain
  import opened Repositories

  datatype UserResponse = UserResponse(id: UserId, username: string, role: string, enabled: bool)

  const AdminTitle := "ADMIN"
  const UserAlreadyBlockedMessage := "User already blocked"
  const BlockSelfMessage := "Admin cannot block himself"
  const BlockAdminMessage := "Admin cannot block another admin"
  const UserAlreadyActiveMessage := "User already active"
  const UnblockSelfMessage := "Admin cannot unblock himself"
  const UnblockAdminMessage := "Admin cannot unblock another admin"

  /** Lookup of a user by id. */
  function GetUser(users: map<UserId, User>, userId: UserId): (r: Result<User>)
    ensures r.Ok? <==> userId in users
    ensures r.Ok? ==> r.value == users[userId]
    ensures r.Failure? ==> r.message == UserNotFoundMessage
  {
    if userId in users then Ok(users[userId]) else Failure(UserNotFoundMessage)
  }

  /** Both the acting administrator (by login name) and the target (by id) exist. */
  predicate BothFound(users: map<UserId, User>, adminUsername: string, userId: UserId)
    requires ValidUsers(users)
  {
    FindByUsername(users, adminUsername).Some? && userId in users
  }

  /**
   * The user store after administrator `adminUsername` disables user
   * `userId`. It succeeds exactly for an enabled target that is neither the
   * administrator nor an administrator, and then only the target's flag changes.
   */
  function BlockOutcome(users: map<UserId, User>, adminUsername: string, userId: UserId)
    : (r: Result<map<UserId, User>>)
    requires ValidUsers(users)
    ensures r.Ok? <==>
              && BothFound(users, adminUsername, userId)
              && users[userId].enabled
              && FindByUsername(users, adminUsername).value.id != userId
              && users[userId].role.title != AdminTitle
    ensures r.Ok? ==> r.value == users[userId := users[userId].(enabled := false)]
    ensures !BothFound(users, adminUsername, userId) ==> r == Failure(UserNotFoundMessage)
    ensures BothFound(users, adminUsername, userId) && !users[userId].enabled ==>
              r == Failure(UserAlreadyBlockedMessage)
    ensures BothFound(users, adminUsername, userId) && users[userId].enabled &&
            FindByUsername(users, adminUsername).value.id == userId ==>
              r == Failure(BlockSelfMessage)
    ensures BothFound(users, adminUsername, userId) && users[userId].enabled &&
            FindByUsername(users, adminUsername).value.id != userId && users[userId].role.title == AdminTitle ==>
              r == Failure(BlockAdminMessage)
  {
    match FindByUsername(users, adminUsername)
    case None => Failure(UserNotFoundMessage)
    case Some(currentAdmin) =>
      match GetUser(users, userId)
      case Failure(m) => Failure(m)
      case Ok(target) =>
        if !target.enabled then Failure(UserAlreadyBlockedMessage)
        else if currentAdmin.id == target.id then Failure(BlockSelfMessage)
        else if target.role.title == AdminTitle then Failure(BlockAdminMessage)
        else Ok(users[userId := target.(enabled := false)])
  }

  /**
   * The user store after administrator `adminUsername` re-enables user
   * `userId`: the mirror image of blocking, with its own messages.
   */
  function UnblockOutcome(users: map<UserId, User>, adminUsername: string, userId: UserId)
    : (r: Result<map<UserId, User>>)
    requires ValidUsers(users)
    ensures r.Ok? <==>
              && BothFound(users, adminUsername, userId)
              && !users[userId].enabled
              && FindByUsername(users, adminUsername).value.id != userId
              && users[userId].role.title != AdminTitle
    ensures r.Ok? ==> r.value == users[userId := users[userId].(enabled := true)]
    ensures !BothFound(users, adminUsername, userId) ==> r == Failure(UserNotFoundMessage)
    ensures BothFound(users, adminUsername, userId) && users[userId].enabled ==>
              r == Failure(UserAlreadyActiveMessage)
    ensures BothFound(users, adminUsername, userId) && !users[userId].enabled &&
            FindByUsername(users, adminUsername).value.id == userId ==>
              r == Failure(UnblockSelfMessage)
    ensures BothFound(users, adminUsername, userId) && !users[userId].enabled &&
            FindByUsername(users, adminUsername).value.id != userId && users[userId].role.title == AdminTitle ==>
              r == Failure(UnblockAdminMessage)
  {
    match FindByUsername(users, adminUsername)
    case None => Failure(UserNotFoundMessage)
    case Some(currentAdmin) =>
      match GetUser(users, userId)
      case Failure(m) => Failure(m)
      case Ok(target) =>
        if target.enabled then Failure(UserAlreadyActiveMessage)
        else if currentAdmin.id == target.id then Failure(UnblockSelfMessage)
        else if target.role.title == AdminTitle then Failure(UnblockAdminMessage)
        else Ok(users[userId := target.(enabled := true)])
  }

  /** Disables a user's account on an administrator's behalf; on failure nothing changes. */
  method Block(userRepository: UserRepository, userId: UserId, adminUsername: string) returns (r: Result<()>)
    requires userRepository.Valid()
    modifies userRepository
    ensures userRepository.Valid()
    ensures BlockOutcome(old(userRepository.users), adminUsername, userId).Failure? ==>
              && r == Failure(BlockOutcome(old(userRepository.users), adminUsername, userId).message)
              && userRepository.users == old(userRepository.users)
    ensures BlockOutcome(old(userRepository.users), adminUsername, userId).Ok? ==>
              && r == Ok(())
              && userRepository.users == BlockOutcome(old(userRepository.users), adminUsername, userId).value
  {
    var currentAdmin := FindByUsername(userRepository.users, adminUsername);
    if currentAdmin.None? {
      return Failure(UserNotFoundMessage);
    }
    var target := GetUser(userRepository.users, userId);
    if target.Failure? {
      return Failure(target.message);
    }
    if !target.value.enabled {
      return Failure(UserAlreadyBlockedMessage);
    }
    if currentAdmin.value.id == target.value.id {
      return Failure(BlockSelfMessage);
    }
    if target.value.role.title == AdminTitle {
      return Failure(BlockAdminMessage);
    }
    EnabledChangeKeepsValid(userRepository.users, userId, false);
    userRepository.users := userRepository.users[userId := target.value.(enabled := false)];
    r := Ok(());
  }

  /** Re-enables a user's account on an administrator's behalf; on failure nothing changes. */
  method Unblock(userRepository: UserRepository, userId: UserId, adminUsername: string) returns (r: Result<()>)
    requires userRepository.Valid()
    modifies userRepository
    ensures userRepository.Valid()
    ensures UnblockOutcome(old(userRepository.users), adminUsername, userId).Failure? ==>
              && r == Failure(UnblockOutcome(old(userRepository.users), adminUsername, userId).message)
              && userRepository.users == old(userRepository.users)
    ensures UnblockOutcome(old(userRepository.users), adminUsername, userId).Ok? ==>
              && r == Ok(())
              && userRepository.users == UnblockOutcome(old(userRepository.users), adminUsername, userId).value
  {
    var currentAdmin := FindByUsername(userRepository.users, adminUsername);
    if currentAdmin.None? {
      return Failure(UserNotFoundMessage);
    }
    var target := GetUser(userRepository.users, userId);
    if target.Failure? {
      return Failure(target.message);
    }
    if target.value.enabled {
      return Failure(UserAlreadyActiveMessage);
    }
    if currentAdmin.value.id == target.value.id {
      return Failure(UnblockSelfMessage);
    }
    if target.value.role.title == AdminTitle {
      return Failure(UnblockAdminMessage);
    }
    EnabledChangeKeepsValid(userRepository.users, userId, true);
    userRepository.users := userRepository.users[userId := target.value.(enabled := true)];
    r := Ok(());
  }

  /** Every user as a view: id, login name, role title and enabled flag, keyed by id. */
  function GetAll(users: map<UserId, User>): (r: map<UserId, UserResponse>)
    ensures r.Keys == users.Keys
    ensures forall id :: id in r ==>
              r[id] == UserResponse(users[id].id, users[id].username, users[id].role.title, users[id].enabled)
  {
    map id | id in users :: UserResponse(users[id].id, users[id].username, users[id].role.title, users[id].enabled)
  }

  /**
   * Changing one user's enabled flag keeps the store valid, and looking a
   * user up by login name then finds the same account, with the new flag if
   * it is the changed one.
   */
  lemma EnabledChangeKeepsValid(users: map<UserId, User>, userId: UserId, enabled: bool)
    requires ValidUsers(users) && userId in users
    ensures var after := users[userId := users[userId].(enabled := enabled)];
            && ValidUsers(after)
            && (forall name :: FindByUsername(after, name).Some? <==> FindByUsername(users, name).Some?)
            && (forall name :: FindByUsername(users, name).Some? ==>
                  FindByUsername(after, name).Some? &&
                  FindByUsername(after, name).value == after[FindByUsername(users, name).value.id])
  {
    var after := users[userId := users[userId].(enabled := enabled)];
    assert ValidUsers(after) by {
      forall a, b | a in after && b in after && after[a].username == after[b].username ensures a == b {
        assert users[a].username == after[a].username;
        assert users[b].username == after[b].username;
      }
    }
    forall name ensures FindByUsername(after, name).Some? <==> FindByUsername(users, name).Some? {
      if FindByUsername(users, name).Some? {
        var id := FindByUsername(users, name).value.id;
        assert after[id].username == name;
      }
      if FindByUsername(after, name).Some? {
        var id := FindByUsername(after, name).value.id;
        assert users[id].username == name;
      }
    }
    forall name | FindByUsername(users, name).Some?
      ensures FindByUsername(after, name).Some? &&
              FindByUsername(after, name).value == after[FindByUsername(users, name).value.id]
    {
      var id := FindByUsername(users, name).value.id;
      var id' := FindByUsername(after, name).value.id;
      assert users[id'].username == name;
    }
  }

  /** Blocking a user and then unblocking them restores the user store exactly. */
  lemma BlockThenUnblockRestores(users: map<UserId, User>, adminUsername: string, userId: UserId)
    requires ValidUsers(users) && BlockOutcome(users, adminUsername, userId).Ok?
    ensures ValidUsers(BlockOutcome(users, adminUsername, userId).value)
    ensures UnblockOutcome(BlockOutcome(users, adminUsername, userId).value, adminUsername, userId) == Ok(users)
  {
    var after := BlockOutcome(users, adminUsername, userId).value;
    EnabledChangeKeepsValid(users, userId, false);
    var admin := FindByUsername(users, adminUsername).value;
    assert FindByUsername(after, adminUsername).value.id == admin.id;
    assert after[userId := after[userId].(enabled := true)] == users;
  }

  /** Unblocking a user and then blocking them restores the user store exactly. */
  lemma UnblockThenBlockRestores(users: map<UserId, User>, adminUsername: string, userId: UserId)
    requires ValidUsers(users) && UnblockOutcome(users, adminUsername, userId).Ok?
    ensures ValidUsers(UnblockOutcome(users, adminUsername, userId).value)
    ensures BlockOutcome(UnblockOutcome(users, adminUsername, userId).value, adminUsername, userId) == Ok(users)
  {
    var after := UnblockOutcome(users, adminUsername, userId).value;
    EnabledChangeKeepsValid(users, userId, true);
    var admin := FindByUsername(users, adminUsername).value;
    assert FindByUsername(after, adminUsername).value.id == admin.id;
    assert after[userId := after[userId].(enabled := false)] == users;
  }
}
