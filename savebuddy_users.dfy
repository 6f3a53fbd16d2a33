/** The users of the `com.savebuddy` backend: the `users` table
    (backend/src/main/java/com/savebuddy/entity/User.java) held by
    `UserRepository`, and the two services that update it,
    backend/src/main/java/com/savebuddy/service/UserService.java and
    backend/src/main/java/com/savebuddy/service/OAuth2UserService.java.
    `System.currentTimeMillis()` is the input `millis`. */
module SaveBuddyUsers {

  import opened Wrappers
  import opened Text
  import opened JavaMath

  datatype Role = USER | ADMIN

  /** A row of `users`. `totalExpense` is read and written by the expense
      service; a missing value is Java's `null`. */
  datatype BUser = BUser(
    id: int,
    username: string,
    email: string,
    password: Option<string>,
    nickname: Option<string>,
    level: int,
    experience: int,
    totalSavings: int,
    totalExpense: Option<int>,
    monthlyTarget: int,
    picture: Option<string>,
    role: Role,
    loginType: string)

  const DEFAULT_MONTHLY_TARGET: int := 100000
  const GOOGLE: string := "GOOGLE"

  const USERNAME_TAKEN: string := "이미 존재하는 사용자명입니다."
  const EMAIL_TAKEN: string := "이미 존재하는 이메일입니다."
  const USER_NOT_FOUND: string := "사용자를 찾을 수 없습니다."
  const NO_SUCH_USER: string := "존재하지 않는 사용자입니다."
  /** The database's refusal of a row that repeats a unique username or email. */
  const UNIQUE_VIOLATION: string := "unique constraint violated"
  /** `split("@")[0]` on an empty array. */
  const SPLIT_INDEX_ERROR: string := "Index 0 out of bounds for length 0"

  /** `new User()`: the entity's field initialisers, with no id, username or
      email assigned yet. */
  const NEW_USER: BUser := BUser(0, "", "", None, None, 1, 0, 0, None, DEFAULT_MONTHLY_TARGET, None, USER, GOOGLE)

  /** Ids, usernames and emails are unique, as the table's keys demand. */
  ghost predicate UniqueRows(users: seq<BUser>)
  {
    forall i, j :: 0 <= i < j < |users| ==>
      users[i].id != users[j].id && users[i].username != users[j].username && users[i].email != users[j].email
  }

  predicate UsernameTaken(users: seq<BUser>, username: string)
  {
    exists i :: 0 <= i < |users| && users[i].username == username
  }

  predicate EmailTaken(users: seq<BUser>, email: string)
  {
    exists i :: 0 <= i < |users| && users[i].email == email
  }

  function IndexOfId(users: seq<BUser>, id: int): (i: int)
    ensures -1 <= i < |users|
    ensures i >= 0 ==> users[i].id == id
    ensures i < 0 <==> forall j :: 0 <= j < |users| ==> users[j].id != id
  {
    if users == [] then -1
    else if users[0].id == id then 0
    else
      var k := IndexOfId(users[1..], id);
      if k < 0 then -1 else k + 1
  }

  function IndexOfEmail(users: seq<BUser>, email: string): (i: int)
    ensures -1 <= i < |users|
    ensures i >= 0 ==> users[i].email == email
    ensures i < 0 <==> !EmailTaken(users, email)
  {
    if users == [] then -1
    else if users[0].email == email then 0
    else
      var k := IndexOfEmail(users[1..], email);
      if k < 0 then -1 else k + 1
  }

  /** `findByEmail(email)`: empty exactly when no row has the email. */
  function FindByEmail(users: seq<BUser>, email: string): (r: Option<BUser>)
    ensures r.None? <==> !EmailTaken(users, email)
    ensures r.Some? ==> r.value in users && r.value.email == email
  {
    var i := IndexOfEmail(users, email);
    if i < 0 then None else Some(users[i])
  }

  /** With unique rows, the row holding an id or an email is the one found. */
  lemma IndexOfUnique(users: seq<BUser>, k: int)
    requires UniqueRows(users) && 0 <= k < |users|
    ensures IndexOfId(users, users[k].id) == k
    ensures IndexOfEmail(users, users[k].email) == k
  {
    assert EmailTaken(users, users[k].email);
  }

  /** Replacing a row by one with the same id keeps every id where it was. */
  lemma IndexOfIdAfterUpdate(users: seq<BUser>, i: int, v: BUser, id: int)
    requires 0 <= i < |users| && v.id == users[i].id
    ensures IndexOfId(users[i := v], id) == IndexOfId(users, id)
    decreases |users|
  {
    if users != [] && users[0].id != id {
      if i > 0 {
        assert users[i := v][1..] == users[1..][i - 1 := v];
        IndexOfIdAfterUpdate(users[1..], i - 1, v, id);
      } else {
        assert users[i := v][1..] == users[1..];
      }
    }
  }

  /** The `addExperience` update: experience grows by `delta` and the level
      becomes `currentExp / 100 + 1` (truncating) when that is higher. */
  function Gained(u: BUser, delta: int): (v: BUser)
    ensures v.experience == u.experience + delta
    ensures v.level == Max(u.level, JavaDiv(u.experience + delta, 100) + 1)
    ensures v == u.(experience := v.experience, level := v.level)
  {
    var currentExp := u.experience + delta;
    var newLevel := JavaDiv(currentExp, 100) + 1;
    u.(experience := currentExp, level := if newLevel > u.level then newLevel else u.level)
  }

  /** The level never goes down, and a user whose level is the closed form of
      its experience keeps that form when it gains experience. */
  lemma GainedLevel(u: BUser, delta: int)
    ensures Gained(u, delta).level >= u.level
    ensures u.experience >= 0 && delta >= 0 && u.level == u.experience / 100 + 1 ==>
              Gained(u, delta).level == Gained(u, delta).experience / 100 + 1
  {
    if u.experience >= 0 && delta >= 0 {
      assert u.experience / 100 <= (u.experience + delta) / 100;
    }
  }

  /** `email.split("@")[0] + "_" + millis`. */
  function OAuthUsername(email: string, millis: nat): (r: Result<string>)
    ensures r.Err? <==> FirstOfSplit(email, '@').None?
    ensures r.Err? ==> r == Err(SPLIT_INDEX_ERROR)
    ensures r.Ok? ==> r.value == Before(email, '@') + "_" + NatToString(millis) && '@' !in Before(email, '@')
  {
    match FirstOfSplit(email, '@')
    case None => Err(SPLIT_INDEX_ERROR)
    case Some(localPart) => Ok(localPart + "_" + NatToString(millis))
  }

  /** An email with a local part gives a generated username. */
  lemma OAuthUsernameOfAddress(local: string, domain: string, millis: nat)
    requires local != [] && '@' !in local
    ensures OAuthUsername(local + "@" + domain, millis) == Ok(local + "_" + NatToString(millis))
  {
    var email := local + "@" + domain;
    assert email[0] == local[0] && local[0] != '@';
    BeforeOfPrefix(local, "@" + domain);
    assert email == local + ("@" + domain);
  }

  lemma {:induction false} BeforeOfPrefix(local: string, rest: string)
    requires '@' !in local && rest != [] && rest[0] == '@'
    ensures Before(local + rest, '@') == local
  {
    if local != [] {
      assert (local + rest)[0] == local[0];
      assert (local + rest)[1..] == local[1..] + rest;
      BeforeOfPrefix(local[1..], rest);
    } else {
      assert local + rest == rest;
    }
  }

  /** The outcome of `saveOrUpdateOAuth2User`: the result and the new table. */
  datatype Upserted = Upserted(result: Result<BUser>, users: seq<BUser>, nextId: int)

  /** `saveOrUpdateOAuth2User(email, nickname, picture)`: an existing row gets
      the new nickname and picture; otherwise a new GOOGLE user is inserted
      under a generated username, refused when that username is taken. */
  function Upsert(users: seq<BUser>, nextId: int, email: string, nickname: Option<string>,
                  picture: Option<string>, millis: nat): (r: Upserted)
    ensures r.result.Ok? ==> r.result.value.email == email && r.result.value in r.users
    ensures r.result.Err? ==> r.users == users && r.nextId == nextId
    ensures EmailTaken(users, email) ==> r.result.Ok? && |r.users| == |users| && r.nextId == nextId
  {
    var i := IndexOfEmail(users, email);
    if i >= 0 then
      var user := users[i].(nickname := nickname, picture := picture);
      assert users[i := user][i] == user;
      Upserted(Ok(user), users[i := user], nextId)
    else
      match OAuthUsername(email, millis)
      case Err(e) => Upserted(Err(e), users, nextId)
      case Ok(username) =>
        if UsernameTaken(users, username) then Upserted(Err(UNIQUE_VIOLATION), users, nextId)
        else
          var user := NEW_USER.(id := nextId, email := email, nickname := nickname, picture := picture, username := username);
          Upserted(Ok(user), users + [user], nextId + 1)
  }

  /** For an email already stored, only that row's nickname and picture
      change: its id, totals, level and every other row are kept. */
  lemma UpsertExisting(users: seq<BUser>, nextId: int, email: string, nickname: Option<string>,
                       picture: Option<string>, millis: nat, i: int)
    requires UniqueRows(users) && 0 <= i < |users| && users[i].email == email
    ensures Upsert(users, nextId, email, nickname, picture, millis).result == Ok(users[i].(nickname := nickname, picture := picture))
    ensures Upsert(users, nextId, email, nickname, picture, millis).users == users[i := users[i].(nickname := nickname, picture := picture)]
  {
    IndexOfUnique(users, i);
  }

  /** For a new email the inserted user has the entity defaults: level 1,
      experience 0, savings 0, monthly target 100000, role USER, login type
      GOOGLE, and the generated username. */
  lemma UpsertNew(users: seq<BUser>, nextId: int, email: string, nickname: Option<string>,
                  picture: Option<string>, millis: nat)
    requires !EmailTaken(users, email)
    requires OAuthUsername(email, millis).Ok? && !UsernameTaken(users, OAuthUsername(email, millis).value)
    ensures var r := Upsert(users, nextId, email, nickname, picture, millis);
            && r.result.Ok?
            && r.users == users + [r.result.value] && r.nextId == nextId + 1
            && r.result.value.id == nextId
            && r.result.value.level == 1 && r.result.value.experience == 0 && r.result.value.totalSavings == 0
            && r.result.value.monthlyTarget == DEFAULT_MONTHLY_TARGET
            && r.result.value.role == USER && r.result.value.loginType == GOOGLE
            && r.result.value.username == Before(email, '@') + "_" + NatToString(millis)
            && r.result.value.nickname == nickname && r.result.value.picture == picture
  {
  }

  /** Changing a row's nickname and picture keeps the keys unique and the row
      findable by its email. */
  lemma UpdateKeepsRowsUnique(users: seq<BUser>, nextId: int, i: int, nickname: Option<string>, picture: Option<string>)
    requires UniqueRows(users) && (forall u :: u in users ==> u.id < nextId) && 0 <= i < |users|
    ensures var after := users[i := users[i].(nickname := nickname, picture := picture)];
            && UniqueRows(after)
            && (forall u :: u in after ==> u.id < nextId)
            && FindByEmail(after, users[i].email) == Some(after[i])
  {
    var after := users[i := users[i].(nickname := nickname, picture := picture)];
    forall a, b | 0 <= a < b < |after|
      ensures after[a].id != after[b].id && after[a].username != after[b].username && after[a].email != after[b].email
    {
      assert after[a].id == users[a].id && after[a].username == users[a].username && after[a].email == users[a].email;
      assert after[b].id == users[b].id && after[b].username == users[b].username && after[b].email == users[b].email;
    }
    forall u | u in after ensures u.id < nextId {
      var a :| 0 <= a < |after| && after[a] == u;
      assert users[a] in users;
    }
    IndexOfUnique(after, i);
  }

  /** Appending a row with a fresh id, email and username keeps the keys
      unique and makes the row findable by its email. */
  lemma InsertKeepsRowsUnique(users: seq<BUser>, nextId: int, user: BUser)
    requires UniqueRows(users) && (forall u :: u in users ==> u.id < nextId)
    requires user.id == nextId && !EmailTaken(users, user.email) && !UsernameTaken(users, user.username)
    ensures UniqueRows(users + [user])
    ensures forall u :: u in users + [user] ==> u.id < nextId + 1
    ensures FindByEmail(users + [user], user.email) == Some(user)
  {
    var after := users + [user];
    forall a | 0 <= a < |users|
      ensures users[a].id != user.id && users[a].username != user.username && users[a].email != user.email
    {
      assert users[a] in users;
    }
    assert UniqueRows(after);
    IndexOfUnique(after, |users|);
  }

  /** The upsert keeps the table's keys unique, so it never creates a second
      user for an email, and afterwards that email finds the result. */
  lemma UpsertKeepsRowsUnique(users: seq<BUser>, nextId: int, email: string, nickname: Option<string>,
                              picture: Option<string>, millis: nat)
    requires UniqueRows(users) && forall u :: u in users ==> u.id < nextId
    ensures var r := Upsert(users, nextId, email, nickname, picture, millis);
            && UniqueRows(r.users)
            && (forall u :: u in r.users ==> u.id < r.nextId)
            && (r.result.Ok? ==> FindByEmail(r.users, email) == Some(r.result.value))
  {
    var r := Upsert(users, nextId, email, nickname, picture, millis);
    var i := IndexOfEmail(users, email);
    if i >= 0 {
      UpdateKeepsRowsUnique(users, nextId, i, nickname, picture);
    } else if r.result.Ok? {
      InsertKeepsRowsUnique(users, nextId, r.result.value);
    }
  }

  /** The `users` table. */
  class UserRepository {
    var users: seq<BUser>
    var nextId: int

    ghost predicate Valid()
      reads this
    {
      UniqueRows(users) && forall u :: u in users ==> u.id < nextId
    }

    constructor ()
      ensures Valid() && users == []
    {
      users := [];
      nextId := 1;
    }

    /** Replaces row `i` by `v`, which keeps the row's id, username and email. */
    method SetRow(i: int, v: BUser)
      requires Valid() && 0 <= i < |users|
      requires v.id == users[i].id && v.username == users[i].username && v.email == users[i].email
      modifies this
      ensures Valid()
      ensures users == old(users)[i := v] && nextId == old(nextId)
    {
      assert forall u :: u in users[i := v] ==> u in users || u == v;
      users := users[i := v];
    }
  }

  class UserService {
    const repository: UserRepository

    ghost predicate Valid()
      reads this, repository
    {
      repository.Valid()
    }

    constructor (repository: UserRepository)
      ensures this.repository == repository
    {
      this.repository := repository;
    }

    /** `registerUser(user)`: the username is checked before the email; the
        counters start at level 1, experience 0 and savings 0. */
    method RegisterUser(user: BUser) returns (r: Result<BUser>)
      requires Valid()
      modifies repository
      ensures Valid()
      ensures UsernameTaken(old(repository.users), user.username) ==>
                r == Err(USERNAME_TAKEN) && repository.users == old(repository.users)
      ensures !UsernameTaken(old(repository.users), user.username) && EmailTaken(old(repository.users), user.email) ==>
                r == Err(EMAIL_TAKEN) && repository.users == old(repository.users)
      ensures !UsernameTaken(old(repository.users), user.username) && !EmailTaken(old(repository.users), user.email) ==>
                && r == Ok(user.(id := old(repository.nextId), level := 1, experience := 0, totalSavings := 0))
                && repository.users == old(repository.users) + [r.value]
                && repository.nextId == old(repository.nextId) + 1
    {
      if UsernameTaken(repository.users, user.username) {
        return Err(USERNAME_TAKEN);
      }
      if EmailTaken(repository.users, user.email) {
        return Err(EMAIL_TAKEN);
      }
      var saved := user.(id := repository.nextId, level := 1, experience := 0, totalSavings := 0);
      forall a | 0 <= a < |repository.users|
        ensures repository.users[a].id != saved.id && repository.users[a].username != saved.username && repository.users[a].email != saved.email
      {
        assert repository.users[a] in repository.users;
      }
      repository.users := repository.users + [saved];
      repository.nextId := repository.nextId + 1;
      return Ok(saved);
    }

    /** `addExperience(userId, exp)`. */
    method AddExperience(userId: int, exp: int) returns (r: Result<BUser>)
      requires Valid()
      modifies repository
      ensures Valid()
      ensures IndexOfId(old(repository.users), userId) < 0 ==>
                r == Err(USER_NOT_FOUND) && repository.users == old(repository.users)
      ensures IndexOfId(old(repository.users), userId) >= 0 ==>
                var i := IndexOfId(old(repository.users), userId);
                r == Ok(Gained(old(repository.users)[i], exp)) && repository.users == old(repository.users)[i := r.value]
      ensures repository.nextId == old(repository.nextId)
    {
      var i := IndexOfId(repository.users, userId);
      if i < 0 {
        return Err(USER_NOT_FOUND);
      }
      var user := repository.users[i];
      var currentExp := user.experience + exp;
      user := user.(experience := currentExp);
      var newLevel := JavaDiv(currentExp, 100) + 1;
      if newLevel > user.level {
        user := user.(level := newLevel);
      }
      repository.SetRow(i, user);
      return Ok(user);
    }

    /** `updateTotalSavings(userId, amount)`: only the total savings changes, by `amount`. */
    method UpdateTotalSavings(userId: int, amount: int) returns (r: Result<BUser>)
      requires Valid()
      modifies repository
      ensures Valid()
      ensures IndexOfId(old(repository.users), userId) < 0 ==>
                r == Err(USER_NOT_FOUND) && repository.users == old(repository.users)
      ensures IndexOfId(old(repository.users), userId) >= 0 ==>
                var i := IndexOfId(old(repository.users), userId);
                && r == Ok(old(repository.users)[i].(totalSavings := old(repository.users)[i].totalSavings + amount))
                && repository.users == old(repository.users)[i := r.value]
      ensures repository.nextId == old(repository.nextId)
    {
      var i := IndexOfId(repository.users, userId);
      if i < 0 {
        return Err(USER_NOT_FOUND);
      }
      var user := repository.users[i];
      user := user.(totalSavings := user.totalSavings + amount);
      repository.SetRow(i, user);
      return Ok(user);
    }

    /** `saveOrUpdateOAuth2User(email, nickname, picture)`, which sets the
        login type and role explicitly. */
    method SaveOrUpdateOAuth2User(email: string, nickname: Option<string>, picture: Option<string>, millis: nat)
      returns (r: Result<BUser>)
      requires Valid()
      modifies repository
      ensures Valid()
      ensures Upserted(r, repository.users, repository.nextId) ==
              Upsert(old(repository.users), old(repository.nextId), email, nickname, picture, millis)
    {
      UpsertKeepsRowsUnique(repository.users, repository.nextId, email, nickname, picture, millis);
      var i := IndexOfEmail(repository.users, email);
      if i >= 0 {
        var user := repository.users[i];
        user := user.(nickname := nickname);
        user := user.(picture := picture);
        repository.users := repository.users[i := user];
        return Ok(user);
      }
      var localPart := FirstOfSplit(email, '@');
      if localPart.None? {
        return Err(SPLIT_INDEX_ERROR);
      }
      var username := localPart.value + "_" + NatToString(millis);
      if UsernameTaken(repository.users, username) {
        return Err(UNIQUE_VIOLATION);
      }
      var newUser := NEW_USER.(email := email, nickname := nickname, picture := picture);
      newUser := newUser.(loginType := GOOGLE, role := USER);
      newUser := newUser.(username := username);
      newUser := newUser.(level := 1, experience := 0, totalSavings := 0);
      newUser := newUser.(id := repository.nextId);
      repository.users := repository.users + [newUser];
      repository.nextId := repository.nextId + 1;
      return Ok(newUser);
    }

    /** `updateMonthlyTarget(userId, monthlyTarget)`: only the target changes. */
    method UpdateMonthlyTarget(userId: int, monthlyTarget: int) returns (r: Result<BUser>)
      requires Valid()
      modifies repository
      ensures Valid()
      ensures IndexOfId(old(repository.users), userId) < 0 ==>
                r == Err(USER_NOT_FOUND) && repository.users == old(repository.users)
      ensures IndexOfId(old(repository.users), userId) >= 0 ==>
                var i := IndexOfId(old(repository.users), userId);
                r == Ok(old(repository.users)[i].(monthlyTarget := monthlyTarget)) && repository.users == old(repository.users)[i := r.value]
      ensures repository.nextId == old(repository.nextId)
    {
      var i := IndexOfId(repository.users, userId);
      if i < 0 {
        return Err(USER_NOT_FOUND);
      }
      var user := repository.users[i].(monthlyTarget := monthlyTarget);
      repository.SetRow(i, user);
      return Ok(user);
    }

    /** `getMonthlyTarget(userId)`. */
    method GetMonthlyTarget(userId: int) returns (r: Result<int>)
      requires Valid()
      ensures r.Err? <==> forall u :: u in repository.users ==> u.id != userId
      ensures r.Err? ==> r == Err(USER_NOT_FOUND)
      ensures r.Ok? ==> exists u :: u in repository.users && u.id == userId && u.monthlyTarget == r.value
    {
      var i := IndexOfId(repository.users, userId);
      if i < 0 {
        return Err(USER_NOT_FOUND);
      }
      assert repository.users[i] in repository.users;
      return Ok(repository.users[i].monthlyTarget);
    }
  }

  class OAuth2UserService {
    const repository: UserRepository

    ghost predicate Valid()
      reads this, repository
    {
      repository.Valid()
    }

    constructor (repository: UserRepository)
      ensures this.repository == repository
    {
      this.repository := repository;
    }

    /** `saveOrUpdateOAuth2User(email, nickname, picture)`, which leaves the
        login type, role and monthly target at the entity defaults. */
    method SaveOrUpdateOAuth2User(email: string, nickname: Option<string>, picture: Option<string>, millis: nat)
      returns (r: Result<BUser>)
      requires Valid()
      modifies repository
      ensures Valid()
      ensures Upserted(r, repository.users, repository.nextId) ==
              Upsert(old(repository.users), old(repository.nextId), email, nickname, picture, millis)
    {
      UpsertKeepsRowsUnique(repository.users, repository.nextId, email, nickname, picture, millis);
      var existingUser := FindByEmail(repository.users, email);
      if existingUser.Some? {
        var i := IndexOfEmail(repository.users, email);
        var user := existingUser.value.(nickname := nickname, picture := picture);
        repository.users := repository.users[i := user];
        return Ok(user);
      }
      var localPart := FirstOfSplit(email, '@');
      if localPart.None? {
        return Err(SPLIT_INDEX_ERROR);
      }
      var newUser := NEW_USER.(email := email, nickname := nickname, picture := picture, level := 1, experience := 0, totalSavings := 0);
      var username := localPart.value + "_" + NatToString(millis);
      newUser := newUser.(username := username);
      if UsernameTaken(repository.users, username) {
        return Err(UNIQUE_VIOLATION);
      }
      newUser := newUser.(id := repository.nextId);
      repository.users := repository.users + [newUser];
      repository.nextId := repository.nextId + 1;
      return Ok(newUser);
    }

    /** `findByEmail(email)`. */
    method FindUserByEmail(email: string) returns (r: Option<BUser>)
      requires Valid()
      ensures r.None? <==> !EmailTaken(repository.users, email)
      ensures r.Some? ==> r.value in repository.users && r.value.email == email
    {
      r := FindByEmail(repository.users, email);
    }

    /** `updateMonthlyTarget(email, monthlyTarget)`: only the target of the
        user with that email changes. */
    method UpdateMonthlyTarget(email: string, monthlyTarget: int) returns (r: Result<BUser>)
      requires Valid()
      modifies repository
      ensures Valid()
      ensures !EmailTaken(old(repository.users), email) ==>
                r == Err(NO_SUCH_USER) && repository.users == old(repository.users)
      ensures EmailTaken(old(repository.users), email) ==>
                var i := IndexOfEmail(old(repository.users), email);
                r == Ok(old(repository.users)[i].(monthlyTarget := monthlyTarget)) && repository.users == old(repository.users)[i := r.value]
      ensures repository.nextId == old(repository.nextId)
    {
      var i := IndexOfEmail(repository.users, email);
      if i < 0 {
        return Err(NO_SUCH_USER);
      }
      var user := repository.users[i].(monthlyTarget := monthlyTarget);
      repository.SetRow(i, user);
      return Ok(user);
    }
  }
}
