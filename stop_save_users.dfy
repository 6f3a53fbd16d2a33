/** The user service of the `stop.save` backend
    (backend/save/src/main/java/stop/save/service/UserService.java) over the
    `users` table, kept as a sequence of rows. */
module StopSaveUsers {

  import opened Wrappers
  import opened Seqs
  import opened JavaMath

  datatype SUser = SUser(
    id: int, username: string, email: string, password: string, nickname: Option<string>,
    level: int, experience: int, totalSavings: int)

  const USERNAME_TAKEN: string := "이미 존재하는 사용자명입니다."
  const EMAIL_TAKEN: string := "이미 존재하는 이메일입니다."
  const USER_NOT_FOUND: string := "사용자를 찾을 수 없습니다."
  /** The database's refusal of a row that repeats a unique username or email. */
  const UNIQUE_VIOLATION: string := "unique constraint violated"

  /** Ids, usernames and emails are unique, as the table's keys demand. */
  ghost predicate UniqueRows(users: seq<SUser>)
  {
    forall i, j :: 0 <= i < j < |users| ==>
      users[i].id != users[j].id && users[i].username != users[j].username && users[i].email != users[j].email
  }

  function IndexOfId(users: seq<SUser>, id: int): (i: int)
    ensures -1 <= i < |users|
    ensures i >= 0 ==> users[i].id == id
    ensures i < 0 <==> forall j :: 0 <= j < |users| ==> users[j].id != id
  {
    IndexWhere(users, (u: SUser) => u.id == id)
  }

  /** With unique ids, the row holding an id is the one found. */
  lemma IndexOfIdUnique(users: seq<SUser>, k: int, id: int)
    requires UniqueRows(users) && 0 <= k < |users| && users[k].id == id
    ensures IndexOfId(users, id) == k
  {
  }

  /** `findById(id)`. */
  function FindById(users: seq<SUser>, id: int): (r: Option<SUser>)
    ensures r.Some? <==> exists u :: u in users && u.id == id
    ensures r.Some? ==> r.value in users && r.value.id == id
  {
    var i := IndexOfId(users, id);
    if i < 0 then None else Some(users[i])
  }

  predicate UsernameTaken(users: seq<SUser>, username: string)
  {
    exists i :: 0 <= i < |users| && users[i].username == username
  }

  predicate EmailTaken(users: seq<SUser>, email: string)
  {
    exists i :: 0 <= i < |users| && users[i].email == email
  }

  /** The `addExperience` update: experience grows by `delta` and the level
      becomes `currentExp / 100 + 1` (truncating) when that is higher. */
  function Gained(u: SUser, delta: int): (v: SUser)
    ensures v.experience == u.experience + delta
    ensures v.level == Max(u.level, JavaDiv(u.experience + delta, 100) + 1)
    ensures v == u.(experience := v.experience, level := v.level)
  {
    var currentExp := u.experience + delta;
    var newLevel := JavaDiv(currentExp, 100) + 1;
    u.(experience := currentExp, level := if newLevel > u.level then newLevel else u.level)
  }

  /** The level never goes down, and a user whose level is the closed form of
      its experience keeps that form when it gains experience. */
  lemma GainedLevel(u: SUser, delta: int)
    ensures Gained(u, delta).level >= u.level
    ensures u.experience >= 0 && delta >= 0 && u.level == u.experience / 100 + 1 ==>
              Gained(u, delta).level == Gained(u, delta).experience / 100 + 1
  {
    if u.experience >= 0 && delta >= 0 {
      assert u.experience / 100 <= (u.experience + delta) / 100;
    }
  }

  /** `updateTotalSavings`: only the total savings changes, by `amount`. */
  function WithSavings(u: SUser, amount: int): (v: SUser)
    ensures v.totalSavings == u.totalSavings + amount
    ensures v == u.(totalSavings := v.totalSavings)
  {
    u.(totalSavings := u.totalSavings + amount)
  }

  /** `loginUser`: the user with that username, when the password matches. */
  function Login(users: seq<SUser>, username: string, password: string): (r: Option<SUser>)
    requires UniqueRows(users)
    ensures r.Some? <==> exists u :: u in users && u.username == username && u.password == password
    ensures r.Some? ==> r.value in users && r.value.username == username
  {
    var i := IndexWhere(users, (u: SUser) => u.username == username);
    if i >= 0 && users[i].password == password then Some(users[i]) else None
  }

  /** Updating one row in place keeps the keys unique when its keys stay. */
  lemma UniqueAfterUpdate(users: seq<SUser>, i: int, v: SUser)
    requires UniqueRows(users) && 0 <= i < |users|
    requires v.id == users[i].id && v.username == users[i].username && v.email == users[i].email
    ensures UniqueRows(users[i := v])
  {
  }

  class UserService {
    var users: seq<SUser>
    var nextId: int

    ghost predicate Valid()
      reads this
    {
      UniqueRows(users) && forall u :: u in users ==> u.id < nextId
    }

    constructor ()
      ensures Valid() && users == []
    {
      users := [];
      nextId := 1;
    }

    /** `registerUser(user)`: the username is checked before the email; the
        counters start at level 1, experience 0 and savings 0. */
    method RegisterUser(username: string, email: string, password: string, nickname: Option<string>)
      returns (r: Result<SUser>)
      requires Valid()
      modifies this
      ensures Valid()
      ensures UsernameTaken(old(users), username) ==> r == Err(USERNAME_TAKEN) && users == old(users)
      ensures !UsernameTaken(old(users), username) && EmailTaken(old(users), email) ==>
                r == Err(EMAIL_TAKEN) && users == old(users)
      ensures !UsernameTaken(old(users), username) && !EmailTaken(old(users), email) ==>
                && r == Ok(SUser(old(nextId), username, email, password, nickname, 1, 0, 0))
                && users == old(users) + [r.value]
    {
      if UsernameTaken(users, username) {
        return Err(USERNAME_TAKEN);
      }
      if EmailTaken(users, email) {
        return Err(EMAIL_TAKEN);
      }
      var user := SUser(nextId, username, email, password, nickname, 1, 0, 0);
      users := users + [user];
      nextId := nextId + 1;
      return Ok(user);
    }

    method LoginUser(username: string, password: string) returns (r: Option<SUser>)
      requires Valid()
      ensures r == Login(users, username, password)
    {
      var i := IndexWhere(users, (u: SUser) => u.username == username);
      if i >= 0 && users[i].password == password {
        return Some(users[i]);
      }
      return None;
    }

    /** `addExperience(userId, exp)`. */
    method AddExperience(userId: int, exp: int) returns (r: Result<SUser>)
      requires Valid()
      modifies this
      ensures Valid()
      ensures IndexOfId(old(users), userId) < 0 ==> r == Err(USER_NOT_FOUND) && users == old(users)
      ensures IndexOfId(old(users), userId) >= 0 ==>
                && r == Ok(Gained(old(users)[IndexOfId(old(users), userId)], exp))
                && users == old(users)[IndexOfId(old(users), userId) := r.value]
      ensures nextId == old(nextId)
    {
      var i := IndexOfId(users, userId);
      if i < 0 {
        return Err(USER_NOT_FOUND);
      }
      var user := users[i];
      var currentExp := user.experience + exp;
      user := user.(experience := currentExp);
      var newLevel := JavaDiv(currentExp, 100) + 1;
      if newLevel > user.level {
        user := user.(level := newLevel);
      }
      UniqueAfterUpdate(users, i, user);
      users := users[i := user];
      return Ok(user);
    }

    /** `updateTotalSavings(userId, amount)`. */
    method UpdateTotalSavings(userId: int, amount: int) returns (r: Result<SUser>)
      requires Valid()
      modifies this
      ensures Valid()
      ensures IndexOfId(old(users), userId) < 0 ==> r == Err(USER_NOT_FOUND) && users == old(users)
      ensures IndexOfId(old(users), userId) >= 0 ==>
                && r == Ok(WithSavings(old(users)[IndexOfId(old(users), userId)], amount))
                && users == old(users)[IndexOfId(old(users), userId) := r.value]
      ensures nextId == old(nextId)
    {
      var i := IndexOfId(users, userId);
      if i < 0 {
        return Err(USER_NOT_FOUND);
      }
      var user := users[i].(totalSavings := users[i].totalSavings + amount);
      UniqueAfterUpdate(users, i, user);
      users := users[i := user];
      return Ok(user);
    }

    /** `updateUser(user)`: `save` replaces the row with that id by the given
        user, or inserts it under a fresh id; a row that would repeat another
        row's username or email is refused. */
    method UpdateUser(user: SUser) returns (r: Result<SUser>)
      requires Valid()
      modifies this
      ensures Valid()
      ensures r.Ok? && IndexOfId(old(users), user.id) >= 0 ==>
                r == Ok(user) && users == old(users)[IndexOfId(old(users), user.id) := user]
      ensures r.Ok? && IndexOfId(old(users), user.id) < 0 ==>
                r == Ok(user.(id := old(nextId))) && users == old(users) + [r.value]
      ensures r.Err? ==> r == Err(UNIQUE_VIOLATION) && users == old(users)
      ensures r.Err? <==> exists j :: 0 <= j < |old(users)| && old(users)[j].id != user.id &&
                            (old(users)[j].username == user.username || old(users)[j].email == user.email)
    {
      if exists j :: 0 <= j < |users| && users[j].id != user.id && (users[j].username == user.username || users[j].email == user.email) {
        return Err(UNIQUE_VIOLATION);
      }
      var i := IndexOfId(users, user.id);
      if i >= 0 {
        users := users[i := user];
        return Ok(user);
      }
      var inserted := user.(id := nextId);
      users := users + [inserted];
      nextId := nextId + 1;
      return Ok(inserted);
    }
  }
}
