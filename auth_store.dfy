/** The authentication store (frontend/src/store/useAuthStore.ts). Each remote
    call is an input outcome; an action that rethrows returns the failure. */
module AuthStore {

  import opened Wrappers
  import opened ClientTypes

  /** The subset written to "auth-storage". */
  datatype PersistedAuth = PersistedAuth(user: Option<User>, isAuthenticated: bool)

  /** The body sent by `updateUser`. */
  datatype UpdateRequest = UpdateRequest(userId: int, body: User)

  const NO_USER_MESSAGE: string := "사용자 정보가 없습니다."

  /** The user `getCurrentUser` keeps: a present response with a truthy id. */
  function CurrentUserOf(response: Outcome<Option<User>>): (u: Option<User>)
    ensures u.Some? <==> response.Resolved? && response.value.Some? && response.value.value.id != 0
    ensures u.Some? ==> u == response.value
  {
    if response.Resolved? && response.value.Some? && response.value.value.id != 0 then response.value else None
  }

  class AuthState {
    var user: Option<User>
    var isAuthenticated: bool
    var isLoading: bool
    var error: Option<string>

    /** Being authenticated always comes with a user. */
    ghost predicate Valid()
      reads this
    {
      isAuthenticated ==> user.Some?
    }

    function Persisted(): PersistedAuth
      reads this
    {
      PersistedAuth(user, isAuthenticated)
    }

    constructor ()
      ensures Valid()
      ensures user == None && !isAuthenticated && !isLoading && error == None
    {
      user := None;
      isAuthenticated := false;
      isLoading := false;
      error := None;
    }

    method Login(username: string, password: string, response: Outcome<User>) returns (thrown: Option<Failure>)
      requires Valid()
      modifies this
      ensures Valid()
      ensures response.Resolved? ==>
                && user == Some(response.value) && isAuthenticated && !isLoading && error == None
                && thrown == None
      ensures response.Rejected? ==>
                && user == old(user) && isAuthenticated == old(isAuthenticated) && !isLoading
                && error == Some(MessageOf(response.failure, "로그인에 실패했습니다."))
                && thrown == Some(response.failure)
    {
      isLoading := true;
      error := None;
      match response {
        case Resolved(userResponse) =>
          user := Some(userResponse);
          isAuthenticated := true;
          isLoading := false;
          error := None;
          thrown := None;
        case Rejected(failure) =>
          isLoading := false;
          error := Some(MessageOf(failure, "로그인에 실패했습니다."));
          thrown := Some(failure);
      }
    }

    /** `logout()` never rethrows and always clears the session. */
    method Logout(response: Outcome<()>)
      requires Valid()
      modifies this
      ensures Valid()
      ensures user == None && !isAuthenticated && !isLoading
      ensures response.Resolved? ==> error == None
      ensures response.Rejected? ==> error == Some(MessageOf(response.failure, "로그아웃에 실패했습니다."))
    {
      isLoading := true;
      error := None;
      match response {
        case Resolved(_) =>
          user := None;
          isAuthenticated := false;
          isLoading := false;
          error := None;
        case Rejected(failure) =>
          isLoading := false;
          error := Some(MessageOf(failure, "로그아웃에 실패했습니다."));
          user := None;
          isAuthenticated := false;
      }
    }

    /** `getCurrentUser()` never rethrows; a response counts only when it is
        present and its id is truthy (not 0). */
    method GetCurrentUser(response: Outcome<Option<User>>)
      requires Valid()
      modifies this
      ensures Valid()
      ensures !isLoading
      ensures isAuthenticated <==> response.Resolved? && response.value.Some? && response.value.value.id != 0
      ensures user == CurrentUserOf(response)
      ensures response.Resolved? ==> error == None
      ensures response.Rejected? ==> error == Some(MessageOf(response.failure, "사용자 정보를 가져올 수 없습니다."))
    {
      isLoading := true;
      error := None;
      match response {
        case Resolved(userResponse) =>
          if userResponse.Some? && userResponse.value.id != 0 {
            user := userResponse;
            isAuthenticated := true;
            isLoading := false;
            error := None;
          } else {
            user := None;
            isAuthenticated := false;
            isLoading := false;
            error := None;
          }
        case Rejected(failure) =>
          user := None;
          isAuthenticated := false;
          isLoading := false;
          error := Some(MessageOf(failure, "사용자 정보를 가져올 수 없습니다."));
      }
    }

    /** `updateUser(userId, userData)`: without a current user it fails before
        any request; otherwise it sends `{ ...currentUser, ...userData }`. */
    method UpdateUser(userId: int, userData: UserPatch, response: Outcome<User>)
      returns (request: Option<UpdateRequest>, thrown: Option<Failure>)
      requires Valid()
      modifies this
      ensures Valid()
      ensures !isLoading && isAuthenticated == old(isAuthenticated)
      ensures old(user).None? ==>
                && request == None && user == None
                && error == Some(NO_USER_MESSAGE) && thrown == Some(ErrorWith(NO_USER_MESSAGE))
      ensures old(user).Some? ==> request == Some(UpdateRequest(userId, Merge(old(user).value, userData)))
      ensures old(user).Some? && response.Resolved? ==>
                user == Some(response.value) && error == None && thrown == None
      ensures old(user).Some? && response.Rejected? ==>
                && user == old(user)
                && error == Some(MessageOf(response.failure, "사용자 정보 수정에 실패했습니다."))
                && thrown == Some(response.failure)
    {
      isLoading := true;
      error := None;
      var currentUser := user;
      if currentUser.None? {
        var failure := ErrorWith(NO_USER_MESSAGE);
        isLoading := false;
        error := Some(MessageOf(failure, "사용자 정보 수정에 실패했습니다."));
        return None, Some(failure);
      }
      request := Some(UpdateRequest(userId, Merge(currentUser.value, userData)));
      match response {
        case Resolved(updatedUser) =>
          user := Some(updatedUser);
          isLoading := false;
          error := None;
          thrown := None;
        case Rejected(failure) =>
          isLoading := false;
          error := Some(MessageOf(failure, "사용자 정보 수정에 실패했습니다."));
          thrown := Some(failure);
      }
    }

    method AddExperience(userId: int, experience: int, response: Outcome<User>) returns (thrown: Option<Failure>)
      requires Valid()
      modifies this
      ensures Valid()
      ensures !isLoading && isAuthenticated == old(isAuthenticated)
      ensures response.Resolved? ==> user == Some(response.value) && error == None && thrown == None
      ensures response.Rejected? ==>
                && user == old(user)
                && error == Some(MessageOf(response.failure, "경험치 추가에 실패했습니다."))
                && thrown == Some(response.failure)
    {
      isLoading := true;
      error := None;
      match response {
        case Resolved(updatedUser) =>
          user := Some(updatedUser);
          isLoading := false;
          error := None;
          thrown := None;
        case Rejected(failure) =>
          isLoading := false;
          error := Some(MessageOf(failure, "경험치 추가에 실패했습니다."));
          thrown := Some(failure);
      }
    }

    method UpdateSavings(userId: int, amount: int, response: Outcome<User>) returns (thrown: Option<Failure>)
      requires Valid()
      modifies this
      ensures Valid()
      ensures !isLoading && isAuthenticated == old(isAuthenticated)
      ensures response.Resolved? ==> user == Some(response.value) && error == None && thrown == None
      ensures response.Rejected? ==>
                && user == old(user)
                && error == Some(MessageOf(response.failure, "적금액 업데이트에 실패했습니다."))
                && thrown == Some(response.failure)
    {
      isLoading := true;
      error := None;
      match response {
        case Resolved(updatedUser) =>
          user := Some(updatedUser);
          isLoading := false;
          error := None;
          thrown := None;
        case Rejected(failure) =>
          isLoading := false;
          error := Some(MessageOf(failure, "적금액 업데이트에 실패했습니다."));
          thrown := Some(failure);
      }
    }

    method ClearError()
      modifies this
      ensures error == None
      ensures user == old(user) && isAuthenticated == old(isAuthenticated) && isLoading == old(isLoading)
    {
      error := None;
    }

    /** Loading flags are not persisted: the persisted subset never changes here. */
    method SetLoading(loading: bool)
      modifies this
      ensures isLoading == loading
      ensures user == old(user) && isAuthenticated == old(isAuthenticated) && error == old(error)
      ensures Persisted() == old(Persisted())
    {
      isLoading := loading;
    }
  }
}
