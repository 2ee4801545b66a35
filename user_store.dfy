/** The `user` store: who is logged in and what they may do. */
module UserStore {

  /** The store's state, and the payload `loginUser` receives. */
  datatype UserState = UserState(
    superUser: bool,
    userID: int,
    userName: string,
    avatar: string,
    level: int,
    permissions: map<string, string>)

  /** The state a fresh store starts from, and the one `reset` restores. */
  const InitialUser := UserState(false, -1, "", "", 1, map[])

  class Store {
    var superUser: bool
    var userID: int
    var userName: string
    var avatar: string
    var level: int
    var permissions: map<string, string>

    function State(): UserState
      reads this
    {
      UserState(superUser, userID, userName, avatar, level, permissions)
    }

    constructor ()
      ensures State() == InitialUser
    {
      superUser, userID, userName := false, -1, "";
      avatar, level, permissions := "", 1, map[];
    }

    method SetSuperUser(v: bool)
      modifies this
      ensures State() == old(State()).(superUser := v)
    {
      superUser := v;
    }

    method SetUserID(v: int)
      modifies this
      ensures State() == old(State()).(userID := v)
    {
      userID := v;
    }

    method SetUserName(v: string)
      modifies this
      ensures State() == old(State()).(userName := v)
    {
      userName := v;
    }

    method SetAvatar(v: string)
      modifies this
      ensures State() == old(State()).(avatar := v)
    {
      avatar := v;
    }

    method SetLevel(v: int)
      modifies this
      ensures State() == old(State()).(level := v)
    {
      level := v;
    }

    method SetPermissions(v: map<string, string>)
      modifies this
      ensures State() == old(State()).(permissions := v)
    {
      permissions := v;
    }

    /** Copies all six fields of the payload. */
    method LoginUser(payload: UserState)
      modifies this
      ensures State() == payload
    {
      SetSuperUser(payload.superUser);
      SetUserID(payload.userID);
      SetUserName(payload.userName);
      SetAvatar(payload.avatar);
      SetLevel(payload.level);
      SetPermissions(payload.permissions);
    }

    /** Restores the initial state, whatever came before. */
    method Reset()
      modifies this
      ensures State() == InitialUser
    {
      SetSuperUser(false);
      SetUserID(-1);
      SetUserName("");
      SetAvatar("");
      SetLevel(1);
      SetPermissions(map[]);
    }

    function GetSuperUser(): (v: bool) reads this ensures v == State().superUser { superUser }
    function GetUserID(): (v: int) reads this ensures v == State().userID { userID }
    function GetUserName(): (v: string) reads this ensures v == State().userName { userName }
    function GetAvatar(): (v: string) reads this ensures v == State().avatar { avatar }
    function GetLevel(): (v: int) reads this ensures v == State().level { level }
    function GetPermissions(): (v: map<string, string>) reads this ensures v == State().permissions { permissions }
  }

  /** `reset` twice is `reset` once, and a login before a reset leaves no trace. */
  method ResetForgetsLogin(store: Store, payload: UserState) returns (once: UserState, twice: UserState)
    modifies store
    ensures twice == once
    ensures store.State() == once
  {
    store.Reset();
    once := store.State();
    store.Reset();
    twice := store.State();
    store.LoginUser(payload);
    store.Reset();
  }
}
