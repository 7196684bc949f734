/**
 * The `token` slice of the client's Redux store: the access and refresh
 * tokens, the signed-in user's info, and the guest and admin flags, together
 * with the two asynchronous actions that refresh the access token and fetch
 * the user's info. The server's answers are parameters of those actions.
 */
module TokenReducer {
  import opened Wrappers
  import UserReducer

  /** A snapshot of the slice. */
  datatype TokenView = TokenView(
    accessToken: Option<string>,
    refreshToken: Option<string>,
    info: Option<UserReducer.MyInfo>,
    guest: bool,
    admin: bool)

  /** The slice before any action: no tokens, no info, not a guest, and an administrator. */
  const InitialView: TokenView := TokenView(None, None, None, false, true)

  /** What the slice's `logout` case leaves: tokens and info cleared, a guest, and the
      admin flag as it was. */
  function SignedOut(v: TokenView): (r: TokenView)
    ensures r.accessToken.None? && r.refreshToken.None? && r.info.None? && r.guest
    ensures r.admin == v.admin
  {
    v.(guest := true, info := None, refreshToken := None, accessToken := None)
  }

  /** JavaScript truthiness of the stored refresh token: present and not empty. */
  predicate HasRefreshToken(v: TokenView) {
    v.refreshToken.Some? && v.refreshToken.value != ""
  }

  class TokenSlice {
    var accessToken: Option<string>
    var refreshToken: Option<string>
    var info: Option<UserReducer.MyInfo>
    var guest: bool
    var admin: bool

    function View(): TokenView
      reads this
    {
      TokenView(accessToken, refreshToken, info, guest, admin)
    }

    constructor ()
      ensures View() == InitialView
    {
      accessToken, refreshToken, info := None, None, None;
      guest, admin := false, true;
    }

    /** `setToken`: stores the access token, keeps the old refresh token when the payload
        carries none, and marks the user signed in. */
    method SetToken(newAccess: string, newRefresh: Option<string>)
      modifies this
      ensures View() == old(View()).(
        accessToken := Some(newAccess),
        refreshToken := if newRefresh.Some? then newRefresh else old(refreshToken),
        guest := false)
    {
      if newRefresh.Some? {
        refreshToken := newRefresh;
      }
      accessToken := Some(newAccess);
      guest := false;
    }

    /** `logout` (the confirmation dialog it opens is left out). */
    method Logout()
      modifies this
      ensures View() == SignedOut(old(View()))
    {
      guest := true;
      info := None;
      refreshToken := None;
      accessToken := None;
    }

    /** The `fetchUserInfo.fulfilled` case. */
    method FetchUserInfoFulfilled(payload: UserReducer.MyInfo)
      modifies this
      ensures View() == old(View()).(info := Some(payload), guest := false, admin := payload.role == UserReducer.AdminRole)
    {
      info := Some(payload);
      guest := false;
      admin := payload.role == UserReducer.AdminRole;
    }

    /** The `fetchUserInfo.rejected` case: no info, a guest, and no administrator. */
    method FetchUserInfoRejected()
      modifies this
      ensures View() == old(View()).(info := None, guest := true, admin := false)
    {
      info := None;
      guest := true;
      admin := false;
    }

    /** The `handleUnauthorized.fulfilled` case: a successful refresh marks the user signed
        in; a failed one dispatches `logout`. */
    method HandleUnauthorizedFulfilled(refreshed: bool)
      modifies this
      ensures refreshed ==> View() == old(View()).(guest := false)
      ensures !refreshed ==> View() == SignedOut(old(View()))
    {
      if refreshed {
        guest := false;
      } else {
        Logout();
      }
    }

    /** `fetchUserInfo` followed by the case its outcome selects. `reply` is the user info the
        server answered with, `None` when the request failed or the answer was null. */
    method FetchUserInfo(reply: Option<UserReducer.MyInfo>)
      modifies this
      ensures reply.Some? ==> View() == old(View()).(info := reply, guest := false, admin := reply.value.role == UserReducer.AdminRole)
      ensures reply.None? ==> View() == old(View()).(info := None, guest := true, admin := false)
    {
      if reply.Some? {
        FetchUserInfoFulfilled(reply.value);
      } else {
        FetchUserInfoRejected();
      }
    }

    /** `handleUnauthorized` followed by its `fulfilled` case. Without a refresh token it
        answers false at once, whatever the server would have said, and the `fulfilled` case
        signs the user out. Otherwise `reply` is the new access token the refresh endpoint
        sent, or `None` when the request failed: a new token is stored with the old refresh
        token, a failure signs the user out (once in the thunk, once more in the `fulfilled`
        case, which changes nothing further). */
    method HandleUnauthorized(reply: Option<string>) returns (refreshed: bool)
      modifies this
      ensures !HasRefreshToken(old(View())) ==> !refreshed && View() == SignedOut(old(View()))
      ensures HasRefreshToken(old(View())) && reply.Some? ==>
        refreshed && View() == old(View()).(accessToken := reply, guest := false)
      ensures HasRefreshToken(old(View())) && reply.None? ==>
        !refreshed && View() == SignedOut(old(View()))
      ensures refreshed <==> HasRefreshToken(old(View())) && reply.Some?
    {
      if refreshToken.None? || refreshToken.value == "" {
        refreshed := false;
      } else if reply.Some? {
        SetToken(reply.value, refreshToken);
        refreshed := true;
      } else {
        Logout();
        refreshed := false;
      }
      HandleUnauthorizedFulfilled(refreshed);
    }
  }

  /** After a refresh that succeeded, a second refresh is possible: the refresh token is kept. */
  method RefreshKeepsRefreshToken(t: TokenSlice, reply: Option<string>)
    modifies t
    ensures HasRefreshToken(old(t.View())) && reply.Some? ==>
      t.refreshToken == old(t.refreshToken) && HasRefreshToken(t.View())
  {
    var _ := t.HandleUnauthorized(reply);
  }

  /** After `logout` a refresh is answered with false and the slice stays signed out. */
  method NoRefreshAfterLogout(t: TokenSlice, reply: Option<string>) returns (refreshed: bool)
    modifies t
    ensures !refreshed
    ensures t.View() == SignedOut(old(t.View()))
  {
    t.Logout();
    refreshed := t.HandleUnauthorized(reply);
  }
}
