/**
 * The `user` slice of the client's Redux store: who is signed in, whether
 * they are a guest or an administrator, and the sets of recipe ids they
 * liked and reported. Each reducer updates the slice's fields in place.
 */
module UserReducer {
  import opened Wrappers

  /** The fields of the `MyInfo` payload the slice reads (the payload's declaring file is
      not part of this model). The recipe lists are `None` when the payload leaves them out. */
  datatype MyInfo = MyInfo(
    id: int,
    email: string,
    nickname: string,
    role: string,
    likedRecipes: Option<seq<string>>,
    reportedRecipes: Option<seq<string>>)

  /** A snapshot of the slice. */
  datatype UserView = UserView(
    id: Option<int>,
    email: string,
    nickname: string,
    guest: bool,
    admin: bool,
    likedRecipes: set<string>,
    reportedRecipes: set<string>)

  const AdminRole: string := "ROLE_ADMIN"

  /** The slice before any action: no id, not a guest, and (as written) an administrator. */
  const InitialView: UserView := UserView(None, "", "", false, true, {}, {})

  /** The slice after `setGuest` and after the shared `logout` action. */
  const SignedOutView: UserView := UserView(None, "", "", true, false, {}, {})

  /** `has(id) ? delete(id) : add(id)` on a set of recipe ids. */
  function Toggle(s: set<string>, x: string): (r: set<string>)
    ensures x in r <==> x !in s
    ensures forall y :: y != x ==> (y in r <==> y in s)
  {
    if x in s then s - {x} else s + {x}
  }

  /** Toggling the same id twice gives back the set it started from. */
  lemma {:induction false} ToggleTwice(s: set<string>, x: string)
    ensures Toggle(Toggle(s, x), x) == s
  {
    var t := Toggle(Toggle(s, x), x);
    forall y ensures y in t <==> y in s {
    }
  }

  /** `new Set(list)`. */
  function SetOf(xs: seq<string>): set<string> {
    set y | y in xs
  }

  class UserSlice {
    var id: Option<int>
    var email: string
    var nickname: string
    var guest: bool
    var admin: bool
    var likedRecipes: set<string>
    var reportedRecipes: set<string>

    function View(): UserView
      reads this
    {
      UserView(id, email, nickname, guest, admin, likedRecipes, reportedRecipes)
    }

    constructor ()
      ensures View() == InitialView
    {
      id, email, nickname := None, "", "";
      guest, admin := false, true;
      likedRecipes, reportedRecipes := {}, {};
    }

    /** `setUserInfo`: the identity comes from the payload, the user is no guest, is an
        administrator exactly for the admin role, and each recipe set is replaced only
        when the payload carries its list. */
    method SetUserInfo(info: MyInfo)
      modifies this
      ensures View() == UserView(
        Some(info.id), info.email, info.nickname, false, info.role == AdminRole,
        if info.likedRecipes.Some? then SetOf(info.likedRecipes.value) else old(likedRecipes),
        if info.reportedRecipes.Some? then SetOf(info.reportedRecipes.value) else old(reportedRecipes))
    {
      id := Some(info.id);
      email := info.email;
      nickname := info.nickname;
      guest := false;
      admin := info.role == AdminRole;
      if info.likedRecipes.Some? {
        likedRecipes := SetOf(info.likedRecipes.value);
      }
      if info.reportedRecipes.Some? {
        reportedRecipes := SetOf(info.reportedRecipes.value);
      }
    }

    /** `setGuest`: back to an anonymous guest with empty sets. */
    method SetGuest()
      modifies this
      ensures View() == SignedOutView
    {
      guest := true;
      id := None;
      email := "";
      nickname := "";
      admin := false;
      likedRecipes := {};
      reportedRecipes := {};
    }

    /** `toggleLikeRecipe`: flips whether the id is liked; nothing else changes. */
    method ToggleLikeRecipe(recipeId: string)
      modifies this
      ensures View() == old(View()).(likedRecipes := Toggle(old(likedRecipes), recipeId))
    {
      if recipeId in likedRecipes {
        likedRecipes := likedRecipes - {recipeId};
      } else {
        likedRecipes := likedRecipes + {recipeId};
      }
    }

    /** `toggleReportRecipe`: flips whether the id is reported; nothing else changes. */
    method ToggleReportRecipe(recipeId: string)
      modifies this
      ensures View() == old(View()).(reportedRecipes := Toggle(old(reportedRecipes), recipeId))
    {
      if recipeId in reportedRecipes {
        reportedRecipes := reportedRecipes - {recipeId};
      } else {
        reportedRecipes := reportedRecipes + {recipeId};
      }
    }

    /** The slice's case for the shared `logout` action: the same state `setGuest` leaves. */
    method Logout()
      modifies this
      ensures View() == SignedOutView
    {
      id := None;
      email := "";
      guest := true;
      nickname := "";
      admin := false;
      likedRecipes := {};
      reportedRecipes := {};
    }
  }

  /** Liking (or unliking) the same recipe twice leaves the whole slice as it was. */
  method ToggleLikeTwice(u: UserSlice, recipeId: string)
    modifies u
    ensures u.View() == old(u.View())
  {
    u.ToggleLikeRecipe(recipeId);
    u.ToggleLikeRecipe(recipeId);
    ToggleTwice(old(u.likedRecipes), recipeId);
  }

  /** Reporting (or withdrawing a report on) the same recipe twice leaves the slice as it was. */
  method ToggleReportTwice(u: UserSlice, recipeId: string)
    modifies u
    ensures u.View() == old(u.View())
  {
    u.ToggleReportRecipe(recipeId);
    u.ToggleReportRecipe(recipeId);
    ToggleTwice(old(u.reportedRecipes), recipeId);
  }
}
