/** The favorites store (Pinia store 'favorite'): the set of Pokémon ids the
    signed-in user has marked, kept write-through with the remote relation.

    Every action reads the signed-in user's id from the auth store at call
    time. The favorites service is an input: `fetch(userId)` is the settled
    outcome of reading that user's ids, `write(action, userId, id)` that of
    inserting (`Added`) or deleting (`Removed`) one row. */
module Favorites {
  import opened Wrappers
  import opened Auth

  datatype ToggleAction = Added | Removed

  /** The message toggleFavorite throws when nobody is signed in. */
  const LoginRequired := "ログインしてください"

  /** `authStore.user?.id` when it is truthy: an absent user or an empty id
      both mean "not signed in". */
  function SignedInId(auth: AuthStore): (id: Option<string>)
    reads auth
    ensures id.Some? ==> auth.user.Some? && id.value == auth.user.value.id && id.value != ""
    ensures id.None? ==> auth.user.None? || auth.user.value.id == ""
  {
    if auth.user.Some? && auth.user.value.id != "" then Some(auth.user.value.id) else None
  }

  /** `new Set(ids)`: the ids, duplicates collapsed. */
  function SetOf(ids: seq<int>): (s: set<int>)
    ensures forall x :: x in s <==> x in ids
    ensures |s| <= |ids|
  {
    if ids == [] then {}
    else
      var rest := SetOf(ids[..|ids| - 1]);
      assert ids == ids[..|ids| - 1] + [ids[|ids| - 1]];
      rest + {ids[|ids| - 1]}
  }

  /** No id occurs twice. */
  predicate Distinct(ids: seq<int>)
  {
    forall i, j :: 0 <= i < j < |ids| ==> ids[i] != ids[j]
  }

  /** A list without repeats loses nothing when it becomes a set. */
  lemma {:induction false} SetOfDistinct(ids: seq<int>)
    requires Distinct(ids)
    ensures |SetOf(ids)| == |ids|
  {
    if ids != [] {
      var init := ids[..|ids| - 1];
      assert Distinct(init);
      SetOfDistinct(init);
      assert ids[|ids| - 1] !in init by {
        forall i | 0 <= i < |init| ensures init[i] != ids[|ids| - 1] {
          assert init[i] == ids[i];
        }
      }
    }
  }

  /** The membership flip that a successful toggle performs. */
  function Toggled(favorites: set<int>, id: int): (r: set<int>)
    ensures id in r <==> id !in favorites
    ensures forall x :: x != id ==> (x in r <==> x in favorites)
  {
    if id in favorites then favorites - {id} else favorites + {id}
  }

  /** Two successful toggles of one id restore the set. */
  lemma ToggledTwice(favorites: set<int>, id: int)
    ensures Toggled(Toggled(favorites, id), id) == favorites
  {
  }

  class FavoriteStore {
    var favorites: set<int>
    var loading: bool

    constructor ()
      ensures favorites == {} && !loading
    {
      favorites := {};
      loading := false;
    }

    /** Getter `isFavorite`. */
    predicate IsFavorite(id: int)
      reads this
      ensures IsFavorite(id) ==> Count() > 0
    {
      id in favorites
    }

    /** Getter `count`. */
    function Count(): (n: nat)
      reads this
      ensures n == 0 <==> favorites == {}
    {
      |favorites|
    }

    /** Replaces the whole set by the fetched ids. Without a signed-in user it
        does nothing at all; a failed read keeps the previous set. */
    method LoadFavorites(auth: AuthStore, fetch: string -> Result<seq<int>>)
      modifies this
      ensures SignedInId(auth).None? ==> favorites == old(favorites) && loading == old(loading)
      ensures SignedInId(auth).Some? ==> !loading
      ensures SignedInId(auth).Some? && fetch(SignedInId(auth).value).Ok? ==>
        var ids := fetch(SignedInId(auth).value).value;
        (forall x :: IsFavorite(x) <==> x in ids) && Count() <= |ids|
      ensures SignedInId(auth).Some? && fetch(SignedInId(auth).value).Err? ==> favorites == old(favorites)
    {
      var userId := SignedInId(auth);
      if userId.None? {
        return;
      }
      loading := true;
      var fetched := fetch(userId.value);
      if fetched.Ok? {
        favorites := SetOf(fetched.value);
      }
      loading := false;
    }

    /** Write-through toggle: the set changes only after the remote add or
        remove succeeded; every failure leaves it as it was. */
    method ToggleFavorite(auth: AuthStore, id: int, write: (ToggleAction, string, int) -> Result<()>)
      returns (r: Result<ToggleAction>)
      modifies this
      ensures loading == old(loading)
      ensures SignedInId(auth).None? ==> r == Err(LoginRequired) && favorites == old(favorites)
      ensures SignedInId(auth).Some? ==>
        var action := if id in old(favorites) then Removed else Added;
        var outcome := write(action, SignedInId(auth).value, id);
        && (outcome.Err? ==> r == Err(outcome.msg) && favorites == old(favorites))
        && (outcome.Ok? ==>
              && favorites == Toggled(old(favorites), id)
              && r == Ok(action)
              && (IsFavorite(id) <==> action == Added))
    {
      var userId := SignedInId(auth);
      if userId.None? {
        return Err(LoginRequired);
      }
      var wasFavorite := id in favorites;
      if wasFavorite {
        var removed := write(Removed, userId.value, id);
        if removed.Err? {
          return Err(removed.msg);
        }
        favorites := favorites - {id};
        r := Ok(Removed);
      } else {
        var added := write(Added, userId.value, id);
        if added.Err? {
          return Err(added.msg);
        }
        favorites := favorites + {id};
        r := Ok(Added);
      }
    }

    /** Clears the set, e.g. on sign-out. */
    method Reset()
      modifies this
      ensures favorites == {} && !loading
      ensures forall x :: !IsFavorite(x)
      ensures Count() == 0
    {
      favorites := {};
      loading := false;
    }
  }
}
