# Pokébox client state layer, in Dafny

This project models the state layer of the Pokébox catalog app (Nuxt + Pinia + Supabase):

- the **favorites store** (`Favorites.FavoriteStore`): the set of Pokémon ids the signed-in user has marked, kept write-through with the remote relation;
- the **catalog store** (`Pokemon.PokemonStore`): total count, the one page currently shown, its pagination, and the `ceil(totalCount / itemsPerPage)` page count;
- the **auth session store** (`Auth.AuthStore`): `user`, `session`, `isLoading`, the sign-in/up/out actions, `initialize` and the auth-event callback;
- the **GET /api/initial-pokemon handler** (`InitialPokemonApi`): query defaulting, the inclusive row range, and the echoed pagination record;
- the **`auth` route middleware** (`AuthMiddleware`): proceed, or redirect to `/login?redirect=<encoded path>`.

Most store actions await remote work: a Supabase auth call, a favorites-table read or write, or `$fetch`. `initializeStore` awaits two requests at once. `reset` awaits nothing.

Some fields change before the await. `loadFavorites` sets `loading = true`, and `signIn`, `signUp` and `signOut` set `isLoading = true`. The data fields (`favorites`, `user`, `session`, the catalog page and count) change only after the await settles. The loading flags drop back to false in `finally`.

Each action is modelled as one method step. The remote outcome is an input of type `Result<T>` (`Ok(value)` or `Err(message)`). So the window in which a loading flag is true is not observable.

Where the request matters, the remote side is a function input:
- the catalog page request is `fetchPage(page, limit)`;
- the favorites read is `fetch(userId)`, and the favorites writes are `write(action, userId, id)`;
- the database read in the handler is `db(range)`.

With these, the contracts say which request was made. `encodeURIComponent` is a function input `encode`.

## Model

| member | source | states |
|---|---|---|
| `Favorites.SignedInId` | app/stores/favorite.ts:30-31 | the user id the favorites store acts for: present only when a user is set and its id is non-empty (`user?.id` truthy) |
| `Favorites.SetOf` | app/stores/favorite.ts:36 | `new Set(ids)`: exactly the listed ids, and never more members than list entries |
| `Favorites.SetOfDistinct` | app/stores/favorite.ts:36 | a list without repeats keeps its length as a set, so `count` after a load is the number of distinct fetched ids |
| `Favorites.Toggled` | app/stores/favorite.ts:51-65 | the flip a successful toggle performs: `id` changes membership and every other id keeps it |
| `Favorites.ToggledTwice` | app/stores/favorite.ts:45-70 | two successful toggles of one id give back the original set |
| `Favorites.FavoriteStore.IsFavorite` | app/stores/favorite.ts:19-21 | membership of the id in `favorites`; a favorite implies a non-zero count |
| `Favorites.FavoriteStore.Count` | app/stores/favorite.ts:24 | the size of `favorites`, 0 exactly when the set is empty |
| `Favorites.FavoriteStore.constructor` | app/stores/favorite.ts:12-15 | the store starts with no favorites and not loading |
| `Favorites.FavoriteStore.LoadFavorites` | app/stores/favorite.ts:29-42 | with no signed-in id nothing changes, `loading` included; otherwise it reads the favorites stored for the signed-in user id, and the set becomes exactly those ids (duplicates collapsed) or, on a failed read, stays as it was, and `loading` ends false |
| `Favorites.FavoriteStore.ToggleFavorite` | app/stores/favorite.ts:45-70 | not signed in: error `ログインしてください`, set unchanged; otherwise it asks for a remove of the signed-in user's row when the id is a member and an add when it is not; remote failure: that error, set unchanged (no optimistic flip); success: the set is `Toggled(old, id)` and the result is `Removed` or `Added` to match the old membership |
| `Favorites.FavoriteStore.Reset` | app/stores/favorite.ts:73-76 | no id is a favorite afterwards, the count is 0 and `loading` is false |
| `Pokemon.TotalPages` | app/stores/pokemon.ts:41-43 | `ceil(totalCount / itemsPerPage)`: enough pages for every row, no spare page, and 0 exactly when the count is 0 |
| `Pokemon.FindById` | app/stores/pokemon.ts:38-40 | `find` by id: nothing exactly when no entry has the id, otherwise the entry at the first position with that id |
| `Pokemon.StoreQueryAsServed` | app/stores/pokemon.ts:86-91 | the handler serves the store's page and limit as sent, except that page 0 is served as page 1 |
| `Pokemon.PokemonStore.constructor` | app/stores/pokemon.ts:21-35 | initial state: count 0, empty page, 30 per page, page 1, 0 pages, not initialized |
| `Pokemon.PokemonStore.GetPokemonById` | app/stores/pokemon.ts:38-40 | the lookup is `FindById` on the loaded page only: the first entry there with the id, or nothing exactly when none has it |
| `Pokemon.PokemonStore.GetTotalPages` | app/stores/pokemon.ts:41-43 | the recomputed page count always equals the stored `pagination.totalPages` and is the ceiling of count over page size |
| `Pokemon.PokemonStore.InitializeStore` | app/stores/pokemon.ts:47-79 | a no-op once initialized; on both fetches succeeding stores the count, the page fetched for `currentPage` and `itemsPerPage`, the derived page count, and sets `isInitialized`; if either fails nothing changes and one of the failures is returned |
| `Pokemon.PokemonStore.LoadPage` | app/stores/pokemon.ts:81-102 | on success the page fetched for `page` and `itemsPerPage` replaces the current one and `currentPage = page`, unclamped, and that data is returned; on failure the page and `currentPage` stay; count, page count and `isInitialized` never change |
| `InitialPokemonApi.OrDefault` | server/api/initial-pokemon.get.ts:8-9 | JavaScript's `Number(v)` or else the fallback: a non-zero number is kept, a missing, non-numeric or zero value gives the fallback |
| `InitialPokemonApi.ResolvePage` | server/api/initial-pokemon.get.ts:8 | the page is the query's non-zero page, else 1 |
| `InitialPokemonApi.ResolveLimit` | server/api/initial-pokemon.get.ts:9 | the page size is the query's non-zero limit, else 30 |
| `InitialPokemonApi.PageRange` | server/api/initial-pokemon.get.ts:12-13 | the inclusive range of a page spans exactly `itemsPerPage` rows, and page 1 starts at row 0 |
| `InitialPokemonApi.RequestedRange` | server/api/initial-pokemon.get.ts:12-18 | the range the handler selects spans the resolved page size, is the page range of the query's non-zero page, and starts at row 0 when the query names no page |
| `InitialPokemonApi.NextPageAdjacent` | server/api/initial-pokemon.get.ts:12-13 | page `p + 1` starts on the row right after the last row of page `p` |
| `InitialPokemonApi.EarlierPageEndsBefore` | server/api/initial-pokemon.get.ts:12-13 | with a positive page size, any earlier page ends before any later page starts, so pages never overlap |
| `InitialPokemonApi.Handle` | server/api/initial-pokemon.get.ts:2-41 | it selects `RequestedRange(q)`; an error of that selection, and only that, gives a 500 naming the page and no data; otherwise that selection's rows (or `[]`) come back with the resolved page, page size and offset, and `returnedCount` is the number of rows |
| `InitialPokemonApi.HandleReadsOnlyRequestedRange` | server/api/initial-pokemon.get.ts:15-35 | two databases that agree on the requested range give the same reply |
| `Auth.AuthStore.constructor` | app/stores/auth.ts:12-16 | no user, no session, not loading |
| `Auth.AuthStore.IsAuthenticated` | app/stores/auth.ts:20-22 | holds exactly when both `user` and `session` are present |
| `Auth.AuthStore.UserEmail` | app/stores/auth.ts:25-27 | the signed-in user's address when it is non-empty, otherwise nothing |
| `Auth.AuthStore.Poll` | app/middleware/auth.ts:15-20 | what one poll of the guard reads: the initialized flag and `isAuthenticated` |
| `Auth.AuthStore.PollAsWritten` | app/middleware/auth.ts:15 | the same read against the store as written, where the flag is undefined: never initialized |
| `Auth.AuthStore.SignIn` | app/stores/auth.ts:34-47 | success overwrites `user` and `session` from the result and reports success; failure reports the message and keeps both; `isLoading` ends false either way |
| `Auth.AuthStore.SignUp` | app/stores/auth.ts:52-70 | as sign-in, and success reports `needsConfirmation` exactly when no session came back, in which case the store is not authenticated |
| `Auth.AuthStore.SignOut` | app/stores/auth.ts:75-88 | success clears `user` and `session`, so the store is not authenticated; failure reports the message and keeps both; `isLoading` ends false |
| `Auth.AuthStore.Initialize` | app/stores/auth.ts:93-117 | a restored session sets `session` and `user = session.user`; no session or an error changes neither; a listener is registered on every call whose session fetch succeeded; the store is initialized afterwards either way (corrected; see Findings) |
| `Auth.AuthStore.HandleAuthEvent` | app/stores/auth.ts:103-113 | `SIGNED_IN` with a session sets both fields; `SIGNED_OUT` clears both; any other event, or `SIGNED_IN` without a session, changes nothing |
| `AuthMiddleware.LoginUrl` | app/middleware/auth.ts:7 | the redirect target is `/login?redirect=` followed by the encoded destination path |
| `AuthMiddleware.FirstReady` | app/middleware/auth.ts:15-17 | the polling loop ends at the first poll that sees an initialized store, and never if no poll does |
| `AuthMiddleware.Decide` | app/middleware/auth.ts:4-24 | on the server always the login redirect; on the client no decision while no poll saw an initialized store, then proceed exactly when that first initialized poll is authenticated, else the login redirect for `to.path`; the `from` route plays no part |
| `AuthMiddleware.Guard` | app/middleware/auth.ts:4-24 | the middleware with its polling loop computes exactly `Decide` |
| `AuthMiddleware.AsWrittenGuardNeverDecides` | app/middleware/auth.ts:15-17 | against the store as written, the client-side guard is still waiting after any sequence of polls, even when auth events change the store between them |
| `AuthMiddleware.GuardDecidesOnceInitialized` | app/middleware/auth.ts:15-22 | once the store is initialized, the first poll decides: proceed when authenticated, else the login redirect |

## Findings

| source | as written | input that shows it | evidently intended | confidence | as-written member | corrected member |
|---|---|---|---|---|---|---|
| app/middleware/auth.ts:15-17 | the client branch waits while `authStore.isInitialized` is falsy, but the auth store (app/stores/auth.ts:5-16) declares no such field, so every poll reads undefined and the loop never exits | any client-side navigation into a page guarded by `auth`, whatever the auth state | the wait ends once `initialize` has settled, and `isAuthenticated` then decides | high; not executed | `AuthMiddleware.AsWrittenGuardNeverDecides` | `AuthMiddleware.GuardDecidesOnceInitialized` |

The corrected model gives `Auth.AuthStore` an `isInitialized` field. `Initialize` sets it whether or not the session fetch failed, as a `finally` would. The guard reads it through `AuthStore.Poll`.

## Left out

- Supabase, the favorites/auth/catalog services and `$fetch` are not modelled. Their settled outcomes are inputs. `favoriteService.getFavorites` turns every error into `[]` (app/services/favoriteService.ts:79-81). So an `Ok([])` reaching `LoadFavorites` may be a failed read, and its `Err` branch is unreachable through that service.
- Credentials (`email`, `password`) are not parameters of `SignIn`/`SignUp`: they only reach the remote call, whose outcome is the input.
- `Pokemon.PokemonStore.InitializeStore`: the two requests run in parallel (`Promise.all`), which rejects with whichever failure happens first in time. The model says only that one of the failures is returned, and it reports the count failure when both fail.
- server/api/pokemon-count.get.ts is not part of this model. It destructures `getCountPokemon`, which server/utils/usePokemon.ts does not export. The count outcome is an input.
- Concurrency is left out: racing `toggleFavorite` calls, callers observing `isLoading` or `loading` while a call is in flight, and the registration of the auth listener itself. `HandleAuthEvent` models one run of the callback. `Initialize` only counts registrations, since each call adds one more listener.
- The 50 ms `setTimeout` between polls is not modelled; the polls are a sequence of snapshots. Nothing is claimed about how many polls happen, only what the guard decides after a given sequence.
- `Number()` coercion of query strings is left out (floats, negative strings, `"1.5"`). A query value is an optional integer: absent or non-numeric is `None`, and 0 falls back to the default. The handler's status message is represented by the page number it names.
- `encodeURIComponent` is an uninterpreted function input.
- The `types` list in the catalog store, the type-only files, the validation rule tables and all `console` output are left out.
