# Dashboard app: a verified model of its client hooks, string rules and server handlers

The application is a Next.js dashboard backed by Supabase. It offers:

- a photo drive;
- a food gallery with reviews;
- a todo list;
- a Pokémon lookup with user reviews;
- the usual sign-up and sign-in forms.

This project models the logic that sits between its backend calls.

- **Client hooks.** Each hook is a class whose fields are the hook's state (`photos`, `uploading`, `todos`, `loading`, `reviews`, `notFound` and so on). Its methods are the hook's operations:
  - three photo hooks with deliberately different semantics;
  - the todo hook;
  - the Pokémon reviews hook.

  Every awaited `fetch` or Supabase answer is a method parameter (`Fetch`, `Json`, `Db` in `Common`). Ghost logs record the requests sent and the toasts and alerts shown, so "no request is made" can be stated.
- **Pure string rules.**
  - `getImageSrc` (`ImageSrc`).
  - The nav-link `isActive` predicate (`NavLinks`), shared by the desktop and mobile links.
- **Server handlers.** These are the `/api/food` and `/api/food/reviews` route handlers, the auth callback and the four form actions. Each is a function from the request's fields and the backend's answers to the calls it makes and the response or redirect it ends in. The food upload loop is a method that changes nothing and returns the same pair. The order of the guards is visible in the calls made.

Shared pieces:

- `Text`: JavaScript's `toLowerCase`, `startsWith`, `includes`, `trim` and `substring`.
- `Lists`: `filter` and `map`, and remove-by-id and update-by-id built on them.
- `Photos`: the photo record, the search view, the duplicate-name partition and the delete and rename updates the photo hooks apply.

Where the repository's tests expect something other than what the code does, the model follows the code:

- the food route's DELETE answers "Photo deleted successfully";
- the reviews route has no `PATCH` handler;
- the reviews POST answers HTTP 200;
- sign-up success redirects to `/`;
- the reset-password path is `/protected/reset-password`.

## Model

| member | source | states |
|---|---|---|
| Text.LowerIdempotent | utils/hooks/usePhoto.ts:41-43 | lower-casing twice is lower-casing once |
| Text.ContainsIffOccurs | utils/hooks/usePhoto.ts:42 | `includes` holds exactly when the substring occurs at some index (both directions) |
| Text.ContainsEmpty | utils/hooks/usePhoto.ts:42 | every string includes the empty search |
| Text.TrimStart | utils/hooks/useTodos.ts:40 | the result is a suffix of the input that is empty or starts with a non-space, and everything dropped before it is white space |
| Text.TrimEmptyIffBlank | utils/hooks/useTodos.ts:40 | `!s.trim()` holds exactly when every character of `s` is white space |
| Text.Take | app/auth/callback/route.ts:29 | `substring(0, n)` is a prefix of length `min(n, |s|)` |
| Lists.Filter | utils/hooks/usePhoto.ts:41-43 | a filter result is no longer than its input; every kept element passes and comes from the input; every passing element is kept |
| Lists.FilterAppend | utils/hooks/usePhoto.ts:41-43 | filtering distributes over concatenation |
| Lists.FilterSubsequence | utils/hooks/usePhoto.ts:41-43 | a filter result is an order-preserving subsequence of its input |
| Lists.FilterCount | utils/hooks/usePhoto.ts:41-43 | a passing value keeps its multiplicity; a failing one disappears |
| Lists.FilterPartition | utils/hooks/usePhoto.ts:54-56 | the kept and dropped parts together are the input as a multiset, with lengths adding up |
| Lists.FilterIdempotent | utils/hooks/usePhoto.ts:41-43 | filtering twice is filtering once |
| Lists.Map | utils/hooks/usePhoto.ts:130-134 | `map` keeps the length and applies the function pointwise |
| Lists.RemoveKeySpec | utils/hooks/usePhoto.ts:104 | remove-by-id leaves no entry with the id, keeps every other entry's multiplicity and order, and changes nothing when the id is absent |
| Lists.UpdateKey | utils/hooks/usePhoto.ts:130-134 | update-by-id keeps the length; matching entries are transformed and the others are unchanged |
| Photos.StoragePath | utils/photos/photo-util/usePhotoManager.ts:63-64 | the storage key is `drive/`, the timestamp, `_` and the file's name, in that order and nothing else |
| Photos.FilteredSpec | utils/hooks/usePhoto.ts:41-43 | the search view is the subsequence of photos whose lower-cased name contains the lower-cased search, with exact multiplicities |
| Photos.FilteredEmptySearch | utils/hooks/usePhoto.ts:41-43 | an empty search shows the whole list |
| Photos.FilteredAppend | utils/hooks/usePhoto.ts:80 | the view of a prepended batch is the batch's view followed by the old view |
| Photos.FilteredIgnoresCase | utils/hooks/usePhoto.ts:42 | the search's case does not matter |
| Photos.FilteredIdempotent | utils/hooks/usePhoto.ts:41-43 | filtering the view again changes nothing |
| Photos.NewFilesSpec | utils/hooks/usePhoto.ts:51-56 | kept files have names absent from the whole list; dropped files have names present in it; kept and dropped together are the batch |
| Photos.NewFilesKeepsBatch | utils/hooks/usePhoto.ts:51-56 | a batch with no known name is kept whole, repeats inside it included |
| Photos.NewFilesEmptyIff | utils/hooks/usePhoto.ts:58 | nothing survives exactly when every file's name is already in the list |
| Photos.WithoutIdSpec | utils/hooks/usePhoto.ts:104 | deleting removes exactly the entries with the id and keeps the order of the rest |
| Photos.RenamedSpec | utils/hooks/usePhoto.ts:130-134 | renaming keeps length and every field except `photo_name`, which changes exactly for matching ids |
| UsePhoto.PhotoHook.constructor | utils/hooks/usePhoto.ts:17-20 | a fresh hook has no photos, is not uploading, has an empty search and sorts by date |
| UsePhoto.PhotoHook.SetSearch | utils/hooks/usePhoto.ts:19 | only `search` changes |
| UsePhoto.PhotoHook.SetSortType | utils/hooks/usePhoto.ts:20 | only `sortType` changes |
| UsePhoto.PhotoHook.Load | utils/hooks/usePhoto.ts:22-39 | no user means no request and no change; a truthy body replaces the list; a falsy body or an error keeps it and shows "Failed to load photos!" |
| UsePhoto.EmptyUserMakesNoRequest | utils/hooks/usePhoto.ts:22-24 | a hook without a user sends no request on load and shows no photo, whatever the reply would have been |
| UsePhoto.PhotoHook.Upload | utils/hooks/usePhoto.ts:45-88 | an all-duplicate batch sends no request, keeps the list and shows the duplicate toast; otherwise one POST with the kept files; success prepends the server's records; not-ok or an exception keeps the list with the matching toast; `uploading` ends false on every path |
| UsePhoto.PhotoHook.Delete | utils/hooks/usePhoto.ts:90-110 | the id leaves the list only on an ok response, with the matching toast on each path |
| UsePhoto.PhotoHook.Rename | utils/hooks/usePhoto.ts:112-139 | the name changes only on an ok response, with no toast then; failures toast and keep the list |
| LegacyUsePhoto.LegacyPhotoHook.constructor | utils/photo-hook/usePhoto.ts:14-17 | the same fresh state as the newer hook |
| LegacyUsePhoto.LegacyPhotoHook.SetSearch | utils/photo-hook/usePhoto.ts:16 | only `search` changes |
| LegacyUsePhoto.LegacyPhotoHook.SetSortType | utils/photo-hook/usePhoto.ts:17 | only `sortType` changes |
| LegacyUsePhoto.LegacyPhotoHook.Load | utils/photo-hook/usePhoto.ts:19-35 | no user means no request; a truthy body replaces the list; otherwise the list is kept and nothing is shown |
| LegacyUsePhoto.LegacyPhotoHook.Upload | utils/photo-hook/usePhoto.ts:41-81 | an all-duplicate batch alerts and sends nothing; success prepends silently; failures alert and keep the list; `uploading` ends false |
| LegacyUsePhoto.LegacyPhotoHook.Delete | utils/photo-hook/usePhoto.ts:83-99 | the id leaves the list on an ok and on a not-ok response; only a thrown error keeps it and alerts |
| PhotoManager.OrderColumn | utils/photos/photo-util/usePhotoManager.ts:29 | the order column is `photo_name` exactly for sort type `name`, else `created_at` |
| PhotoManager.OutcomeOfBatch | utils/photos/photo-util/usePhotoManager.ts:49-81 | whether a batch commits, and with which rows, depends only on the backend's answers from the current file on, not on the calls made |
| PhotoManager.CommitsIffNoBreak | utils/photos/photo-util/usePhotoManager.ts:49-81 | a batch commits exactly when no file's lookup, upload or insert fails; skipped names do not stop it |
| PhotoManager.CommittedRows | utils/photos/photo-util/usePhotoManager.ts:47-81 | a committed batch holds the inserted rows of the non-skipped files, in file order |
| PhotoManager.AlertsNameTakenFiles | utils/photos/photo-util/usePhotoManager.ts:49-79 | a batch that does not abort shows, in file order, exactly one alert per file whose name the backend found taken, each naming that file, and no other alert |
| PhotoManager.RunLoop | utils/photos/photo-util/usePhotoManager.ts:49-79 | the loop produces exactly the batch's calls, alerts and outcome: it stops at the first turn that throws and collects the inserted rows in order |
| PhotoManager.PhotoManagerHook.constructor | utils/photos/photo-util/usePhotoManager.ts:14-17 | a fresh hook has no photos, is not uploading, has an empty search and sorts by date |
| PhotoManager.PhotoManagerHook.SetSearch | utils/photos/photo-util/usePhotoManager.ts:110-119 | only `search` changes, and the returned list does not depend on it |
| PhotoManager.PhotoManagerHook.SetSortType | utils/photos/photo-util/usePhotoManager.ts:17 | only `sortType` changes |
| PhotoManager.PhotoManagerHook.Load | utils/photos/photo-util/usePhotoManager.ts:21-41 | no user means no query; an error keeps the list; success sets it to the data, or to `[]` for null |
| PhotoManager.PhotoManagerHook.Upload | utils/photos/photo-util/usePhotoManager.ts:44-87 | the loop's calls and alerts are the batch's; a committed batch is prepended as one block; an aborted one keeps the list and alerts the error; `uploading` ends false |
| PhotoManager.PhotoManagerHook.Delete | utils/photos/photo-util/usePhotoManager.ts:90-108 | a storage error skips the row delete; the id leaves the list only when both steps succeed; each error is alerted |
| PhotoVariants.RefusedDelete | utils/hooks/usePhoto.ts:99-104 | for the same refused delete, the newer hook keeps the photo, the older hook drops it and the direct hook keeps it |
| PhotoVariants.SearchViews | utils/photos/photo-util/usePhotoManager.ts:110-112 | the two API hooks show the search view; the direct hook shows the whole list |
| UseTodos.ToggledSpec | utils/hooks/useTodos.ts:66-71 | a toggle writes the negated argument into matching entries only, keeping the length and the other entries |
| UseTodos.ToggleTwiceRestores | utils/hooks/useTodos.ts:60-71 | toggling back with the written value restores the list when the matching entries held the first argument |
| UseTodos.ToggledIdempotent | utils/hooks/useTodos.ts:62-69 | the written value depends only on the argument, so repeating a toggle changes nothing |
| UseTodos.RetaskedSpec | utils/hooks/useTodos.ts:96-101 | an update replaces only `task` of matching entries and keeps length and order |
| UseTodos.WithoutTodoSpec | utils/hooks/useTodos.ts:81 | a delete removes exactly the entries with the id and keeps the rest in order |
| UseTodos.TodoHook.constructor | utils/hooks/useTodos.ts:17-18 | a fresh hook has no todos and is not loading |
| UseTodos.TodoHook.Load | utils/hooks/useTodos.ts:22-35 | one query, newest first; an error keeps the list; success sets it to the data, or to `[]` for null |
| UseTodos.TodoHook.AddTodo | utils/hooks/useTodos.ts:38-55 | a blank task is a no-op with `loading` untouched; otherwise the untrimmed task is inserted, success prepends the row, an error keeps the list, and `loading` ends false |
| UseTodos.TodoHook.ToggleComplete | utils/hooks/useTodos.ts:58-74 | writes `!completed`; the list changes only without an error |
| UseTodos.TodoHook.DeleteTodo | utils/hooks/useTodos.ts:77-84 | the list loses the id only without an error |
| UseTodos.TodoHook.UpdateTodo | utils/hooks/useTodos.ts:87-104 | a blank task is ignored with no call; otherwise matching entries take the task only without an error |
| UseTodos.ToggleBackScenario | utils/hooks/useTodos.ts:58-74 | two successful toggles through the hook restore its list |
| PokemonReviews.PokemonUrl | utils/hooks/usePokemonReviews.ts:22-24 | the lookup URL is the PokéAPI endpoint followed by the lower-cased search |
| PokemonReviews.PokemonUrlIgnoresCase | utils/hooks/usePokemonReviews.ts:23 | searches that differ only in case request the same URL |
| PokemonReviews.PokemonUrlLowered | utils/hooks/usePokemonReviews.ts:23 | a lower-cased search requests the same URL as the original |
| PokemonReviews.ReviewOrder | utils/hooks/usePokemonReviews.ts:56 | reviews are ordered by `pokemon_name` exactly when `sortBy` is `name` |
| PokemonReviews.ToPokemon | utils/hooks/usePokemonReviews.ts:33-39 | the shown Pokémon keeps the answer's name and front sprite |
| PokemonReviews.WithoutReviewSpec | utils/hooks/usePokemonReviews.ts:88 | the optimistic removal drops exactly the entries with the id and keeps the rest in order |
| PokemonReviews.ReviewsAfter | utils/hooks/usePokemonReviews.ts:60-62 | after a select the list is the rows; an error or a null answer empties it |
| PokemonReviews.NameOf | utils/hooks/usePokemonReviews.ts:95 | `pokemon?.name` is present exactly when a Pokémon is |
| PokemonReviews.ReviewsHook.constructor | utils/hooks/usePokemonReviews.ts:9-16 | the initial state: empty search, no Pokémon or reviews, rating 5, sort by date, not loading |
| PokemonReviews.ReviewsHook.SetSearch | utils/hooks/usePokemonReviews.ts:9 | only `search` changes |
| PokemonReviews.ReviewsHook.SetNewReview | utils/hooks/usePokemonReviews.ts:12 | only `newReview` changes |
| PokemonReviews.ReviewsHook.SetRating | utils/hooks/usePokemonReviews.ts:13 | only `rating` changes |
| PokemonReviews.ReviewsHook.SetSortBy | utils/hooks/usePokemonReviews.ts:14 | only `sortBy` changes |
| PokemonReviews.ReviewsHook.FetchReviews | utils/hooks/usePokemonReviews.ts:50-64 | one ascending select in the chosen order; the list becomes the rows or `[]`; `loading` ends false |
| PokemonReviews.ReviewsHook.FetchPokemon | utils/hooks/usePokemonReviews.ts:19-47 | an empty search requests nothing; not-ok or an exception clears the Pokémon and sets `notFound`; success shows it, fetches its reviews and clears `notFound` |
| PokemonReviews.ReviewsHook.AddReview | utils/hooks/usePokemonReviews.ts:67-80 | no Pokémon or an empty draft is a no-op; otherwise insert, clear the draft, and refetch whether or not the insert failed |
| PokemonReviews.ReviewsHook.DeleteReview | utils/hooks/usePokemonReviews.ts:83-97 | a non-owner gets the permission alert and nothing changes; the owner's review leaves the list before the delete; a failed delete refetches |
| PokemonReviews.OwnDeleteScenario | utils/hooks/usePokemonReviews.ts:88-96 | after an owner's successful delete, no review with that id is left and the rest keep their order |
| ImageSrc.ImageSrc | utils/photos/photo-util/getImgSrc.ts:1-6 | absolute URLs pass through; any other URL goes under the project's public `photos` bucket |
| ImageSrc.ImageSrcEndsWithUrl | utils/photos/photo-util/getImgSrc.ts:3-5 | in both branches the result ends with the input URL |
| ImageSrc.ImageSrcIdempotent | utils/photos/photo-util/getImgSrc.ts:2-5 | with an absolute project URL every result is absolute and the function is idempotent |
| ImageSrc.UnsetBaseNotIdempotent | utils/photos/photo-util/getImgSrc.ts:5 | for every relative URL, without the environment variable the result is `undefined/storage/v1/object/public/photos/` followed by the URL, and applying the mapping a second time changes that result, so it is not idempotent |
| NavLinks.RootDisjunctSubsumed | components/NavLinks/MobileNavLinks.tsx:25-28 | the `"/"`/`"/"` disjunct adds nothing: active means equal or a child path |
| NavLinks.EqualIsActive | components/NavLinks/DesktopNavLinks.tsx:18-21 | a link is active on its own path |
| NavLinks.NoneNeverActive | components/NavLinks/DesktopNavLinks.tsx:21 | a null pathname activates no link |
| NavLinks.ActiveExtensionIff | components/NavLinks/DesktopNavLinks.tsx:19-21 | on a path extending `href`, the link is active exactly when the rest is empty or starts with `/` |
| NavLinks.ActiveExtendsHref | components/NavLinks/DesktopNavLinks.tsx:18-21 | every active path starts with `href`, followed by nothing or by `/` |
| NavLinks.SiblingNotActive | components/NavLinks/DesktopNavLinks.tsx:21 | `/todosX` does not activate `/todos`; `/todos/1` does |
| NavLinks.HomeLinkIff | components/NavLinks/MobileNavLinks.tsx:26-28 | the home link is active only on `/` and on paths starting with `//` |
| NavLinks.DesktopLink | components/NavLinks/DesktopNavLinks.tsx:27-48 | the desktop link always renders and is highlighted exactly when `isActive` holds |
| NavLinks.MobileLink | components/NavLinks/MobileNavLinks.tsx:35-60 | the mobile link renders nothing exactly when the menu is closed, and otherwise the same link |
| NavLinks.MobileClick | components/NavLinks/MobileNavLinks.tsx:30-33 | a mobile click pushes the route and closes the menu |
| NavLinks.ClickHidesMobileLinks | components/NavLinks/MobileNavLinks.tsx:32-37 | after a mobile click no mobile link renders |
| FoodRoute.FoodOrder | app/api/food/route.ts:10-16 | `photo_name` exactly for sort type `name`; an absent or empty sort type sorts by `created_at` |
| FoodRoute.Get | app/api/food/route.ts:7-24 | one ascending select with no user filter; 500 with the error message, or 200 with the rows |
| FoodRoute.FirstFailFrom | app/api/food/route.ts:44-67 | the first failing file from a position on: every earlier file gets through, and there is none exactly when every file gets through |
| FoodRoute.UploadsEveryFile | app/api/food/route.ts:45-50 | in the calls of the first `n` turns, each of those files was uploaded at its own `drive/<stamp>_<name>` key |
| FoodRoute.Post | app/api/food/route.ts:27-70 | no user ID gives 400 before the files are read, and no files gives 400; if every file gets through, 200 with one row per file in file order; otherwise the first failure gives 500 with its message and stops, after the earlier files were uploaded |
| FoodRoute.Delete | app/api/food/route.ts:73-109 | a missing parameter gives 400 with no call; a storage error gives 500 and skips the row delete; a row error gives 500; success gives 200 with its message |
| FoodRoute.Patch | app/api/food/route.ts:112-132 | a missing field gives 400 with no call; the update targets the `photos` table; 500 with the error, or 200 with the row |
| FoodRoute.RefusedMakesNoCall | app/api/food/route.ts:79-118 | a DELETE or PATCH answers 400 exactly when it made no backend call |
| FoodReviewsRoute.Username | app/api/food/reviews/route.ts:42 | `profiles?.username ?? "Unknown"`: a present name, even an empty one, is kept; otherwise `Unknown` |
| FoodReviewsRoute.NamedRowsSpec | app/api/food/reviews/route.ts:40-44 | the mapping keeps the row count, the order and each row's fields, and adds the username |
| FoodReviewsRoute.Get | app/api/food/reviews/route.ts:5-57 | a missing photo id gives 400 with no query; a query error gives 500 with its message; null data gives the generic 500; success gives 200 with the mapped rows |
| FoodReviewsRoute.Post | app/api/food/reviews/route.ts:60-104 | an unreadable body gives 500; any falsy field gives 400 with no insert; otherwise the insert runs first, then a review over 250 gets 400, an insert error gets 500 with details, and success gets HTTP 200 with body `{status: 201}` |
| FoodReviewsRoute.PostInsertsIffComplete | app/api/food/reviews/route.ts:65-86 | a review is inserted exactly when all four fields are truthy, so a 400 after an insert means the review was too long |
| FoodReviewsRoute.PostNeverAnswers201 | app/api/food/reviews/route.ts:96 | the HTTP status is never 201; a 200 always carries `{status: 201}` |
| FoodReviewsRoute.ZeroRatingRefused | app/api/food/reviews/route.ts:65-70 | a rating of 0 is refused as a missing field |
| FoodReviewsRoute.Delete | app/api/food/reviews/route.ts:105-124 | a missing id gives 400 with no call; an error gives 500 "Failed to delete review"; success gives "Review deleted" |
| AuthCallback.ProfileName | app/auth/callback/route.ts:28-29 | the metadata username if truthy, else `user_` followed by the first six characters of the id; never empty |
| AuthCallback.FinalLocation | app/auth/callback/route.ts:57-59 | the location always starts with the origin; what follows the origin is `redirect_to` when it is truthy and `/` otherwise |
| AuthCallback.Callback | app/auth/callback/route.ts:4-60 | no code: no calls and the final redirect; an auth error or no user: `/sign-in?error=auth_failed`; a profile is looked up and inserted only when missing; an insert error: `/sign-in?error=profile_insert_failed` |
| AuthCallback.InsertsProfileIff | app/auth/callback/route.ts:38-46 | a profile is inserted exactly when a code signed in a user who had none, and under a non-empty name |
| AuthCallback.StaysOnOrigin | app/auth/callback/route.ts:24-59 | every redirect starts with the request's origin |
| Actions.SignUpAction | app/actions.ts:8-81 | the checks run in source order, each ending the action: username required, username taken, over 12 characters, email and password required, email exists, no user from sign-up, profile insert error; success redirects to `/` |
| Actions.UsernameCheckOrder | app/actions.ts:25-40 | a taken username reports "taken" at any length; a free one is refused for length exactly when it is over 12 |
| Actions.SignUpCallsOnlyAfterChecks | app/actions.ts:42-74 | `auth.signUp` is called exactly when every earlier check passed; a profile is inserted only for a created user |
| Actions.SignInAction | app/actions.ts:83-98 | one sign-in call; an error goes back to `/sign-in` with its message, otherwise to `/` |
| Actions.ForgotPasswordAction | app/actions.ts:100-132 | a missing email is refused with no call; the reset link points at the callback with the reset page; an error gives "Could not reset password"; then `callbackUrl` if given, else the success message |
| Actions.ResetPasswordAction | app/actions.ts:134-169 | required fields first, then equality, then the update result; every redirect is to `/protected/reset-password` |
| Actions.ResetUpdatesIff | app/actions.ts:140-158 | the password is updated exactly when both fields are equal and non-empty, and every outcome is an encoded redirect to the reset page |

## Left out

- Every `fetch`, Supabase table, storage and auth call is foreign. Its answer is a parameter, and the backend's own behaviour and consistency are not modelled.
- Overlapping async operations (a stale load after a sort change, a delete racing a rename) come from the React event loop. Each operation is atomic here.
- React scheduling of effects is not modelled. Loads are methods called when the user or sort type changes.
- The reviews fetch that the Pokémon hook starts without awaiting it runs to completion inside the method that starts it.
- The values `uploading` and `loading` hold while a call is in flight cannot be observed in an atomic method. Only their value at the end is stated.
- Console output is left out.
- Toasts and alerts are kept only as a ghost log of their messages.
- `toLowerCase` maps only ASCII letters. Unicode case mapping is not modelled.
- String lengths (the 12-character username limit, the 250-character review limit, `substring(0, 6)`) count code points. JavaScript counts UTF-16 units.
- The `usePhoto` loads read the parsed body as a photo list or a falsy value. A non-ok response with some other truthy JSON body, which the code would store as the list, is not modelled.
- Form and JSON fields are strings or absent (`rating` an integer or absent). Other JSON types and `NaN` are not modelled.
- `Date.now()`, `new Date().toISOString()`, request origins and `NEXT_PUBLIC_SUPABASE_URL` are parameters.
- utils/utils.ts is not part of this model. `encodedRedirect` is a terminal redirect carrying its type, path and message, because the Next.js `redirect` it wraps never returns.
- A request body that makes `req.formData()` throw in `POST /api/food`, or `req.json()` throw in `PATCH /api/food`, is left out, because neither call is inside a `try`.
- `signOutAction` is a single sign-out call and a redirect to `/sign-in`. It is outside the four form chains and is not modelled.
- The React rendering of the link components beyond their highlighting and presence is not modelled. Neither are their styling and icons.
- PokemonReviews.ToPokemon: cries, types and abilities are copied through as opaque values, so only the name and sprite are stated.
