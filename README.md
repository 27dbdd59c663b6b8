# uc-navigator campus app: a Dafny model of its rules

uc-navigator is a campus guide for students of the Pontificia Universidad
Católica de Chile. It offers a searchable list of places (cafeterias,
libraries, study rooms, bathrooms), place pages with reviews and situation
reports, an event list with subscriptions, a keyword assistant, and a rewards
programme ("UCPuntos") in which a points balance buys coupons for prizes.

This project models the rules behind those screens and proves what they
guarantee. There is one module per source file of the core:

- `Points` models the rewards ledger of `PointsProvider`:
  - the balance and the append-only coupon list of the active user;
  - what a change of user loads;
  - the mirroring of both into the browser's key-value store under
    `points_<id>` and `cupones_<id>`;
  - `addPoints` and the guarded `redeemPrize`.

  A pure `LedgerState` with a log of calls (`Op`, `Run`) states what the
  operations do. The class `PointsProvider` keeps the same fields the React
  provider keeps, and every method is proved to follow the pure step. The
  invariant says the store mirrors the state and the state is the run of the
  calls since the last change of user.
- `Auth` models the login rule of `AuthContext`:
  - the email must end in `@uc.cl`;
  - the user record is built from the email alone (id `"1"`, name before the
    first `@`, admin only for `admin@uc.cl`);
  - the session is kept under `reduc_user`, restored on mount and removed on
    logout.
- `Ranking` models the rewards page:
  - the live balance laid over the leaderboard snapshot;
  - a stable sort by descending points, proved sorted, a permutation and
    order-keeping among equal scores;
  - the rank labels, affordability, the coupon badge;
  - `handleCanjear` in front of the ledger.
- `Home` models the place search: a case-insensitive query over name and
  type, an all-tags filter, and the tag chips that toggle the selection.
- `Eventos` models the subscription list and its toggle.
- `LugarDetail` models:
  - the lookup by route id;
  - review-draft validation (whitespace-only text is refused);
  - the star rating kept in 1..5 with its filled stars;
  - the situation report, which changes nothing.
- `Chatbot` models:
  - the ordered first-match keyword rules over the lowercased message;
  - the replies built from the catalog;
  - the conversation: one user message per send, then one bot message per
    scheduled reply.

Three shared modules support them:

- `Types` holds the records of `src/types/index.ts`, plus the coupon and
  decoded store values.
- `Text` holds lowercasing, `includes`, `trim` and decimal rendering.
- `Seqs` holds filtering, subsequences and the add-or-remove toggle.

Toggling the same id twice does not always give back the list. When the id
was present and not last, it comes back at the end. `Seqs.ToggleTwiceRestores`
states exactly when the list is restored, and `Seqs.ToggleTwiceSameMembers`
shows that membership always is. `Home.ToggleTwiceReorders` and
`Eventos.ToggleTwiceMoves` give concrete lists that come back reordered.

The catalog data (places, events, leaderboard, prizes) lives in a data module
that is not part of this model. It is a parameter everywhere. Clock readings
(`Date.now()`, `new Date()`) and their renderings are parameters too.

## Model

| member | source | states |
|---|---|---|
| `Text.Lower` | src/pages/Home.tsx:35-36 | the lowercased text has the same length and each character lowered (ASCII letters) |
| `Text.LowerIdempotent` | src/pages/Chatbot.tsx:29 | lowering an already lowered text changes nothing |
| `Text.Contains` | src/pages/Chatbot.tsx:31 | `includes`: defined as a match at the start or further on; `ContainsAt`, `ContainsWitness`, `ContainsChars`, `ContainsWithin`, `ContainsLeft` and `ContainsRight` prove it holds exactly when the needle occurs at some index |
| `Text.ContainsAt` | src/pages/Home.tsx:35-36 | an occurrence at any position makes `includes` true |
| `Text.ContainsWitness` | src/pages/Chatbot.tsx:31 | whenever `includes` holds there is a position where the text occurs |
| `Text.ContainsChars` | src/pages/Chatbot.tsx:58 | every character of an occurring string is a character of the text |
| `Text.ContainsLeft` | src/pages/Chatbot.tsx:35-37 | a text occurs at the start of any extension of it |
| `Text.ContainsRight` | src/pages/Chatbot.tsx:35-37 | what occurs in the second part of a concatenation occurs in the whole |
| `Text.ContainsWithin` | src/pages/Chatbot.tsx:35-37 | what occurs in a part of a concatenation occurs in the whole |
| `Text.TrimStart` | src/pages/LugarDetail.tsx:35 | the result is a suffix, what was cut is all whitespace, and it does not start with whitespace |
| `Text.TrimEnd` | src/pages/Chatbot.tsx:75 | the result is a prefix, what was cut is all whitespace, and it does not end with whitespace |
| `Text.Trim` | src/pages/LugarDetail.tsx:35 | `trim()`: defined as `TrimStart` then `TrimEnd`, whose contracts are stated above; `TrimEmptyIffBlank` proves when it is empty |
| `Text.TrimEmptyIffBlank` | src/pages/LugarDetail.tsx:35-42 | `trim()` is empty exactly when the text is empty or whitespace only |
| `Text.NatToString` | src/contexts/PointsContext.tsx:73 | the decimal rendering is non-empty, digits only, two or more digits exactly from 10 up, no leading zero, and the digits denote the number |
| `Text.NatToStringInjective` | src/pages/UCPuntos.tsx:216 | different numbers render differently |
| `Seqs.Filter` | src/pages/Home.tsx:33-41 | the result holds exactly the elements that satisfy the predicate and is no longer than the input |
| `Seqs.FilterCount` | src/pages/Home.tsx:33-41 | every element that satisfies the predicate is kept as many times as it occurs; every other element occurs zero times |
| `Seqs.FilterIsSubsequence` | src/pages/Home.tsx:33 | filtering keeps the input's order: the result is a subsequence |
| `Seqs.FilterKeepsAll` | src/pages/Home.tsx:34-39 | a predicate true of every element keeps the whole list |
| `Seqs.FilterMonotone` | src/pages/Home.tsx:37-39 | a stronger predicate selects a subsequence of what a weaker one selects |
| `Seqs.FilterNoDuplicates` | src/pages/Eventos.tsx:17 | filtering a list without duplicates gives a list without duplicates |
| `Seqs.RemoveAll` | src/pages/Eventos.tsx:17 | the removed id is gone and every other element's membership is unchanged |
| `Seqs.Toggle` | src/pages/Home.tsx:29 | the add-or-remove update: defined as the list without `x` when `x` is listed, else the list with `x` appended; proved about it in `ToggleMembership`, `ToggleShape`, `ToggleNoDuplicates`, `ToggleTwiceSameMembers` and `ToggleTwiceRestores` |
| `Seqs.ToggleMembership` | src/pages/Home.tsx:27-31 | the toggled element's membership flips; no other element's changes |
| `Seqs.ToggleShape` | src/pages/Home.tsx:29 | an absent element is appended at the end; a present one is removed and the list shrinks to a subsequence |
| `Seqs.ToggleNoDuplicates` | src/pages/Home.tsx:27-31 | toggling never creates a duplicate |
| `Seqs.ToggleTwiceSameMembers` | src/pages/Home.tsx:28-30 | toggling twice restores the set of members |
| `Seqs.ToggleTwiceRestores` | src/pages/Eventos.tsx:15-29 | on a duplicate-free list, toggling twice restores the list exactly when the id was absent or last |
| `Points.KeysDistinct` | src/contexts/PointsContext.tsx:28-29 | a user's two record keys differ, and each key determines its user id |
| `Points.Earn` | src/contexts/PointsContext.tsx:61-63 | `addPoints`: defined as the balance plus the amount, coupons kept; proved about it in `EarnTwice` and `StepConserves` |
| `Points.Redeem` | src/contexts/PointsContext.tsx:65-80 | `redeemPrize`: defined as refusal on a short balance, else deduction plus one coupon; proved about it in `RedeemOutcome`, `RepeatedRefusal` and `StepConserves` |
| `Points.Step` | src/contexts/PointsContext.tsx:61-80 | one call of either kind applied to a ledger state; proved about it in `StepConserves` |
| `Points.Run` | src/contexts/PointsContext.tsx:61-80 | a sequence of calls applied in order; proved about it in `RunConserves`, `RunCouponsFromCalls` and `RunNonNegative`, and tied to the provider by its invariant |
| `Points.Load` | src/contexts/PointsContext.tsx:26-44 | what a user change loads: the saved balance or 850, the saved coupons or those held, or the empty state with no user; proved about it in `LoadNoUser`, `LoadNewUser`, `LoadSaved`, `ReloadRestores` and `ProviderReloads` |
| `Points.Persist` | src/contexts/PointsContext.tsx:48-59 | the two save effects: the user's two keys rewritten; proved about it in `PersistMirrors` and `PersistIdle` |
| `Points.NewCupon` | src/contexts/PointsContext.tsx:72-76 | the new coupon carries the prize and the date, and its id starts with `cupon_` |
| `Points.RedeemOutcome` | src/contexts/PointsContext.tsx:65-80 | redeeming succeeds iff the balance covers the cost; on refusal nothing changes; on success the cost is deducted and exactly one coupon for that prize is appended after the unchanged old ones |
| `Points.StepConserves` | src/contexts/PointsContext.tsx:61-79 | one `addPoints` or `redeemPrize` call keeps the coupons held as a prefix, and the balance plus the cost of the coupons from any position on grows by exactly what the call earns |
| `Points.RunConserves` | src/contexts/PointsContext.tsx:61-79 | over any sequence of calls, the old coupons stay as a prefix and the final balance is start + earned - costs of the coupons appended |
| `Points.RunCouponsFromCalls` | src/contexts/PointsContext.tsx:72-78 | every appended coupon carries the prize of one of the `redeemPrize` calls |
| `Points.RunNonNegative` | src/contexts/PointsContext.tsx:62-70 | with non-negative amounts the balance never becomes negative |
| `Points.RepeatedRefusal` | src/contexts/PointsContext.tsx:66-68 | repeating a refused redemption any number of times leaves the state unchanged |
| `Points.EarnTwice` | src/contexts/PointsContext.tsx:61-63 | two earnings add up, whatever the reasons |
| `Points.LoadNoUser` | src/contexts/PointsContext.tsx:41-44 | with no user the ledger is balance 0 and no coupons |
| `Points.LoadNewUser` | src/contexts/PointsContext.tsx:28-40 | a user with no saved records gets 850 and keeps the coupons already held |
| `Points.LoadSaved` | src/contexts/PointsContext.tsx:27-39 | a user with saved records gets exactly the saved balance and the saved coupons, whatever was held before |
| `Points.PersistMirrors` | src/contexts/PointsContext.tsx:48-59 | the saves mirror balance and coupons under the user's keys and touch no other key; with no user the store is unchanged |
| `Points.PersistIdle` | src/contexts/PointsContext.tsx:48-59 | saving an already mirrored state changes nothing |
| `Points.ReloadRestores` | src/contexts/PointsContext.tsx:26-59 | loading a user's records right after the saves wrote a state gives back that state |
| `Points.PointsProvider.constructor` | src/contexts/PointsContext.tsx:22-23 | the provider starts with no user, balance 0 and no coupons |
| `Points.PointsProvider.OnUserChange` | src/contexts/PointsContext.tsx:26-59 | the new state is what the user change loads (saved balance or 850, saved coupons or those held, or empty for no user), and the store then mirrors it; by `ProviderReloads` a later reload gives back the provider's state |
| `Points.PointsProvider.AddPoints` | src/contexts/PointsContext.tsx:61-63 | the balance rises by exactly the amount, coupons unchanged, the store mirrors the new state |
| `Points.PointsProvider.RedeemPrize` | src/contexts/PointsContext.tsx:65-80 | returns true iff the balance covers the cost; false leaves balance, coupons and store unchanged; true deducts the cost, appends the one new coupon and mirrors the result |
| `Points.ProviderReloads` | src/contexts/PointsContext.tsx:26-59 | while a user is active, loading from the provider's store gives back its current balance and coupons |
| `Auth.EndsWith` | src/contexts/AuthContext.tsx:26 | `endsWith`: defined by the last characters; characterised in `EndsWithIff` |
| `Auth.EndsWithIff` | src/contexts/AuthContext.tsx:26 | `endsWith(suffix)` holds exactly when the text is some prefix followed by the suffix |
| `Auth.BeforeFirst` | src/contexts/AuthContext.tsx:34 | `split(c)[0]` is a prefix with no `c`, followed by `c` when shorter than the text |
| `Auth.LoginResult` | src/contexts/AuthContext.tsx:24-41 | the outcome of `login`: the mock user for a `@uc.cl` email, none otherwise; proved about it in `LoginAccepted`, `AdminOnlyExact` and `SharedLedgerKeys` |
| `Auth.Restore` | src/contexts/AuthContext.tsx:16-22 | the user a saved session restores; the provider's invariant keeps the user equal to it |
| `Auth.LoginAccepted` | src/contexts/AuthContext.tsx:31-36 | an accepted email yields the user with id "1", that email, the text before the first '@' as name, and the admin flag exactly for `admin@uc.cl` |
| `Auth.AdminOnlyExact` | src/contexts/AuthContext.tsx:35 | a login yields an admin exactly for the email `admin@uc.cl` |
| `Auth.SharedLedgerKeys` | src/contexts/AuthContext.tsx:32 | any two accepted logins get the same id and so the same ledger keys |
| `Auth.SessionKeySeparate` | src/contexts/AuthContext.tsx:39 | the session key is none of the ledger's keys |
| `Auth.AuthProvider.constructor` | src/contexts/AuthContext.tsx:16-22 | on mount the user is the saved session's user if there is one |
| `Auth.AuthProvider.Login` | src/contexts/AuthContext.tsx:24-41 | succeeds iff the email ends in `@uc.cl`; refusal changes nothing; success sets the mock user and saves it as the session, so `isAuthenticated` becomes true; the password plays no part |
| `Auth.AuthProvider.Logout` | src/contexts/AuthContext.tsx:43-46 | the user is cleared, so `isAuthenticated` is false, and the session key removed, the rest of the store kept |
| `Ranking.UpdatedPuntos` | src/pages/UCPuntos.tsx:20-22 | same rows in the same order; only rows whose name is the active user's carry the live balance |
| `Ranking.SortDesc` | src/pages/UCPuntos.tsx:23 | the stable descending sort, defined by insertion; proved about it in `InsertDescPermutation`, `InsertDescSorted`, `InsertDescStable` and `SortDescCorrect` |
| `Ranking.SortedPuntos` | src/pages/UCPuntos.tsx:20-23 | `sortedPuntos`: the updated leaderboard, sorted; proved about it in `RankingEntries` and `DisplayAgreesWithOrder` |
| `Ranking.InsertDescPermutation` | src/pages/UCPuntos.tsx:23 | inserting adds exactly the one row |
| `Ranking.InsertDescSorted` | src/pages/UCPuntos.tsx:23 | inserting into a non-increasing list keeps it non-increasing |
| `Ranking.InsertDescStable` | src/pages/UCPuntos.tsx:23 | inserting keeps the order of equal scores, the new row first among them |
| `Ranking.SortDescCorrect` | src/pages/UCPuntos.tsx:23 | the sort is non-increasing, a permutation, and keeps the input order among equal scores |
| `Ranking.RankingEntries` | src/pages/UCPuntos.tsx:20-23 | the ranking holds the updated rows, one each, sorted by non-increasing points, ties in snapshot order |
| `Ranking.DisplayAgreesWithOrder` | src/pages/UCPuntos.tsx:245 | every row shows the score it was sorted by |
| `Ranking.RankIcon` | src/pages/UCPuntos.tsx:212-217 | `getRankIcon`: medals for the first three, the 1-based number and '.' after; proved about it in `RankIconShape` and `RankIconInjective` |
| `Ranking.RankIconShape` | src/pages/UCPuntos.tsx:212-217 | positions 0, 1 and 2 get the gold, silver and bronze medals; a later position gets decimal digits denoting its 1-based number, followed by '.' |
| `Ranking.RankIconInjective` | src/pages/UCPuntos.tsx:212-216 | distinct positions get distinct labels |
| `Ranking.CanAfford` | src/pages/UCPuntos.tsx:100 | `canAfford`: the balance covers the cost; proved equal to the ledger's acceptance in `CanAffordIffRedeemable` |
| `Ranking.CanAffordIffRedeemable` | src/pages/UCPuntos.tsx:100 | the button is enabled exactly when the ledger would accept the redemption |
| `Ranking.RedeemRaisesBadge` | src/pages/UCPuntos.tsx:82-84 | after a successful redemption the "Mis Cupones" badge shows one more coupon than were held before |
| `Ranking.RefusalKeepsBadge` | src/pages/UCPuntos.tsx:82-84 | a refused redemption leaves the badge as it was |
| `Ranking.NoUserNoBadge` | src/pages/UCPuntos.tsx:82-84 | with no active user no badge is shown |
| `Ranking.HandleCanjear` | src/pages/UCPuntos.tsx:25-42 | a short balance reports the positive shortfall cost - balance and leaves the ledger alone; otherwise the ledger redeems once, the store mirrors the new state under the user's keys and is otherwise unchanged, and the prize is reported |
| `Home.MatchesSearch` | src/pages/Home.tsx:34-36 | the query in the lowered name or type; proved about it in `SearchIgnoresDescriptionAndTags` |
| `Home.FilteredLugares` | src/pages/Home.tsx:33-41 | `filteredLugares`: the catalog filtered by search and tags; proved about it in `FilteredExactly`, `EmptySearchListsAll` and `ExtraFilterNarrows` |
| `Home.FilteredExactly` | src/pages/Home.tsx:33-41 | a place is listed iff it is in the catalog, the lowered query occurs in its lowered name or type, and it carries every selected tag; the listing keeps catalog order and lists each such place as often as the catalog does |
| `Home.SearchIgnoresDescriptionAndTags` | src/pages/Home.tsx:34-36 | the query does not look at the description or the tags |
| `Home.EmptySearchListsAll` | src/pages/Home.tsx:34-39 | an empty query and no selected tag list the whole catalog |
| `Home.ExtraFilterNarrows` | src/pages/Home.tsx:37-39 | selecting one more tag gives a subsequence of the previous listing |
| `Home.ShownTags` | src/pages/Home.tsx:159 | a card shows the first three tags, or all of them when fewer |
| `Home.HomePage.constructor` | src/pages/Home.tsx:15-16 | the page starts with an empty query and no tag selected |
| `Home.HomePage.SetSearchQuery` | src/pages/Home.tsx:82 | typing sets the query and keeps the selection |
| `Home.HomePage.ToggleFilter` | src/pages/Home.tsx:27-31 | the selection becomes the toggle of the old one; the chip's membership flips, no other tag's changes, and it stays duplicate-free |
| `Home.HomePage.ResultCount` | src/pages/Home.tsx:132 | the heading count is the number of places listed, at most the catalog size |
| `Home.ToggleKeepsOffered` | src/pages/Home.tsx:18-25 | clicking only the offered chips keeps the selection among the offered tags |
| `Home.ToggleTwiceReorders` | src/pages/Home.tsx:27-31 | toggling a selected, non-last chip twice returns the same tags reordered |
| `Eventos.EventosPage.constructor` | src/pages/Eventos.tsx:13 | the subscription list starts empty |
| `Eventos.EventosPage.HandleSuscribirse` | src/pages/Eventos.tsx:15-29 | an unsubscribed id is appended, a subscribed one removed; only that id's membership changes, so `isSuscrito` flips for that event and no other; the list keeps no duplicates |
| `Eventos.EventosPage.ButtonLabel` | src/pages/Eventos.tsx:70 | the button reads "Suscrito" iff the event is subscribed |
| `Eventos.ToggleTwiceMoves` | src/pages/Eventos.tsx:16-23 | cancelling and renewing a subscription that was not the last moves it to the end |
| `LugarDetail.FindLugar` | src/pages/LugarDetail.tsx:22 | no result iff no place has the id; otherwise the result is a place in the catalog with that id, before which no place has it |
| `LugarDetail.FindSkipsOthers` | src/pages/LugarDetail.tsx:22 | places with other ids in front do not change the lookup |
| `LugarDetail.StarsUpTo` | src/pages/LugarDetail.tsx:182-191 | star number i is filled exactly when i <= rating |
| `LugarDetail.FilledStarsCount` | src/pages/LugarDetail.tsx:182-189 | the number of filled stars is the rating clamped to the number of stars |
| `LugarDetail.AlertNotice` | src/pages/LugarDetail.tsx:54 | the notice starts "Se ha reportado: " and names the reported kind |
| `LugarDetail.AlertNoticeInjective` | src/pages/LugarDetail.tsx:52-55 | each kind of report gets its own notice |
| `LugarDetail.LugarDetailPage.constructor` | src/pages/LugarDetail.tsx:22-32 | the page shows the first place with the route id (or the not-found view), an empty draft and rating 5 |
| `LugarDetail.LugarDetailPage.SetNewReview` | src/pages/LugarDetail.tsx:197 | typing sets the draft and keeps the rating |
| `LugarDetail.LugarDetailPage.SetRating` | src/pages/LugarDetail.tsx:190 | clicking a star sets the rating to that star, which stays in 1..5 |
| `LugarDetail.LugarDetailPage.HandleSubmitReview` | src/pages/LugarDetail.tsx:34-49 | accepted iff the draft is not whitespace-only; a refused draft is kept; an accepted one is cleared; nothing else changes |
| `LugarDetail.LugarDetailPage.HandleCreateAlert` | src/pages/LugarDetail.tsx:51-56 | reporting produces the notice and changes no state |
| `LugarDetail.LugarDetailPage.FilledCount` | src/pages/LugarDetail.tsx:24 | with the rating in 1..5, the filled stars number exactly the rating |
| `Chatbot.FiresByKeywords` | src/pages/Chatbot.tsx:31-66 | each rule fires exactly when one of the keywords its branch tests occurs |
| `Chatbot.Classify` | src/pages/Chatbot.tsx:28-71 | the chosen rule fires, and no rule tried before it fires |
| `Chatbot.FallbackIffNoneFires` | src/pages/Chatbot.tsx:71 | the fallback reply is chosen exactly when no rule fires |
| `Chatbot.GreetsOnHi` | src/pages/Chatbot.tsx:63-68 | "hi" anywhere in the message, with no earlier keyword, gives the greeting |
| `Chatbot.GreetingInsideWord` | src/pages/Chatbot.tsx:65 | "Chile" gets the greeting because it contains "hi" |
| `Chatbot.ClassifyChile` | src/pages/Chatbot.tsx:31-49 | no rule before the greeting fires on "chile" |
| `Chatbot.CaseInsensitive` | src/pages/Chatbot.tsx:29 | a message and its lowercase get the same reply |
| `Chatbot.Join` | src/pages/Chatbot.tsx:35-37 | `join(sep)`: the names with the separator between them; proved about it in `JoinContains` |
| `Chatbot.Reply` | src/pages/Chatbot.tsx:31-71 | the reply text of each rule: fixed text for the greeting and the fallback, otherwise the joined names of the places `Listed` selects; `ListedExactly` characterises those places and `ReplyNamesListed` proves, through `GetBotResponse`, that each is named |
| `Chatbot.GetBotResponse` | src/pages/Chatbot.tsx:28-71 | `getBotResponse`: the reply of the rule `Classify` picks for the lowered message; proved about it in `CaseInsensitive`, `ReplyNamesListed` and, through `Classify`, `GreetingInsideWord` |
| `Chatbot.JoinContains` | src/pages/Chatbot.tsx:35-37 | every joined name occurs in the joined text |
| `Chatbot.Names` | src/pages/Chatbot.tsx:36 | the names list has one entry per place, in order |
| `Chatbot.ListedExactly` | src/pages/Chatbot.tsx:32-60 | a rule's reply lists exactly the catalog places with "acepta JUNAEB", with type biblioteca or sala, with "opción vegana", or with type baño, in catalog order, each as often as the catalog lists it |
| `Chatbot.ReplyNamesListed` | src/pages/Chatbot.tsx:35-60 | the reply names every place its rule lists |
| `Chatbot.CountAppend` | src/pages/Chatbot.tsx:84 | appending a message adds one to its sender's count only |
| `Chatbot.ChatbotPage.constructor` | src/pages/Chatbot.tsx:18-26 | the conversation starts with the single bot greeting and an empty input |
| `Chatbot.ChatbotPage.SetInputValue` | src/pages/Chatbot.tsx:159 | typing sets the input and leaves the conversation alone |
| `Chatbot.ChatbotPage.Append` | src/pages/Chatbot.tsx:94 | the message is added at the end and the counts move by its sender |
| `Chatbot.ChatbotPage.Pop` | src/pages/Chatbot.tsx:87 | the oldest scheduled reply is taken off the queue |
| `Chatbot.ChatbotPage.HandleSend` | src/pages/Chatbot.tsx:74-98 | whitespace-only input changes nothing; otherwise the user message is appended, its reply scheduled and the input cleared |
| `Chatbot.ChatbotPage.DeliverReply` | src/pages/Chatbot.tsx:87-95 | the oldest scheduled text gets exactly one bot message with its reply appended; the greeting stays first |
| `Chatbot.ChatbotPage.Settled` | src/pages/Chatbot.tsx:18-25 | with no reply pending, there is one bot message more than user messages |

## Left out

- `Text.Lower`: lowercases ASCII letters only. JavaScript's `toLowerCase` also lowers accented capitals, so a query like "BAÑO" matches "baño" there but not here.
- `Auth.AuthProvider.Login`: the login's `Promise` is not modelled. The result is returned directly.
- The effect scheduling of React is not modelled. `OnUserChange` performs the load and then both saves as one step. So the transient write of the previous user's balance under the new user's key, before the loaded state renders, is not modelled.
- In `redeemPrize`, the code checks the rendered balance but deducts from the latest balance through `setPoints(prev => …)`. Calls are one uninterrupted step here, so the race between these two is not modelled.
- Decoding of the stored text (`parseInt`, `JSON.parse`) is not modelled. The store holds decoded values, and a record of the wrong kind is treated as absent.
- The store is one map per provider. The browser shares one store, and `Auth.SessionKeySeparate` and `Points.KeysDistinct` show that the keys the two providers use never overlap.
- `setTimeout(…, 500)` is not modelled. The reply becomes a separate `DeliverReply` step that answers the oldest pending text.
- Toasts, navigation, rendering and CSS are not modelled. Their texts are modelled only where they carry a rule: the alert notice, the shortfall and the button label.
- The review toast promises "+50 UCPuntos" and the alert notice "+30 UCPuntos", but the code credits nothing. The model follows the code and credits nothing either.
- Locale date formatting is not modelled, and neither is the `toFixed(4)` coordinate display.
- The distance sort of the map page (floating-point haversine) is not modelled, nor the map page itself, which is a placeholder.
- The admin page is not modelled: it only shows toasts.
- The app's routing and provider wiring (`src/App.tsx`, `src/main.tsx`) are not modelled.
- The catalog data module is not part of this model. Its places, events, leaderboard and prizes are parameters.
