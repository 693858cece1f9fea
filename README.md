# Pokédex client: list filter, favourites and comment log in Dafny

This project models the stateful logic of a small SwiftUI Pokédex client:

- the **Pokémon record** (`Pokemon` with its type, sprite and ability entries) as datatypes: all seven
  fields are mandatory, `types` and `abilities` are ordered sequences of one-name entries, `height` and
  `weight` are plain integers (decimetres, hectograms), and `id` is the identity that the favourites
  set and the comment key use;
- the **list screen** (`ContentView`): its initial state, the fixed type menu, the load callback, and
  `updateFilteredList`, which keeps the Pokémon that pass both the type test ("Todos" or an exact type
  name) and the favourites test, then sorts them by name. The type menu buttons and the "Aplicar
  Filtros" button both run `UpdateFilteredList`; the favourites switch only sets its flag;
- the **favourites set**, owned by the list screen and written by each detail screen through a binding,
  modelled as one shared `FavoriteSet` object;
- the **detail screen** (`PokemonDetailView`): the heart button that flips one id's membership, and
  the per-Pokémon comment log stored under `"comments_<id>"` in a string-keyed store (`UserDefaults`,
  modelled as a class holding a `map<string, seq<string>>`);
- on values only, the **join of the initial fetch**: which detail records reach the list screen, given
  how each request ended.

Modules: `PokemonModel` (pokemon.dfy), `PokemonList` (pokemon_list.dfy), `PokemonDetail`
(pokemon_detail.dfy), `PokemonApi` (pokemon_api.dfy), and two helpers for what Swift's standard
library does: `StringOrder` (string `<`, string_order.dfy) and `Decimal` (`"\(id)"`, decimal.dfy).

Behaviour the model takes from the code as written:

- the name sort is Swift's `sort(by:)`, which is not guaranteed stable, so only "ascending by name and
  a permutation" is promised, never an order among equal names;
- a failed list request (or a list body that does not decode) never calls the completion, so the screen
  stays loading; it does not receive an empty list;
- a single detail request that fails in transport never leaves the dispatch group, so the join never
  fires and the screen stays loading with an empty list, even though the other records decoded
  (`OnAppear`; see "## Findings" for the corrected join);
- loading comments when no entry exists keeps the log the screen already has (it starts empty);
- the comment guard is `isEmpty` only: whitespace-only text is appended.

## Model

| member | source | states |
|---|---|---|
| `PokemonModel.ContainsType` | Pokedex_Cesae/ContentView.swift:159 | `types.contains { $0.type.name == t }` holds iff some type entry is named exactly `t` |
| `PokemonModel.HasTypeByName` | Pokedex_Cesae/Pokemon.swift:7-19 | a record's types are a list of entries each wrapping one name; the type test holds iff `t` is one of those names |
| `PokemonList.MatchesType` | Pokedex_Cesae/ContentView.swift:159 | a Pokémon passes the type test iff the selection is "Todos" or one of its type entries is named exactly the selection |
| `PokemonList.Matches` | Pokedex_Cesae/ContentView.swift:159-161 | a Pokémon is kept iff it passes the type test and the favourites test, both stated in terms of the record |
| `PokemonList.Filter` | Pokedex_Cesae/ContentView.swift:158-162 | the output is no longer than the list, and each output element is an element of the list that passes both tests |
| `PokemonList.FilterMultiplicity` | Pokedex_Cesae/ContentView.swift:158-162 | each record occurs in the output exactly as often as in the list if it passes both tests, and never otherwise |
| `PokemonList.FilterComplete` | Pokedex_Cesae/ContentView.swift:158-162 | no record of the list that passes both tests is dropped |
| `PokemonList.FavoritesOnlyKeepsFavorites` | Pokedex_Cesae/ContentView.swift:158-161 | with favourites-only on, every kept Pokémon is a favourite, and a Pokémon of the list that passes the type test is kept iff its id is a favourite |
| `PokemonList.FilterNoFavorites` | Pokedex_Cesae/ContentView.swift:160 | favourites-only with an empty favourites set lets nothing through, whatever the type |
| `PokemonList.FilterKeepsAll` | Pokedex_Cesae/ContentView.swift:159-160 | "Todos" with favourites-only off keeps the whole list |
| `PokemonList.FilterIdempotent` | Pokedex_Cesae/ContentView.swift:158-162 | filtering the filtered list again under the same settings changes nothing |
| `PokemonList.FireFilterExample` | Pokedex_Cesae/ContentView.swift:158-162 | [bulbasaur (grass, poison), charmander (fire)] filtered by "fire" is [charmander] |
| `PokemonList.FavoritesFilterExample` | Pokedex_Cesae/ContentView.swift:158-162 | the same list with "Todos", favourites-only and favourites {1} is [bulbasaur] |
| `StringOrder.Less` | Pokedex_Cesae/ContentView.swift:163 | one name sorts before another iff it is a proper prefix of it or has the smaller character where the two first differ |
| `StringOrder.LessIrreflexive` | Pokedex_Cesae/ContentView.swift:163 | no name sorts before itself |
| `StringOrder.LessTransitive` | Pokedex_Cesae/ContentView.swift:163 | the name comparison is transitive |
| `StringOrder.LessTotal` | Pokedex_Cesae/ContentView.swift:163 | of two different names one sorts before the other, so the comparison is a strict total order |
| `StringOrder.NotAfterTransitive` | Pokedex_Cesae/ContentView.swift:163 | "not after" is transitive |
| `PokemonList.NeighboursSortedIsSorted` | Pokedex_Cesae/ContentView.swift:163 | a list whose neighbours are in name order is ascending by name throughout |
| `PokemonList.SortByName` | Pokedex_Cesae/ContentView.swift:163 | the result is ascending by name and a permutation of the input |
| `PokemonList.SortedArrangementsAgreeOnNames` | Pokedex_Cesae/ContentView.swift:163 | any two ascending-by-name permutations of the same records list the same names in the same order |
| `PokemonList.UnfilteredViewShowsAll` | Pokedex_Cesae/ContentView.swift:159-163 | with "Todos" and favourites-only off the derived list holds exactly the loaded records |
| `PokemonList.NoFavoritesViewIsEmpty` | Pokedex_Cesae/ContentView.swift:160-163 | with favourites-only on and no favourites the derived list is empty |
| `PokemonList.FavoriteSet.constructor` | Pokedex_Cesae/ContentView.swift:7 | the favourites start empty |
| `PokemonList.ContentView.constructor` | Pokedex_Cesae/ContentView.swift:4-9 | empty lists, loading, no favourites, "Todos", favourites-only off; the selection is a menu entry |
| `PokemonList.ContentView.UpdateFilteredList` | Pokedex_Cesae/ContentView.swift:157-164 | the derived list becomes an ascending-by-name permutation of the filter of the loaded list; it is computed without the previous derived list and no other field changes |
| `PokemonList.ContentView.SelectType` | Pokedex_Cesae/ContentView.swift:27-30 | a menu button sets the selection to its own entry, keeps the selection within the menu, and recomputes the derived list |
| `PokemonList.ContentView.SetMostrarFavoritos` | Pokedex_Cesae/ContentView.swift:47 | the favourites switch sets its flag and changes nothing else, the derived list included |
| `PokemonList.ContentView.OnAppear` | Pokedex_Cesae/ContentView.swift:146-153 | with the join as written: when it fires, the list is installed, loading ends and the derived list is recomputed; when it does not (a failed list request, or any detail request that failed in transport), nothing changes and the screen stays loading |
| `PokemonList.ContentView.OnAppearCorrected` | Pokedex_Cesae/ContentView.swift:146-153 | the same with the corrected join: once the list request succeeds, the decoded records are installed and loading ends |
| `PokemonList.ContentView.OnPokemonLoaded` | Pokedex_Cesae/ContentView.swift:147-152 | the load callback installs the list, clears `isLoading` and leaves the derived list equal to the sorted filter of the new list |
| `Decimal.NatText` | Pokedex_Cesae/PokemonDetailView.swift:12 | a natural number is written as a non-empty run of digits without a leading zero (unless it is 0) that reads back as that number |
| `Decimal.IntText` | Pokedex_Cesae/PokemonDetailView.swift:12 | an id is written as canonical digits, preceded by '-' exactly when it is negative (never "-0"), reading back as that id |
| `Decimal.CanonicalDigitsAreNatText` | Pokedex_Cesae/PokemonDetailView.swift:12 | any canonical run of digits is the one written for the number it reads as |
| `Decimal.CanonicalNumeralIsIntText` | Pokedex_Cesae/PokemonDetailView.swift:12 | any canonical numeral is the one written for the integer it reads as, so the rendering of an id is pinned exactly |
| `Decimal.IntTextInjective` | Pokedex_Cesae/PokemonDetailView.swift:12 | different ids render differently |
| `PokemonDetail.CommentsKey` | Pokedex_Cesae/PokemonDetailView.swift:12 | the comment key is "comments_" followed by the canonical numeral of the id ("comments_7", never "comments_007") |
| `PokemonDetail.WellFormedKeyIsCommentsKey` | Pokedex_Cesae/PokemonDetailView.swift:12 | every "comments_" string with a canonical numeral after it is the key of exactly the id that numeral spells |
| `PokemonDetail.CommentsKeyInjective` | Pokedex_Cesae/PokemonDetailView.swift:12 | different ids give different comment keys |
| `PokemonDetail.Toggled` | Pokedex_Cesae/PokemonDetailView.swift:89-93 | the pressed id's membership flips and every other id's is kept |
| `PokemonDetail.ToggleTwice` | Pokedex_Cesae/PokemonDetailView.swift:89-93 | pressing the heart twice restores the favourites exactly |
| `PokemonDetail.SaveLeavesOthers` | Pokedex_Cesae/PokemonDetailView.swift:230-232 | saving one Pokémon's log leaves every other Pokémon's entry, present or absent, as it was |
| `PokemonDetail.PokemonDetailView.constructor` | Pokedex_Cesae/PokemonDetailView.swift:10-14 | the key is "comments_" then the id in decimal; empty field and log; the favourites are the list screen's own object |
| `PokemonDetail.PokemonDetailView.ToggleFavorite` | Pokedex_Cesae/PokemonDetailView.swift:88-93 | the shared favourites become the toggle of the old ones at this Pokémon's id |
| `PokemonDetail.PokemonDetailView.EditCommentText` | Pokedex_Cesae/PokemonDetailView.swift:156 | typing sets the comment field |
| `PokemonDetail.PokemonDetailView.AddComment` | Pokedex_Cesae/PokemonDetailView.swift:161-166 | empty text changes nothing; other text is appended after the unchanged log, the store's entry for this key becomes the new log and the field is cleared |
| `PokemonDetail.PokemonDetailView.LoadComments` | Pokedex_Cesae/PokemonDetailView.swift:224-228 | the log becomes the stored one when the key is present and is kept otherwise |
| `PokemonDetail.PokemonDetailView.SaveComments` | Pokedex_Cesae/PokemonDetailView.swift:230-232 | the store maps this key to the log; every other key is unchanged |
| `PokemonDetail.SubmitSample` | Pokedex_Cesae/PokemonDetailView.swift:161-166 | on an empty log over an empty store, an empty submission is ignored and "a", " ", "b" end up in order as the store's only entry, under this Pokémon's key |
| `PokemonDetail.CommentLogScenario` | Pokedex_Cesae/PokemonDetailView.swift:161-166 | over one empty store: an empty submission is ignored, "a", " ", "b" come back in order on a new screen for that Pokémon, and another Pokémon loads an empty log |
| `PokemonApi.Collected` | Pokedex_Cesae/PokemonAPI.swift:24-32 | with N detail requests of which K did not decode, N - K records are collected, each one a decoded record |
| `PokemonApi.CollectedComplete` | Pokedex_Cesae/PokemonAPI.swift:26-29 | every decoded record is collected |
| `PokemonApi.CollectedMultiplicity` | Pokedex_Cesae/PokemonAPI.swift:26-29 | each record is collected exactly as often as a detail request decoded it: none is lost, duplicated or invented |
| `PokemonApi.FetchAsWritten` | Pokedex_Cesae/PokemonAPI.swift:14-48 | a list is delivered iff the list request succeeded and no detail request failed in transport; when delivered it holds each record exactly as often as it was decoded |
| `PokemonApi.Fetch` | Pokedex_Cesae/PokemonAPI.swift:14-41 | with transport failures reported like decode failures, a list is delivered iff the list request succeeded; it has N - K records, each record exactly as often as it was decoded |
| `PokemonApi.TransportFailureStallsJoin` | Pokedex_Cesae/PokemonAPI.swift:44-48 | one decoded detail and one transport failure: the join as written delivers nothing, the corrected one delivers the decoded record |
| `PokemonApi.FetchAgreesWhenAllLeave` | Pokedex_Cesae/PokemonAPI.swift:24-36 | whenever the join as written delivers, it delivers what the corrected join delivers |

## Left out

- Layout and presentation: every `body`, `typeColor` and `backgroundColor` (colours built from floating-point values), `.capitalized` display strings, images, navigation, animation and the hover state `hoveredPokemonID`.
- Networking and JSON decoding: the requests, `URLSession`, `JSONDecoder` and dispatch queues are not modelled; how each request ended, and the order the details completed in, are inputs to `PokemonApi`. An unparsable detail URL (PokemonAPI.swift:45) returns without completion just like a transport failure, so it is covered by `TransportFailed`; the list URL is a constant that always parses.
- The page size of the list URL: the number of listed entries is an input, since the endpoint decides it.
- Persistence: `UserDefaults` is a map held in memory; what survives a relaunch is not modelled. Its `as? [String]` cast cannot fail here because the map only holds string lists.
- `PokemonList.SortByName`: Swift's sort algorithm is not modelled; an insertion sort stands in for it, and only the promise the source relies on (sorted by name, same records) is stated.
- `StringOrder.Less`: names are compared code point by code point, lexicographically, not with Swift's Unicode-aware `String` comparison. Likewise the type test's `==` (ContentView.swift:159) is Swift's Unicode-aware equality, while the model compares code-point sequences; the two agree on the ASCII menu entries.
- `Int` width: ids, heights and weights are unbounded integers; the core does no arithmetic on them, so 64-bit overflow never arises.
- `filteredPokemonList.sort` works in place on the array; here the field is a sequence that is reassigned, so storage sharing is not modelled.

## Findings

| source | as written | input that shows it | evidently intended | confidence | as-written member | corrected member |
|---|---|---|---|---|---|---|
| Pokedex_Cesae/PokemonAPI.swift:48 | on a transport failure the detail fetch returns without calling its completion, so `group.leave()` never runs, `group.notify` never fires and the list screen never leaves the loading state | a page of two entries whose first detail decodes and whose second request fails in transport | report the failure like a decode failure (`completion(nil)`), so the screen gets the records that did decode | medium; not executed | `PokemonApi.FetchAsWritten` (shown by `PokemonApi.TransportFailureStallsJoin`) | `PokemonApi.Fetch`, used by `PokemonList.ContentView.OnAppearCorrected` |
