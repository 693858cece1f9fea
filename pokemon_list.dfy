/** The list screen (`ContentView`): the loaded list, the filter controls, the
    favourites set it shares with the detail screens, and the derived list that
    `updateFilteredList` recomputes. */
module PokemonList {
  import opened PokemonModel
  import opened StringOrder
  import opened PokemonApi

  /** The menu entry that switches the type test off. */
  const AllTypes: string := "Todos"

  /** The fixed type menu, in menu order. */
  const TiposDisponiveis: seq<string> :=
    ["Todos", "fire", "water", "grass", "electric", "psychic", "ghost", "bug", "normal"]

  // ---------------------------------------------------------------------------
  // The filter predicate

  /** The type test: the sentinel, or a type entry whose name is exactly the
      selected one. */
  predicate MatchesType(p: Pokemon, selectedType: string): (b: bool)
    ensures b <==>
      selectedType == "Todos" || exists i :: 0 <= i < |p.types| && p.types[i].typeName.name == selectedType
  {
    selectedType == AllTypes || ContainsType(p.types, selectedType)
  }

  /** The favourites test: every record passes while the switch is off; with
      it on, exactly the records whose id is a favourite. */
  predicate MatchesFavorite(p: Pokemon, mostrarFavoritos: bool, favoritos: set<int>)
  {
    !mostrarFavoritos || p.id in favoritos
  }

  /** The filter's condition, in terms of the record: both tests pass. */
  predicate Matches(p: Pokemon, selectedType: string, mostrarFavoritos: bool, favoritos: set<int>): (b: bool)
    ensures b <==>
      && (selectedType == "Todos" || exists i :: 0 <= i < |p.types| && p.types[i].typeName.name == selectedType)
      && (mostrarFavoritos ==> p.id in favoritos)
  {
    MatchesType(p, selectedType) && MatchesFavorite(p, mostrarFavoritos, favoritos)
  }

  /** `pokemonList.filter { ... }`: the matching records, in list order. */
  function Filter(list: seq<Pokemon>, selectedType: string, mostrarFavoritos: bool, favoritos: set<int>)
    : (r: seq<Pokemon>)
    ensures |r| <= |list|
    ensures forall i :: 0 <= i < |r| ==>
      r[i] in list && Matches(r[i], selectedType, mostrarFavoritos, favoritos)
  {
    if |list| == 0 then []
    else
      var rest := Filter(list[1..], selectedType, mostrarFavoritos, favoritos);
      if Matches(list[0], selectedType, mostrarFavoritos, favoritos) then [list[0]] + rest else rest
  }

  /** Each record occurs in the filter's output as often as in the list if it
      matches, and not at all otherwise. */
  lemma {:induction false} FilterMultiplicity(
    list: seq<Pokemon>, selectedType: string, mostrarFavoritos: bool, favoritos: set<int>, p: Pokemon)
    ensures multiset(Filter(list, selectedType, mostrarFavoritos, favoritos))[p] ==
      if Matches(p, selectedType, mostrarFavoritos, favoritos) then multiset(list)[p] else 0
  {
    if |list| > 0 {
      var head, rest := list[0], list[1..];
      FilterMultiplicity(rest, selectedType, mostrarFavoritos, favoritos, p);
      assert list == [head] + rest;
      assert multiset(list) == multiset{head} + multiset(rest);
      var tail := Filter(rest, selectedType, mostrarFavoritos, favoritos);
      if Matches(head, selectedType, mostrarFavoritos, favoritos) {
        assert Filter(list, selectedType, mostrarFavoritos, favoritos) == [head] + tail;
        assert multiset([head] + tail) == multiset{head} + multiset(tail);
      } else {
        assert Filter(list, selectedType, mostrarFavoritos, favoritos) == tail;
      }
    }
  }

  /** No matching record is dropped. */
  lemma FilterComplete(
    list: seq<Pokemon>, selectedType: string, mostrarFavoritos: bool, favoritos: set<int>, p: Pokemon)
    requires p in list && Matches(p, selectedType, mostrarFavoritos, favoritos)
    ensures p in Filter(list, selectedType, mostrarFavoritos, favoritos)
  {
    FilterMultiplicity(list, selectedType, mostrarFavoritos, favoritos, p);
  }

  /** With favourites-only on, a record passing the type test is kept exactly
      when its id is a favourite, and nothing else is kept. */
  lemma FavoritesOnlyKeepsFavorites(list: seq<Pokemon>, selectedType: string, favoritos: set<int>)
    ensures forall p :: p in Filter(list, selectedType, true, favoritos) ==> p.id in favoritos
    ensures forall p :: p in list && MatchesType(p, selectedType) ==>
      (p in Filter(list, selectedType, true, favoritos) <==> p.id in favoritos)
  {
    forall p | p in list && MatchesType(p, selectedType) && p.id in favoritos
      ensures p in Filter(list, selectedType, true, favoritos)
    {
      FilterComplete(list, selectedType, true, favoritos, p);
    }
  }

  /** With favourites-only on and no favourites, nothing passes, whatever the type. */
  lemma {:induction false} FilterNoFavorites(list: seq<Pokemon>, selectedType: string)
    ensures Filter(list, selectedType, true, {}) == []
  {
    if |list| > 0 {
      FilterNoFavorites(list[1..], selectedType);
    }
  }

  /** With "Todos" and favourites-only off, the filter keeps the whole list. */
  lemma {:induction false} FilterKeepsAll(list: seq<Pokemon>, favoritos: set<int>)
    ensures Filter(list, AllTypes, false, favoritos) == list
  {
    if |list| > 0 {
      FilterKeepsAll(list[1..], favoritos);
      assert list == [list[0]] + list[1..];
    }
  }

  /** Filtering an already filtered list under the same settings changes nothing. */
  lemma {:induction false} FilterIdempotent(
    list: seq<Pokemon>, selectedType: string, mostrarFavoritos: bool, favoritos: set<int>)
    ensures var once := Filter(list, selectedType, mostrarFavoritos, favoritos);
      Filter(once, selectedType, mostrarFavoritos, favoritos) == once
  {
    if |list| > 0 {
      FilterIdempotent(list[1..], selectedType, mostrarFavoritos, favoritos);
      var rest := Filter(list[1..], selectedType, mostrarFavoritos, favoritos);
      if Matches(list[0], selectedType, mostrarFavoritos, favoritos) {
        assert ([list[0]] + rest)[1..] == rest;
      }
    }
  }

  // ---------------------------------------------------------------------------
  // Sorting by name

  /** Ascending by name: no record comes after one whose name sorts before its own. */
  predicate SortedByName(s: seq<Pokemon>)
  {
    forall i, j :: 0 <= i < j < |s| ==> NotAfter(s[i].name, s[j].name)
  }

  /** Each record's name not after the next one's. */
  predicate NeighboursInOrder(s: seq<Pokemon>)
  {
    forall i :: 0 <= i < |s| - 1 ==> NotAfter(s[i].name, s[i + 1].name)
  }

  /** A list whose neighbours are in order is ascending by name throughout. */
  lemma {:induction false} NeighboursSortedIsSorted(s: seq<Pokemon>)
    requires NeighboursInOrder(s)
    ensures SortedByName(s)
  {
    forall i, j | 0 <= i < j < |s|
      ensures NotAfter(s[i].name, s[j].name)
    {
      NeighbourChain(s, i, j);
    }
  }

  lemma {:induction false} NeighbourChain(s: seq<Pokemon>, i: nat, j: nat)
    requires NeighboursInOrder(s) && i < j < |s|
    ensures NotAfter(s[i].name, s[j].name)
    decreases j - i
  {
    if i + 1 < j {
      NeighbourChain(s, i + 1, j);
      NotAfterTransitive(s[i].name, s[i + 1].name, s[j].name);
    }
  }

  function Names(s: seq<Pokemon>): seq<string>
  {
    seq(|s|, i requires 0 <= i < |s| => s[i].name)
  }

  /** Putting `x` at position `j` of a sorted list keeps it sorted when every
      name before `j` is not after `x`'s, and `x`'s is not after any from `j` on. */
  lemma InsertKeepsSorted(r: seq<Pokemon>, j: nat, x: Pokemon)
    requires SortedByName(r) && j <= |r|
    requires forall k :: 0 <= k < j ==> NotAfter(r[k].name, x.name)
    requires forall k :: j <= k < |r| ==> NotAfter(x.name, r[k].name)
    ensures SortedByName(r[..j] + [x] + r[j..])
  {
    var t := r[..j] + [x] + r[j..];
    forall a, b | 0 <= a < b < |t|
      ensures NotAfter(t[a].name, t[b].name)
    {
      if a < j && b > j {
        assert t[a] == r[a] && t[b] == r[b - 1];
      } else if a > j {
        assert t[a] == r[a - 1] && t[b] == r[b - 1];
      }
    }
  }

  /** `filteredPokemonList.sort { $0.name < $1.name }`: some ascending-by-name
      arrangement of the same records. Swift's sort is not stable, so the
      order among records with equal names is left open. */
  method SortByName(s: seq<Pokemon>) returns (r: seq<Pokemon>)
    ensures SortedByName(r)
    ensures multiset(r) == multiset(s)
  {
    r := [];
    var i := 0;
    while i < |s|
      invariant i <= |s|
      invariant SortedByName(r)
      invariant multiset(r) == multiset(s[..i])
    {
      var x := s[i];
      var j := 0;
      while j < |r| && !Less(x.name, r[j].name)
        invariant j <= |r|
        invariant forall k :: 0 <= k < j ==> NotAfter(r[k].name, x.name)
      {
        j := j + 1;
      }
      forall k | j <= k < |r|
        ensures NotAfter(x.name, r[k].name)
      {
        if k > j {
          LessThenNotAfter(x.name, r[j].name, r[k].name);
        }
        LessAsymmetric(x.name, r[k].name);
      }
      InsertKeepsSorted(r, j, x);
      assert r == r[..j] + r[j..];
      assert s[..i + 1] == s[..i] + [x];
      r := r[..j] + [x] + r[j..];
      i := i + 1;
    }
    assert s[..i] == s;
  }

  /** Two sorted arrangements of the same records list the same names in the
      same order, so the derived list is determined by its inputs up to the
      order of records that share a name. */
  lemma {:induction false} SortedArrangementsAgreeOnNames(a: seq<Pokemon>, b: seq<Pokemon>)
    requires SortedByName(a) && SortedByName(b)
    requires multiset(a) == multiset(b)
    ensures Names(a) == Names(b)
  {
    NamesMultisetOf(a, b);
    SortedStringsUnique(Names(a), Names(b));
  }

  predicate SortedStrings(ns: seq<string>)
  {
    forall i, j :: 0 <= i < j < |ns| ==> NotAfter(ns[i], ns[j])
  }

  lemma NamesConcat(u: seq<Pokemon>, v: seq<Pokemon>)
    ensures Names(u + v) == Names(u) + Names(v)
  {
  }

  /** Taking out the record at `k` takes out its name. */
  lemma NamesRemove(t: seq<Pokemon>, k: nat)
    requires k < |t|
    ensures multiset(Names(t)) == multiset(Names(t[..k] + t[k + 1..])) + multiset{t[k].name}
  {
    var pre, post := t[..k], t[k + 1..];
    var np, nq := Names(pre), Names(post);
    assert Names(t) == np + [t[k].name] + nq;
    NamesConcat(pre, post);
    assert multiset(Names(pre + post)) == multiset(np) + multiset(nq);
    assert multiset(np + [t[k].name] + nq) == multiset(np) + multiset{t[k].name} + multiset(nq);
  }

  /** Removing the element at `k` removes one occurrence of it. */
  lemma RemoveAt(t: seq<Pokemon>, k: nat)
    requires k < |t|
    ensures multiset(t[..k] + t[k + 1..]) == multiset(t) - multiset{t[k]}
  {
    assert t == t[..k] + [t[k]] + t[k + 1..];
  }

  /** Dropping the first record drops one occurrence of it and of its name. */
  lemma NamesTail(s: seq<Pokemon>)
    requires |s| > 0
    ensures multiset(s[1..]) == multiset(s) - multiset{s[0]}
    ensures multiset(Names(s)) == multiset(Names(s[1..])) + multiset{s[0].name}
  {
    assert s == [s[0]] + s[1..];
    assert Names(s) == [s[0].name] + Names(s[1..]);
  }

  lemma {:induction false} NamesMultisetOf(s: seq<Pokemon>, t: seq<Pokemon>)
    requires multiset(s) == multiset(t)
    ensures multiset(Names(s)) == multiset(Names(t))
  {
    if |s| == 0 {
      assert |t| == |multiset(t)| == 0;
    } else {
      assert s[0] in multiset(t);
      var k :| 0 <= k < |t| && t[k] == s[0];
      RemoveAt(t, k);
      NamesRemove(t, k);
      NamesTail(s);
      NamesMultisetOf(s[1..], t[..k] + t[k + 1..]);
    }
  }

  /** The first name of a sorted sequence is not after any of its names. */
  lemma SortedHeadIsLeast(ns: seq<string>, y: string)
    requires SortedStrings(ns) && y in ns
    ensures NotAfter(ns[0], y)
  {
    var i :| 0 <= i < |ns| && ns[i] == y;
    if i == 0 {
      LessIrreflexive(y);
    }
  }

  /** Dropping the first name of a sorted sequence leaves a sorted sequence
      holding the other names. */
  lemma SortedTail(ns: seq<string>)
    requires SortedStrings(ns) && |ns| > 0
    ensures SortedStrings(ns[1..])
    ensures multiset(ns[1..]) == multiset(ns) - multiset{ns[0]}
  {
    assert ns == [ns[0]] + ns[1..];
  }

  /** Sorted string sequences with the same non-empty elements start alike. */
  lemma SortedSameHead(na: seq<string>, nb: seq<string>)
    requires SortedStrings(na) && SortedStrings(nb)
    requires multiset(na) == multiset(nb) && |na| > 0
    ensures |nb| > 0 && na[0] == nb[0]
  {
    assert na[0] in multiset(nb);
    assert nb[0] in multiset(na);
    SortedHeadIsLeast(na, nb[0]);
    SortedHeadIsLeast(nb, na[0]);
    NotAfterAntisymmetric(na[0], nb[0]);
  }

  /** Sorted string sequences with the same elements are equal. */
  lemma {:induction false} SortedStringsUnique(na: seq<string>, nb: seq<string>)
    requires SortedStrings(na) && SortedStrings(nb)
    requires multiset(na) == multiset(nb)
    ensures na == nb
  {
    if |na| == 0 {
      assert |nb| == |multiset(nb)| == 0;
    } else {
      SortedSameHead(na, nb);
      SortedTail(na);
      SortedTail(nb);
      SortedStringsUnique(na[1..], nb[1..]);
      assert na == [na[0]] + na[1..] && nb == [nb[0]] + nb[1..];
    }
  }

  // ---------------------------------------------------------------------------
  // Screen state

  /** The `favoritos` storage the list screen owns and hands to each detail
      screen as a binding: both read and write this one object. */
  class FavoriteSet {
    var ids: set<int>

    constructor ()
      ensures ids == {}
    {
      ids := {};
    }
  }

  class ContentView {
    var pokemonList: seq<Pokemon>
    var filteredPokemonList: seq<Pokemon>
    var isLoading: bool
    const favoritos: FavoriteSet
    var selectedType: string
    var mostrarFavoritos: bool

    /** The selection is a menu entry. Only the constructor and `SelectType`
        write `selectedType`; every other method leaves it out of its frame,
        so they all keep this. */
    ghost predicate Valid()
      reads this
    {
      selectedType in TiposDisponiveis
    }

    /** The derived list is the filter of the loaded list, sorted by name. */
    ghost predicate ShowsFilteredList()
      reads this, favoritos
    {
      && SortedByName(filteredPokemonList)
      && multiset(filteredPokemonList) ==
         multiset(Filter(pokemonList, selectedType, mostrarFavoritos, favoritos.ids))
    }

    /** The initial `@State` values. */
    constructor ()
      ensures Valid()
      ensures pokemonList == [] && filteredPokemonList == [] && isLoading
      ensures fresh(favoritos) && favoritos.ids == {}
      ensures selectedType == "Todos" && !mostrarFavoritos
    {
      pokemonList := [];
      filteredPokemonList := [];
      isLoading := true;
      favoritos := new FavoriteSet();
      selectedType := AllTypes;
      mostrarFavoritos := false;
    }

    /** Recomputes the derived list from the loaded list and the three filter
        settings; the previous derived list plays no part, and no other field
        changes. */
    method UpdateFilteredList()
      modifies this`filteredPokemonList
      ensures ShowsFilteredList()
    {
      var matching := Filter(pokemonList, selectedType, mostrarFavoritos, favoritos.ids);
      filteredPokemonList := matching;
      filteredPokemonList := SortByName(filteredPokemonList);
    }

    /** A type-menu button: selects that type and recomputes. */
    method SelectType(tipo: string)
      requires Valid() && tipo in TiposDisponiveis
      modifies this`selectedType, this`filteredPokemonList
      ensures Valid() && selectedType == tipo
      ensures ShowsFilteredList()
    {
      selectedType := tipo;
      UpdateFilteredList();
    }

    /** The favourites switch writes its flag and recomputes nothing: the
        derived list follows only on the next menu choice or "Aplicar Filtros". */
    method SetMostrarFavoritos(on: bool)
      modifies this`mostrarFavoritos
      ensures mostrarFavoritos == on
    {
      mostrarFavoritos := on;
    }

    /** On appear, as written: starts the fetch. When the join fires, its
        completion runs; when it does not (a failed list request, or any detail
        request that failed in transport and never left the group), the screen
        stays exactly as it was, still loading. */
    method OnAppear(fetched: ListOutcome)
      modifies this`pokemonList, this`filteredPokemonList, this`isLoading
      ensures FetchAsWritten(fetched).None? ==>
        && pokemonList == old(pokemonList) && filteredPokemonList == old(filteredPokemonList)
        && isLoading == old(isLoading)
      ensures FetchAsWritten(fetched).Some? ==>
        pokemonList == FetchAsWritten(fetched).value && !isLoading && ShowsFilteredList()
    {
      var delivered := FetchAsWritten(fetched);
      if delivered.Some? {
        OnPokemonLoaded(delivered.value);
      }
    }

    /** On appear with the corrected join: once the list request succeeds the
        screen always leaves the loading state with the decoded records. */
    method OnAppearCorrected(fetched: ListOutcome)
      modifies this`pokemonList, this`filteredPokemonList, this`isLoading
      ensures Fetch(fetched).None? ==>
        && pokemonList == old(pokemonList) && filteredPokemonList == old(filteredPokemonList)
        && isLoading == old(isLoading)
      ensures Fetch(fetched).Some? ==>
        pokemonList == Fetch(fetched).value && !isLoading && ShowsFilteredList()
    {
      var delivered := Fetch(fetched);
      if delivered.Some? {
        OnPokemonLoaded(delivered.value);
      }
    }

    /** The completion of the initial fetch: installs the list, ends loading
        and recomputes the derived list. */
    method OnPokemonLoaded(pokemon: seq<Pokemon>)
      modifies this`pokemonList, this`filteredPokemonList, this`isLoading
      ensures pokemonList == pokemon && !isLoading
      ensures ShowsFilteredList()
    {
      pokemonList := pokemon;
      filteredPokemonList := pokemon;
      isLoading := false;
      UpdateFilteredList();
    }
  }

  const Bulbasaur: Pokemon :=
    Pokemon(1, "bulbasaur", [TypeEntry(TypeName("grass")), TypeEntry(TypeName("poison"))], SpriteEntry(""), 7, 69, [])
  const Charmander: Pokemon :=
    Pokemon(4, "charmander", [TypeEntry(TypeName("fire"))], SpriteEntry(""), 6, 85, [])

  /** Choosing "fire" keeps charmander and drops bulbasaur (grass, poison). */
  lemma FireFilterExample()
    ensures Filter([Bulbasaur, Charmander], "fire", false, {}) == [Charmander]
  {
    var types := Bulbasaur.types;
    assert types[1..][1..] == [];
    assert !ContainsType(types[1..], "fire");
    assert !ContainsType(types, "fire");
    assert ContainsType(Charmander.types, "fire");
    assert [Bulbasaur, Charmander][1..] == [Charmander];
    assert [Charmander][1..] == [];
  }

  /** Favourites only, with favourites {1}, keeps bulbasaur (id 1) alone. */
  lemma FavoritesFilterExample()
    ensures Filter([Bulbasaur, Charmander], "Todos", true, {1}) == [Bulbasaur]
  {
    assert [Bulbasaur, Charmander][1..] == [Charmander];
    assert [Charmander][1..] == [];
    assert !Matches(Charmander, "Todos", true, {1});
  }

  /** With "Todos" and favourites-only off, any derived list shows exactly
      the loaded records, sorted. */
  lemma UnfilteredViewShowsAll(list: seq<Pokemon>, favoritos: set<int>, shown: seq<Pokemon>)
    requires multiset(shown) == multiset(Filter(list, "Todos", false, favoritos))
    ensures multiset(shown) == multiset(list)
  {
    FilterKeepsAll(list, favoritos);
  }

  /** With favourites-only on and an empty favourites set, the derived list is
      empty whatever type is selected. */
  lemma NoFavoritesViewIsEmpty(list: seq<Pokemon>, selectedType: string, shown: seq<Pokemon>)
    requires multiset(shown) == multiset(Filter(list, selectedType, true, {}))
    ensures shown == []
  {
    FilterNoFavorites(list, selectedType);
    assert |shown| == |multiset(shown)| == 0;
  }
}
