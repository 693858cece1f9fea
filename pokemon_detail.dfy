/** The detail screen (`PokemonDetailView`): the favourite button, which writes
    through the binding to the list screen's favourites, and the comment log,
    kept per Pokémon in the app's string-keyed store under "comments_<id>". */
module PokemonDetail {
  import opened PokemonModel
  import opened Decimal
  import opened PokemonList

  const CommentsPrefix: string := "comments_"

  /** The store key of a Pokémon's comments: the prefix, then the canonical
      numeral of its id. */
  function CommentsKey(id: int): (k: string)
    ensures |k| > |CommentsPrefix| && k[..|CommentsPrefix|] == CommentsPrefix
    ensures CanonicalNumeral(k[|CommentsPrefix|..]) && Numeral(k[|CommentsPrefix|..])
    ensures ParseInt(k[|CommentsPrefix|..]) == id
  {
    var k := CommentsPrefix + IntText(id);
    assert k[|CommentsPrefix|..] == IntText(id);
    k
  }

  /** Different Pokémon never share a comment log. */
  lemma CommentsKeyInjective(a: int, b: int)
    requires CommentsKey(a) == CommentsKey(b)
    ensures a == b
  {
    var n := |CommentsPrefix|;
    assert ParseInt(CommentsKey(a)[n..]) == a && ParseInt(CommentsKey(b)[n..]) == b;
  }

  /** Every string of that shape is the key of exactly the id it spells, so
      the contract of `CommentsKey` pins the key the app writes. */
  lemma WellFormedKeyIsCommentsKey(k: string)
    requires |k| > |CommentsPrefix| && k[..|CommentsPrefix|] == CommentsPrefix
    requires CanonicalNumeral(k[|CommentsPrefix|..])
    ensures CommentsKey(ParseInt(k[|CommentsPrefix|..])) == k
  {
    var n := |CommentsPrefix|;
    var suffix := k[n..];
    CanonicalNumeralIsIntText(suffix);
    assert k == CommentsPrefix + suffix;
  }

  /** The favourites after pressing the heart for `id`: its membership flips,
      every other id keeps its own. */
  function Toggled(favoritos: set<int>, id: int): (r: set<int>)
    ensures id in r <==> id !in favoritos
    ensures forall x :: x != id ==> (x in r <==> x in favoritos)
  {
    if id in favoritos then favoritos - {id} else favoritos + {id}
  }

  /** Pressing the heart twice restores the favourites exactly. */
  lemma ToggleTwice(favoritos: set<int>, id: int)
    ensures Toggled(Toggled(favoritos, id), id) == favoritos
  {
  }

  /** The app's `UserDefaults`, reduced to its string-list entries. */
  class UserDefaults {
    var entries: map<string, seq<string>>

    constructor (entries: map<string, seq<string>>)
      ensures this.entries == entries
    {
      this.entries := entries;
    }
  }

  /** Writing one Pokémon's log leaves every other Pokémon's entry as it was. */
  lemma SaveLeavesOthers(entries: map<string, seq<string>>, a: int, b: int, log: seq<string>)
    requires a != b
    ensures var saved := entries[CommentsKey(a) := log];
      && (CommentsKey(b) in saved <==> CommentsKey(b) in entries)
      && (CommentsKey(b) in entries ==> saved[CommentsKey(b)] == entries[CommentsKey(b)])
  {
    if CommentsKey(a) == CommentsKey(b) {
      CommentsKeyInjective(a, b);
    }
  }

  class PokemonDetailView {
    const pokemon: Pokemon
    const commentsKey: string
    /** The binding to the list screen's favourites. */
    const favoritos: FavoriteSet
    const defaults: UserDefaults
    var commentText: string
    var comments: seq<string>

    constructor (pokemon: Pokemon, favoritos: FavoriteSet, defaults: UserDefaults)
      ensures this.pokemon == pokemon && this.favoritos == favoritos && this.defaults == defaults
      ensures commentsKey == CommentsKey(pokemon.id)
      ensures commentText == "" && comments == []
    {
      this.pokemon := pokemon;
      commentsKey := CommentsKey(pokemon.id);
      this.favoritos := favoritos;
      this.defaults := defaults;
      commentText := "";
      comments := [];
    }

    /** The heart button: removes the id if present, inserts it otherwise. */
    method ToggleFavorite()
      modifies favoritos
      ensures favoritos.ids == Toggled(old(favoritos.ids), pokemon.id)
    {
      if pokemon.id in favoritos.ids {
        favoritos.ids := favoritos.ids - {pokemon.id};
      } else {
        favoritos.ids := favoritos.ids + {pokemon.id};
      }
    }

    /** Typing in the comment field. */
    method EditCommentText(text: string)
      modifies this`commentText
      ensures commentText == text
    {
      commentText := text;
    }

    /** The add button. An empty field does nothing; any other text, blank
        ones included (nothing is trimmed), is appended to the log, the whole
        log is saved under this Pokémon's key, and the field is cleared. */
    method AddComment()
      modifies this`comments, this`commentText, defaults
      ensures old(commentText) == "" ==>
        && comments == old(comments) && commentText == ""
        && defaults.entries == old(defaults.entries)
      ensures old(commentText) != "" ==>
        && comments == old(comments) + [old(commentText)]
        && defaults.entries == old(defaults.entries)[commentsKey := comments]
        && commentText == ""
    {
      if commentText != "" {
        comments := comments + [commentText];
        SaveComments();
        commentText := "";
      }
    }

    /** On appear: takes the stored log if this Pokémon's key is present,
        keeps the current one otherwise. */
    method LoadComments()
      modifies this`comments
      ensures commentsKey in defaults.entries ==> comments == defaults.entries[commentsKey]
      ensures commentsKey !in defaults.entries ==> comments == old(comments)
    {
      if commentsKey in defaults.entries {
        comments := defaults.entries[commentsKey];
      }
    }

    /** Writes the whole log under this Pokémon's key; no other key changes. */
    method SaveComments()
      modifies defaults
      ensures defaults.entries == old(defaults.entries)[commentsKey := comments]
    {
      defaults.entries := defaults.entries[commentsKey := comments];
    }
  }

  /** On a screen with an empty log over an empty store: an empty submission
      is ignored, then "a", " " and "b" are submitted; the store ends up with
      exactly this Pokémon's entry, holding them in order. */
  method SubmitSample(view: PokemonDetailView)
    requires view.commentText == "" && view.comments == [] && view.defaults.entries == map[]
    modifies view, view.defaults
    ensures view.defaults.entries.Keys == {view.commentsKey}
    ensures view.defaults.entries[view.commentsKey] == ["a", " ", "b"]
  {
    var key := view.commentsKey;
    view.AddComment();
    assert view.comments == [] && view.defaults.entries == map[];
    view.EditCommentText("a");
    view.AddComment();
    assert view.comments == ["a"] && view.defaults.entries.Keys == {key};
    view.EditCommentText(" ");
    view.AddComment();
    assert view.comments == ["a", " "] && view.defaults.entries.Keys == {key};
    view.EditCommentText("b");
    view.AddComment();
  }

  /** Two detail screens over one empty store: the sample submitted on the
      first Pokémon's screen comes back in order on a later screen for it,
      and the second Pokémon's log is untouched by it and starts empty. */
  method CommentLogScenario(p: Pokemon, q: Pokemon)
    returns (reloaded: seq<string>, other: seq<string>)
    requires p.id != q.id
    ensures reloaded == ["a", " ", "b"]
    ensures other == []
  {
    var defaults := new UserDefaults(map[]);
    var favoritos := new FavoriteSet();
    var first := new PokemonDetailView(p, favoritos, defaults);
    first.LoadComments();
    SubmitSample(first);
    var key := first.commentsKey;
    var again := new PokemonDetailView(p, favoritos, defaults);
    again.LoadComments();
    reloaded := again.comments;
    var second := new PokemonDetailView(q, favoritos, defaults);
    if second.commentsKey == key {
      CommentsKeyInjective(q.id, p.id);
    }
    assert second.commentsKey !in defaults.entries;
    second.LoadComments();
    other := second.comments;
  }
}
