/** The detail record of one Pokémon, as decoded from the API. Every field is
    mandatory: a record missing any of them is not a `Pokemon` (it fails to
    decode), so no constructor below has an optional part. */
module PokemonModel {

  /** `TypeEntry.TypeName`: wraps one type name. */
  datatype TypeName = TypeName(name: string)

  /** `TypeEntry`; Swift's field `type` is called `typeName` here because
      `type` is a Dafny keyword. */
  datatype TypeEntry = TypeEntry(typeName: TypeName)

  /** `SpriteEntry`: the image URL, kept as the string the API sends. */
  datatype SpriteEntry = SpriteEntry(frontDefault: string)

  datatype AbilityName = AbilityName(name: string)

  datatype AbilityEntry = AbilityEntry(ability: AbilityName)

  /** `id` is the record's identity: it is what the favourites set holds and
      what the comment key is derived from. `height` is in decimetres and
      `weight` in hectograms, as the API reports them. */
  datatype Pokemon = Pokemon(
    id: int,
    name: string,
    types: seq<TypeEntry>,
    sprites: SpriteEntry,
    height: int,
    weight: int,
    abilities: seq<AbilityEntry>)

  /** The type names of `p`, in the order the API lists them. */
  function TypeNames(p: Pokemon): seq<string>
  {
    seq(|p.types|, i requires 0 <= i < |p.types| => p.types[i].typeName.name)
  }

  /** Whether some type entry of `entries` is named exactly `t`
      (`types.contains { $0.type.name == t }`), scanning from the front. */
  function ContainsType(entries: seq<TypeEntry>, t: string): (b: bool)
    ensures b <==> exists i :: 0 <= i < |entries| && entries[i].typeName.name == t
  {
    if |entries| == 0 then false
    else entries[0].typeName.name == t || ContainsType(entries[1..], t)
  }

  /** `p` has type `t` exactly when `t` is one of its type names. */
  lemma HasTypeByName(p: Pokemon, t: string)
    ensures ContainsType(p.types, t) <==> t in TypeNames(p)
  {
    var names := TypeNames(p);
    assert |names| == |p.types|;
    if t in names {
      var i :| 0 <= i < |names| && names[i] == t;
      assert p.types[i].typeName.name == t;
    }
    if ContainsType(p.types, t) {
      var i :| 0 <= i < |p.types| && p.types[i].typeName.name == t;
      assert names[i] == t;
    }
  }
}
