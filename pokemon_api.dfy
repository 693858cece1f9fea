/** The join of the initial fetch, on values: one list request, one detail
    request per listed entry, and the list handed to the screen once every
    detail request has reported. The requests themselves (network, JSON
    decoding, dispatch queues) are not modelled; how each ended is given as
    input, in the order the requests completed. */
module PokemonApi {
  import opened PokemonModel

  datatype Option<T> = None | Some(value: T)

  /** How one detail request ended. */
  datatype DetailOutcome =
    | Decoded(pokemon: Pokemon)   // completion(pokemon)
    | DecodeFailed                // completion(nil)
    | TransportFailed             // no data or an error: returns without calling completion

  /** How the list request ended: its entries' detail outcomes, or a failure
      (no data, or a body that does not decode), after which the list
      completion is never called. */
  datatype ListOutcome = ListLoaded(details: seq<DetailOutcome>) | ListFailed

  function FailureCount(outcomes: seq<DetailOutcome>): (n: nat)
    ensures n <= |outcomes|
  {
    if |outcomes| == 0 then 0
    else (if outcomes[0].Decoded? then 0 else 1) + FailureCount(outcomes[1..])
  }

  /** The details appended to the shared list: each decoded record, in
      completion order; a `nil` detail is dropped. */
  function Collected(outcomes: seq<DetailOutcome>): (r: seq<Pokemon>)
    ensures |r| == |outcomes| - FailureCount(outcomes)
    ensures forall p :: p in r ==> Decoded(p) in outcomes
  {
    if |outcomes| == 0 then []
    else
      var rest := Collected(outcomes[1..]);
      if outcomes[0].Decoded? then [outcomes[0].pokemon] + rest else rest
  }

  /** Every decoded record reaches the list. */
  lemma {:induction false} CollectedComplete(outcomes: seq<DetailOutcome>, p: Pokemon)
    requires Decoded(p) in outcomes
    ensures p in Collected(outcomes)
  {
    if outcomes[0] != Decoded(p) {
      assert Decoded(p) in outcomes[1..];
      CollectedComplete(outcomes[1..], p);
    }
  }

  /** Each record reaches the list exactly as often as it was decoded: none is
      lost, duplicated or invented. */
  lemma {:induction false} CollectedMultiplicity(outcomes: seq<DetailOutcome>, p: Pokemon)
    ensures multiset(Collected(outcomes))[p] == multiset(outcomes)[Decoded(p)]
  {
    if |outcomes| > 0 {
      var head, tail := outcomes[0], outcomes[1..];
      assert outcomes == [head] + tail;
      CollectedMultiplicity(tail, p);
      if head.Decoded? {
        assert Collected(outcomes) == [head.pokemon] + Collected(tail);
      } else {
        assert Collected(outcomes) == Collected(tail);
      }
    }
  }

  /** Whether a detail request reaches `group.leave()`: exactly when it
      called its completion, with a record or with `nil`. */
  predicate Leaves(o: DetailOutcome)
  {
    !o.TransportFailed?
  }

  /** Each record is collected exactly as often as it was decoded, for every record. */
  lemma CollectedMultiset(outcomes: seq<DetailOutcome>)
    ensures forall p :: multiset(Collected(outcomes))[p] == multiset(outcomes)[Decoded(p)]
  {
    forall p {
      CollectedMultiplicity(outcomes, p);
    }
  }

  /** The join as written: `group.notify` fires only if every detail request
      left the group; a transport failure never leaves, so nothing is ever
      delivered. A failed list request delivers nothing either. When it does
      fire, it delivers exactly the decoded records. */
  function FetchAsWritten(list: ListOutcome): (r: Option<seq<Pokemon>>)
    ensures r.Some? <==> list.ListLoaded? && TransportFailed !in list.details
    ensures r.Some? ==> forall p :: multiset(r.value)[p] == multiset(list.details)[Decoded(p)]
  {
    match list
    case ListFailed => None
    case ListLoaded(details) =>
      if forall i :: 0 <= i < |details| ==> Leaves(details[i]) then
        CollectedMultiset(details);
        Some(Collected(details))
      else None
  }

  /** The join as evidently intended: a transport failure reports `nil` like a
      decode failure, so once the list request has succeeded the screen always
      gets the decoded records, N requests with K failures giving N - K. */
  function Fetch(list: ListOutcome): (r: Option<seq<Pokemon>>)
    ensures r.Some? <==> list.ListLoaded?
    ensures r.Some? ==> |r.value| == |list.details| - FailureCount(list.details)
    ensures r.Some? ==> forall p :: multiset(r.value)[p] == multiset(list.details)[Decoded(p)]
  {
    match list
    case ListFailed => None
    case ListLoaded(details) =>
      CollectedMultiset(details);
      Some(Collected(details))
  }

  /** One detail request failing in transport stalls the join as written,
      although the other record decoded. */
  lemma TransportFailureStallsJoin(p: Pokemon)
    ensures FetchAsWritten(ListLoaded([Decoded(p), TransportFailed])) == None
    ensures Fetch(ListLoaded([Decoded(p), TransportFailed])) == Some([p])
  {
    var tail: seq<DetailOutcome> := [TransportFailed];
    assert tail[1..] == [];
    assert Collected(tail) == [];
    var both := [Decoded(p), TransportFailed];
    assert both[1..] == tail;
    assert Collected(both) == [p] + Collected(tail);
    assert [p] + [] == [p];
  }

  /** Where the join as written does deliver, it delivers what the corrected
      join delivers. */
  lemma FetchAgreesWhenAllLeave(list: ListOutcome)
    requires FetchAsWritten(list).Some?
    ensures FetchAsWritten(list) == Fetch(list)
  {
  }
}
