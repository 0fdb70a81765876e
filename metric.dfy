/**
 * The three statistics (`Salt`, `Cost`, `Popularity`), their colour ranges,
 * and the per-metric arrays handed to the charts: `cardData.salt as number`
 * and its siblings, where a missing field reads as NaN.
 */
module Metric {
  import opened Wrappers
  import opened JsNumber
  import opened EdhrecRepo

  datatype Stat = Salt | Cost | Popularity

  /** `stat.range`: the interval that colour normalisation maps onto [0, 1]. */
  function Range(stat: Stat): (r: (real, real))
    ensures r.0 < r.1
  {
    match stat
    case Salt => (0.0, 2.0)
    case Cost => (0.0, 100.0)
    case Popularity => (0.0, 0.5)
  }

  /** One card's value for a statistic, as the chart reads it. */
  function Field(card: CardRecord, stat: Stat): Num {
    match stat
    case Salt => FromOptional(card.salt)
    case Cost => FromOptional(card.price)
    case Popularity => card.popularity.GetOr(NaN)
  }

  /** Whether the card has a finite value for the statistic. */
  predicate HasValue(card: CardRecord, stat: Stat) {
    match stat
    case Salt => card.salt.Some?
    case Cost => card.price.Some?
    case Popularity => card.popularity.Some? && card.popularity.value.Fin?
  }

  /** `cardData.map((cardData) => cardData.<field> as number)`. */
  function Project(cards: seq<CardRecord>, stat: Stat): (data: seq<Num>)
    ensures |data| == |cards|
    ensures forall i :: 0 <= i < |cards| ==> (IsFinite(data[i]) <==> HasValue(cards[i], stat))
    ensures forall i :: 0 <= i < |cards| ==> HasValue(cards[i], stat) ==>
      data[i] == Fin(match stat
                     case Salt => cards[i].salt.value
                     case Cost => cards[i].price.value
                     case Popularity => cards[i].popularity.value.v)
  {
    seq(|cards|, i requires 0 <= i < |cards| => Field(cards[i], stat))
  }

  /** The number of cards that have a finite value for the statistic. */
  function CountWithValue(cards: seq<CardRecord>, stat: Stat): nat {
    if cards == [] then 0
    else CountWithValue(cards[..|cards| - 1], stat) + (if HasValue(cards[|cards| - 1], stat) then 1 else 0)
  }
}
