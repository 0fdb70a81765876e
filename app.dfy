/**
 * The `App` component: two signals, the pasted deck list and the fetched card
 * data (null until a batch succeeds), the click handler that fetches one
 * record per parsed name, and the three per-statistic arrays the reports are
 * drawn from. The fetches themselves are parameters: `settled[i]` is how the
 * fetch of the i-th parsed name ended.
 */
module DeckStatsApp {
  import opened Wrappers
  import opened JsNumber
  import opened DeckList
  import opened EdhrecRepo
  import opened Metric
  import opened StatChart

  /** Every fetch of the batch resolved. */
  predicate AllResolved(settled: seq<Settled>) {
    forall i :: 0 <= i < |settled| ==> settled[i].Resolved?
  }

  /**
   * `cardNames.map((cardName) => fetchCardData(cardName))` once every promise
   * has settled; `responses[i]` is what the network gave for the i-th name.
   */
  function FetchAll(cardNames: seq<string>, responses: seq<Response>): (settled: seq<Settled>)
    requires |responses| == |cardNames|
    ensures |settled| == |cardNames|
    ensures AllResolved(settled) <==> forall i :: 0 <= i < |responses| ==> responses[i].Decoded?
    ensures forall i :: 0 <= i < |settled| ==> settled[i] == FetchCardData(cardNames[i], responses[i])
  {
    var settled := seq(|cardNames|, i requires 0 <= i < |cardNames| => FetchCardData(cardNames[i], responses[i]));
    assert forall i :: 0 <= i < |settled| ==> (settled[i].Resolved? <==> responses[i].Decoded?);
    settled
  }

  /** The records of a batch that resolved, in the order of the fetches. */
  function RecordsOf(settled: seq<Settled>): (records: seq<CardRecord>)
    requires AllResolved(settled)
    ensures |records| == |settled|
    ensures forall i :: 0 <= i < |settled| ==> settled[i] == Resolved(records[i])
  {
    seq(|settled|, i requires 0 <= i < |settled| => settled[i].record)
  }

  class App {
    /** `deckList()`. */
    var deckList: string
    /** `fetchedCardData()`: None for null. */
    var fetchedCardData: Option<seq<CardRecord>>

    /** `createSignal("")` and `createSignal(null)`. */
    constructor()
      ensures deckList == "" && fetchedCardData == None
    {
      deckList := "";
      fetchedCardData := None;
    }

    /** The text field's `onChange`: `setDeckList(event.target.value)`. */
    method SetDeckList(text: string)
      modifies this
      ensures deckList == text && fetchedCardData == old(fetchedCardData)
    {
      deckList := text;
    }

    /**
     * `onClickHandler`: parse the names, await `Promise.all` of their fetches
     * and store the records. `Promise.all` rejects as soon as one fetch
     * rejects; nothing catches it, so the stored data then stay as they were.
     * `responses[i]` is what the network gave for the i-th parsed name.
     */
    method OnClickHandler(responses: seq<Response>) returns (cardNames: seq<string>)
      requires |responses| == |CardNameList(deckList)|
      modifies this
      ensures cardNames == CardNameList(deckList) && deckList == old(deckList)
      ensures AllResolved(FetchAll(cardNames, responses)) ==>
        fetchedCardData == Some(RecordsOf(FetchAll(cardNames, responses)))
      ensures !AllResolved(FetchAll(cardNames, responses)) ==> fetchedCardData == old(fetchedCardData)
    {
      cardNames := CardNameList(deckList);
      var settled := FetchAll(cardNames, responses);
      if AllResolved(settled) {
        fetchedCardData := Some(RecordsOf(settled));
      }
    }

    /**
     * The `<Show when={fetchedCardData()}>` block: one report per statistic,
     * each drawn from the projection of the stored records. An empty array is
     * truthy, so the reports are shown for an empty batch too.
     */
    function Reports(): (reports: seq<(Stat, seq<Num>)>)
      reads this
      ensures fetchedCardData.None? <==> reports == []
      ensures fetchedCardData.Some? ==>
        |reports| == 3 && reports[0].0 == Salt && reports[1].0 == Cost && reports[2].0 == Popularity &&
        forall k :: 0 <= k < 3 ==> reports[k].1 == Project(fetchedCardData.value, reports[k].0)
    {
      match fetchedCardData
      case None => []
      case Some(cards) => [(Salt, Project(cards, Salt)), (Cost, Project(cards, Cost)), (Popularity, Project(cards, Popularity))]
    }
  }

  /**
   * After a successful click there is one record per parsed card name, in the
   * order of the names, named by that name's slug; every report has one value
   * per name, finite exactly when the record has the field.
   */
  lemma ClickedRecordsFollowTheDeckList(deckList: string, responses: seq<Response>, stat: Stat)
    requires |responses| == |CardNameList(deckList)|
    requires forall i :: 0 <= i < |responses| ==> responses[i].Decoded?
    ensures var names := CardNameList(deckList);
      var records := RecordsOf(FetchAll(names, responses));
      var data := Project(records, stat);
      && |records| == |names| && |data| == |names|
      && (forall i :: 0 <= i < |names| ==> records[i] == ExtractRecord(names[i], responses[i].card))
      && (forall i :: 0 <= i < |names| ==> records[i].name == FormatCardName(names[i]))
      && (forall i :: 0 <= i < |names| ==> (IsFinite(data[i]) <==> HasValue(records[i], stat)))
  {
  }

  /**
   * A deck list without any card name leads to an empty batch, which
   * `Promise.all` resolves: the reports are then shown on no data, where the
   * `reduce` behind Total and Average has no initial value and throws.
   */
  lemma EmptyDeckListHasNoTotals(deckList: string, stat: Stat)
    requires CardNameList(deckList) == []
    ensures AllResolved(FetchAll(CardNameList(deckList), []))
    ensures var data := Project(RecordsOf(FetchAll(CardNameList(deckList), [])), stat);
      Total(data).None? && Average(data).None?
  {
  }
}
