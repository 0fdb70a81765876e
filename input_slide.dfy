/**
 * `onShowMeTheStats` once every fetch has settled: each parsed name is paired
 * with its record or with null, and the batch either reports the names whose
 * fetch failed or delivers all records in order. The `loading` and `error`
 * signals and the scrolling are not modelled.
 */
module InputSlide {
  import opened Wrappers
  import opened DeckList
  import opened EdhrecRepo

  /** `CardDataFetchResult`: the card name and its data, null when the fetch was rejected. */
  datatype FetchOutcome = FetchOutcome(cardName: string, cardData: Option<CardRecord>)

  /** What the batch leads to: the error listing failed names, or `onCardDataFetched(cardData)`. */
  datatype BatchResult = ReportFailed(cardNames: seq<string>) | Deliver(cardData: seq<CardRecord>)

  /** `.then(cardData => ({cardName, cardData})).catch(() => ({cardName, cardData: null}))`. */
  function ToOutcome(cardName: string, settled: Settled): (o: FetchOutcome)
    ensures o.cardName == cardName
    ensures o.cardData.None? <==> settled.Rejected?
    ensures settled.Resolved? ==> o.cardData == Some(settled.record)
  {
    match settled
    case Resolved(record) => FetchOutcome(cardName, Some(record))
    case Rejected => FetchOutcome(cardName, None)
  }

  /** `Promise.all(cardNames.map(...))`: one outcome per name, in the order of the names. */
  function Outcomes(cardNames: seq<string>, settled: seq<Settled>): (os: seq<FetchOutcome>)
    requires |settled| == |cardNames|
    ensures |os| == |cardNames|
    ensures forall i :: 0 <= i < |os| ==> os[i] == ToOutcome(cardNames[i], settled[i])
  {
    seq(|cardNames|, i requires 0 <= i < |cardNames| => ToOutcome(cardNames[i], settled[i]))
  }

  /** `erroredCardDatas.map((data) => data.cardName)`: the names of the null outcomes, in order. */
  function FailedNames(outcomes: seq<FetchOutcome>): seq<string> {
    if outcomes == [] then []
    else (if outcomes[0].cardData.None? then [outcomes[0].cardName] else []) + FailedNames(outcomes[1..])
  }

  /** `cardDataResults.map((result) => result.cardData as EDHRecCardData)`, once none is null. */
  function Records(outcomes: seq<FetchOutcome>): (rs: seq<CardRecord>)
    requires forall i :: 0 <= i < |outcomes| ==> outcomes[i].cardData.Some?
    ensures |rs| == |outcomes|
    ensures forall i :: 0 <= i < |rs| ==> Some(rs[i]) == outcomes[i].cardData
  {
    seq(|outcomes|, i requires 0 <= i < |outcomes| => outcomes[i].cardData.value)
  }

  /** The branch on `erroredCardDatas.length > 0`. */
  function Classify(outcomes: seq<FetchOutcome>): (r: BatchResult)
    ensures r.ReportFailed? <==> exists i :: 0 <= i < |outcomes| && outcomes[i].cardData.None?
    ensures r.ReportFailed? ==> |r.cardNames| > 0 && r.cardNames == FailedNames(outcomes)
    ensures r.Deliver? ==>
      |r.cardData| == |outcomes| && forall i :: 0 <= i < |outcomes| ==> outcomes[i].cardData == Some(r.cardData[i])
  {
    FailedNamesEmpty(outcomes);
    if |FailedNames(outcomes)| > 0 then ReportFailed(FailedNames(outcomes))
    else Deliver(Records(outcomes))
  }

  /** The whole batch: parse the deck list, pair names with settled fetches, classify. */
  function ShowMeTheStats(deckList: string, settled: seq<Settled>): BatchResult
    requires |settled| == |CardNameList(deckList)|
  {
    Classify(Outcomes(CardNameList(deckList), settled))
  }

  /** No failed name exactly when every outcome has data. */
  lemma {:induction false} FailedNamesEmpty(outcomes: seq<FetchOutcome>)
    ensures |FailedNames(outcomes)| == 0 <==> forall i :: 0 <= i < |outcomes| ==> outcomes[i].cardData.Some?
  {
    if outcomes != [] {
      FailedNamesEmpty(outcomes[1..]);
      assert forall i :: 1 <= i < |outcomes| ==> outcomes[i] == outcomes[1..][i - 1];
    }
  }

  /** Failed names keep the order of the outcomes they come from. */
  lemma {:induction false} FailedNamesAppend(a: seq<FetchOutcome>, b: seq<FetchOutcome>)
    ensures FailedNames(a + b) == FailedNames(a) + FailedNames(b)
  {
    if a == [] {
      assert a + b == b;
    } else {
      assert (a + b)[1..] == a[1..] + b;
      FailedNamesAppend(a[1..], b);
    }
  }

  /** Every reported name is the name of a null outcome, and there are no more of them than outcomes. */
  lemma {:induction false} FailedNamesAreFailures(outcomes: seq<FetchOutcome>)
    ensures |FailedNames(outcomes)| <= |outcomes|
    ensures forall n :: n in FailedNames(outcomes) ==> FetchOutcome(n, None) in outcomes
  {
    if outcomes != [] {
      FailedNamesAreFailures(outcomes[1..]);
    }
  }

  /**
   * The batch reports failures exactly when some fetch was rejected, and then
   * the reported names are those of the rejected fetches, in order; otherwise
   * it delivers one record per parsed name, in the same order.
   */
  lemma ShowMeTheStatsOutcome(deckList: string, settled: seq<Settled>)
    requires |settled| == |CardNameList(deckList)|
    ensures var names := CardNameList(deckList);
      && (ShowMeTheStats(deckList, settled).ReportFailed? <==> exists i :: 0 <= i < |settled| && settled[i].Rejected?)
      && (ShowMeTheStats(deckList, settled).ReportFailed? ==>
            ShowMeTheStats(deckList, settled).cardNames == FailedNames(Outcomes(names, settled)))
      && (ShowMeTheStats(deckList, settled).Deliver? ==>
            var records := ShowMeTheStats(deckList, settled).cardData;
            |records| == |names| && forall i :: 0 <= i < |records| ==> settled[i] == Resolved(records[i]))
  {
    var os := Outcomes(CardNameList(deckList), settled);
    FailedNamesEmpty(os);
  }

  /** A batch of A, B, C in which only B is rejected reports exactly B and does not deliver. */
  lemma FailureIsReportedByName(a: CardRecord, c: CardRecord)
    ensures Classify(Outcomes(["A", "B", "C"], [Resolved(a), Rejected, Resolved(c)])) == ReportFailed(["B"])
  {
    var os := Outcomes(["A", "B", "C"], [Resolved(a), Rejected, Resolved(c)]);
    assert os == [FetchOutcome("A", Some(a)), FetchOutcome("B", None), FetchOutcome("C", Some(c))];
    assert os[1..][1..][1..] == [];
    assert FailedNames(os[1..][1..]) == [];
    assert FailedNames(os) == ["B"];
  }
}
