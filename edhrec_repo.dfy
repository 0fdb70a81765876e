/**
 * `fetchCardData`: builds the card's slug and URL, and extracts one card
 * record from the decoded JSON document. The HTTP request and JSON decoding
 * are not modelled: the decoded document, or the failure, is a parameter.
 */
module EdhrecRepo {
  import opened Wrappers
  import opened JsNumber
  import opened Folds
  import opened Strings

  /**
   * `allData.container?.json_dict?.card` after decoding: absent, or a card
   * whose fields are each independently optional. `prices` lists, in key
   * order, each entry's `price` when it is a finite number.
   */
  datatype CardJson =
    | Absent
    | Card(salt: Option<real>, prices: Option<seq<Option<real>>>,
           numDecks: Option<real>, potentialDecks: Option<real>)

  /** `EDHRecCardData`; popularity may be NaN or infinite, since it is an unguarded quotient. */
  datatype CardRecord = CardRecord(name: string, salt: Option<real>, price: Option<real>, popularity: Option<Num>)

  /** What the network gave back: a decoded document, or a rejected fetch / `response.json()`. */
  datatype Response = NetworkFailure | Decoded(card: CardJson)

  /** A settled `fetchCardData` promise. */
  datatype Settled = Resolved(record: CardRecord) | Rejected

  // ---------------------------------------------------------------- slug

  predicate IsAsciiUpper(c: char) { 'A' <= c <= 'Z' }

  /** `toLowerCase` on one character; only ASCII letters are mapped. */
  function ToLowerAscii(c: char): char {
    if IsAsciiUpper(c) then (c as int + 32) as char else c
  }

  /** `s.toLowerCase()`, ASCII only. */
  function ToLowerCase(s: string): string {
    if s == [] then [] else [ToLowerAscii(s[0])] + ToLowerCase(s[1..])
  }

  /** `s.replaceAll(c, rep)` for a one-character pattern. */
  function ReplaceAll(s: string, c: char, rep: string): string {
    if s == [] then [] else (if s[0] == c then rep else [s[0]]) + ReplaceAll(s[1..], c, rep)
  }

  /** `cardName.toLowerCase().replaceAll(" ", "-").replaceAll(",", "").replaceAll("'", "")`. */
  function FormatCardName(cardName: string): string {
    ReplaceAll(ReplaceAll(ReplaceAll(ToLowerCase(cardName), ' ', "-"), ',', ""), '\'', "")
  }

  /** Reference definition of the slug, one character at a time. */
  function SlugOfChar(c: char): string {
    if c == ',' || c == '\'' then "" else if c == ' ' then "-" else [ToLowerAscii(c)]
  }

  function Slug(s: string): string {
    if s == [] then [] else SlugOfChar(s[0]) + Slug(s[1..])
  }

  /** Characters the slug never contains. */
  predicate SlugSafe(c: char) {
    c != ' ' && c != ',' && c != '\'' && !IsAsciiUpper(c)
  }

  lemma {:induction false} ToLowerCaseAppend(a: string, b: string)
    ensures ToLowerCase(a + b) == ToLowerCase(a) + ToLowerCase(b)
  {
    if a != [] {
      assert (a + b)[1..] == a[1..] + b;
      ToLowerCaseAppend(a[1..], b);
    } else {
      assert a + b == b;
    }
  }

  lemma {:induction false} ReplaceAllAppend(a: string, b: string, c: char, rep: string)
    ensures ReplaceAll(a + b, c, rep) == ReplaceAll(a, c, rep) + ReplaceAll(b, c, rep)
  {
    if a != [] {
      assert (a + b)[1..] == a[1..] + b;
      ReplaceAllAppend(a[1..], b, c, rep);
    } else {
      assert a + b == b;
    }
  }

  /** The chained `replaceAll` calls agree with the one-pass definition. */
  lemma {:induction false} FormatCardNameIsSlug(cardName: string)
    ensures FormatCardName(cardName) == Slug(cardName)
  {
    if cardName != [] {
      var c, rest := cardName[0], cardName[1..];
      assert cardName == [c] + rest;
      ToLowerCaseAppend([c], rest);
      var l := [ToLowerAscii(c)];
      assert ToLowerCase([c]) == l;
      var lr := ToLowerCase(rest);
      ReplaceAllAppend(l, lr, ' ', "-");
      var r1 := ReplaceAll(l, ' ', "-");
      var r1r := ReplaceAll(lr, ' ', "-");
      ReplaceAllAppend(r1, r1r, ',', "");
      var r2 := ReplaceAll(r1, ',', "");
      var r2r := ReplaceAll(r1r, ',', "");
      ReplaceAllAppend(r2, r2r, '\'', "");
      assert ReplaceAll(r2, '\'', "") == SlugOfChar(c) by {
        assert ReplaceAll([], ' ', "-") == [];
        assert ReplaceAll([], ',', "") == [];
        assert ReplaceAll([], '\'', "") == [];
        assert ReplaceAll("-", ',', "") == "-" && ReplaceAll("-", '\'', "") == "-";
      }
      FormatCardNameIsSlug(rest);
    }
  }

  lemma {:induction false} SlugProperties(s: string)
    ensures forall i :: 0 <= i < |Slug(s)| ==> SlugSafe(Slug(s)[i])
    ensures |Slug(s)| == |s| - Occurrences(s, ',') - Occurrences(s, '\'')
    ensures Slug(Slug(s)) == Slug(s)
  {
    if s != [] {
      SlugProperties(s[1..]);
      var head := SlugOfChar(s[0]);
      SlugOfSafe(head);
      assert Slug(s) == head + Slug(s[1..]);
      SlugAppend(head, Slug(s[1..]));
    }
  }

  lemma {:induction false} SlugAppend(a: string, b: string)
    ensures Slug(a + b) == Slug(a) + Slug(b)
  {
    if a != [] {
      assert (a + b)[1..] == a[1..] + b;
      SlugAppend(a[1..], b);
    } else {
      assert a + b == b;
    }
  }

  /** A string of slug-safe characters is its own slug. */
  lemma {:induction false} SlugOfSafe(s: string)
    requires forall i :: 0 <= i < |s| ==> SlugSafe(s[i]) || s[i] == '-'
    ensures forall i :: 0 <= i < |s| ==> SlugSafe(s[i])
    ensures Slug(s) == s
  {
    if s != [] {
      SlugOfSafe(s[1..]);
    }
  }

  /**
   * The slug of a card name: lower-case ASCII, spaces turned into hyphens,
   * commas and apostrophes removed, every other character (periods and
   * non-ASCII letters included) kept as it is; formatting it again changes
   * nothing.
   */
  lemma FormatCardNameProperties(cardName: string)
    ensures var slug := FormatCardName(cardName);
      && (forall i :: 0 <= i < |slug| ==> SlugSafe(slug[i]))
      && |slug| == |cardName| - Occurrences(cardName, ',') - Occurrences(cardName, '\'')
      && FormatCardName(slug) == slug
  {
    FormatCardNameIsSlug(cardName);
    FormatCardNameIsSlug(FormatCardName(cardName));
    SlugProperties(cardName);
  }

  /** Without commas or apostrophes, the slug maps the name character by character. */
  lemma {:induction false} SlugPointwise(s: string)
    requires forall i :: 0 <= i < |s| ==> s[i] != ',' && s[i] != '\''
    ensures |Slug(s)| == |s|
    ensures forall i :: 0 <= i < |s| ==> Slug(s)[i] == (if s[i] == ' ' then '-' else ToLowerAscii(s[i]))
  {
    if s != [] {
      SlugPointwise(s[1..]);
    }
  }

  /** The slug of a well-known card with a comma. */
  lemma JaceSlug(cardName: string)
    requires cardName == "Jace, the Mind Sculptor"
    ensures FormatCardName(cardName) == "jace-the-mind-sculptor"
  {
    var a, b, c := "Jace,", " the Mind", " Sculptor";
    assert cardName == a + (b + c);
    calc {
      FormatCardName(cardName);
      { FormatThreeWords(a, b, c); }
      Slug(a) + (Slug(b) + Slug(c));
      { WordSlug(a, "jace"); WordSlug(b, "-the-mind"); WordSlug(c, "-sculptor"); }
      "jace" + ("-the-mind" + "-sculptor");
      "jace-the-mind-sculptor";
    }
  }

  lemma FormatThreeWords(a: string, b: string, c: string)
    ensures FormatCardName(a + (b + c)) == Slug(a) + (Slug(b) + Slug(c))
  {
    SlugAppend(a, b + c);
    SlugAppend(b, c);
    FormatCardNameIsSlug(a + (b + c));
  }

  lemma WordSlug(w: string, slug: string)
    requires (w == "Jace," && slug == "jace") || (w == " the Mind" && slug == "-the-mind")
             || (w == " Sculptor" && slug == "-sculptor")
    ensures Slug(w) == slug
  {
    if w == "Jace," {
      assert w == w[..4] + [','];
      SlugAppend(w[..4], [',']);
      SlugPointwise(w[..4]);
      assert [','][1..] == [];
    } else {
      SlugPointwise(w);
    }
  }

  /** Diacritics are not stripped: "Séance" keeps its "é". */
  lemma DiacriticsAreKept(cardName: string)
    requires cardName == "Séance"
    ensures FormatCardName(cardName) == "séance"
  {
    FormatCardNameIsSlug(cardName);
    SlugPointwise(cardName);
  }

  /** Periods are not stripped. */
  lemma PeriodsAreKept(cardName: string)
    requires cardName == "Dr. Julius"
    ensures FormatCardName(cardName) == "dr.-julius"
  {
    FormatCardNameIsSlug(cardName);
    SlugPointwise(cardName);
  }

  // ---------------------------------------------------------------- URL

  const CardsEndpoint: string := "https://json.edhrec.com/pages/cards/"
  const JsonSuffix: string := ".json"

  /** `https://json.edhrec.com/pages/cards/${formattedCardName}.json`. */
  function CardUrl(slug: string): string {
    CardsEndpoint + slug + JsonSuffix
  }

  /** Recovers the slug from a card URL: the partner of CardUrl. */
  function SlugOfUrl(url: string): Option<string> {
    if |url| >= |CardsEndpoint| + |JsonSuffix|
       && url[..|CardsEndpoint|] == CardsEndpoint
       && url[|url| - |JsonSuffix|..] == JsonSuffix
    then Some(url[|CardsEndpoint|..|url| - |JsonSuffix|])
    else None
  }

  /** Every slug's URL is under the fixed endpoint, ends in ".json", and gives the slug back. */
  lemma CardUrlRoundTrip(slug: string)
    ensures SlugOfUrl(CardUrl(slug)) == Some(slug)
    ensures |CardUrl(slug)| == |CardsEndpoint| + |slug| + |JsonSuffix|
  {
    var url := CardUrl(slug);
    assert url[..|CardsEndpoint|] == CardsEndpoint;
    assert url[|url| - |JsonSuffix|..] == JsonSuffix;
    assert url[|CardsEndpoint|..|url| - |JsonSuffix|] == slug;
  }

  /** Different slugs give different URLs. */
  lemma CardUrlInjective(a: string, b: string)
    requires CardUrl(a) == CardUrl(b)
    ensures a == b
  {
    CardUrlRoundTrip(a);
    CardUrlRoundTrip(b);
  }

  // ---------------------------------------------------------------- price

  /** The entries kept by `.filter((price) => isFinite(price))`, in key order. */
  function FinitePrices(entries: seq<Option<real>>): (kept: seq<real>)
    ensures |kept| <= |entries|
    ensures forall x :: x in kept ==> Some(x) in entries
    ensures |kept| == 0 <==> forall i :: 0 <= i < |entries| ==> entries[i].None?
  {
    if entries == [] then []
    else
      var rest := FinitePrices(entries[1..]);
      assert forall i :: 1 <= i < |entries| ==> entries[i] == entries[1..][i - 1];
      match entries[0]
      case Some(p) => [p] + rest
      case None => rest
  }

  /** Keeping finite entries respects the order of the keys. */
  lemma {:induction false} FinitePricesAppend(a: seq<Option<real>>, b: seq<Option<real>>)
    ensures FinitePrices(a + b) == FinitePrices(a) + FinitePrices(b)
  {
    if a != [] {
      assert (a + b)[1..] == a[1..] + b;
      FinitePricesAppend(a[1..], b);
    } else {
      assert a + b == b;
    }
  }

  /** `filteredPrices`: empty when the card or its `prices` is missing. */
  function FilteredPrices(card: CardJson): seq<real> {
    if card.Card? && card.prices.Some? then FinitePrices(card.prices.value) else []
  }

  /** `averagePrice`: the halving fold of the kept prices, undefined when none is kept. */
  function AveragePrice(card: CardJson): (price: Option<real>)
    ensures price.None? <==> card.Absent? || card.prices.None?
                             || forall i :: 0 <= i < |card.prices.value| ==> card.prices.value[i].None?
    ensures price.Some? ==> SeqMin(FilteredPrices(card)) <= price.value <= SeqMax(FilteredPrices(card))
  {
    var kept := FilteredPrices(card);
    if |kept| > 0 then
      HalvingFoldBounds(kept);
      Some(HalvingFold(kept))
    else None
  }

  // ---------------------------------------------------------------- popularity

  /** `card ? card.num_decks / card.potential_decks : undefined`, with no zero guard. */
  function Popularity(card: CardJson): (p: Option<Num>)
    ensures p.None? <==> card.Absent?
    ensures card.Card? && card.numDecks.Some? && card.potentialDecks.Some? && card.potentialDecks.value != 0.0
            ==> p == Some(Fin(card.numDecks.value / card.potentialDecks.value))
    ensures card.Card? && (card.numDecks.None? || card.potentialDecks.None?) ==> p == Some(NaN)
    ensures card.Card? && card.numDecks.Some? && card.potentialDecks == Some(0.0)
            ==> p == Some(if card.numDecks.value > 0.0 then PosInf
                          else if card.numDecks.value < 0.0 then NegInf else NaN)
  {
    match card
    case Absent => None
    case Card(_, _, n, d) => Some(Div(FromOptional(n), FromOptional(d)))
  }

  // ---------------------------------------------------------------- record

  /** The object literal `fetchCardData` resolves to, for the decoded card. */
  function ExtractRecord(cardName: string, card: CardJson): (r: CardRecord)
    ensures r.name == FormatCardName(cardName)
    ensures r.salt == (if card.Card? then card.salt else None)
    ensures r.price == AveragePrice(card) && r.popularity == Popularity(card)
  {
    CardRecord(FormatCardName(cardName), if card.Card? then card.salt else None,
               AveragePrice(card), Popularity(card))
  }

  /** `fetchCardData(cardName)` once the request for `CardUrl(FormatCardName(cardName))` has settled. */
  function FetchCardData(cardName: string, response: Response): (s: Settled)
    ensures s.Rejected? <==> response.NetworkFailure?
  {
    match response
    case NetworkFailure => Rejected
    case Decoded(card) => Resolved(ExtractRecord(cardName, card))
  }

  /**
   * A resolved record is named by its slug, not by the caller's card name, and
   * that slug is a fixed point of formatting; an absent card gives a record
   * with every optional field undefined.
   */
  lemma {:induction false} RecordIsNamedBySlug(cardName: string, response: Response)
    requires FetchCardData(cardName, response).Resolved?
    ensures var r := FetchCardData(cardName, response).record;
      && r.name == FormatCardName(cardName)
      && FormatCardName(r.name) == r.name
      && SlugOfUrl(CardUrl(r.name)) == Some(r.name)
      && (response.card.Absent? ==> r.salt.None? && r.price.None? && r.popularity.None?)
  {
    FormatCardNameProperties(cardName);
    CardUrlRoundTrip(FormatCardName(cardName));
  }

  /** Prices 10 and 20 with a non-numeric third entry fold to 15. */
  lemma TwoFinitePrices()
    ensures AveragePrice(Card(None, Some([Some(10.0), Some(20.0), None]), None, None)) == Some(15.0)
  {
    var entries := [Some(10.0), Some(20.0), None];
    assert FinitePrices(entries[2..]) == [];
    assert entries[1..][1..] == entries[2..];
    assert FinitePrices(entries) == [10.0, 20.0];
    assert [10.0, 20.0][..1] == [10.0];
  }

  /** An empty `prices` object gives no price. */
  lemma NoPrices()
    ensures AveragePrice(Card(None, Some([]), None, None)) == None
  {
  }
}
