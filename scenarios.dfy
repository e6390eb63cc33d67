/** The normalisers and `get_exchange` on small concrete inputs. */
module Scenarios {
  import opened Results
  import opened PbNormaliser
  import opened NbuNormaliser
  import opened Exchange

  /** Both currencies present once: each quote is copied from its element. */
  lemma PbBothCurrencies()
    ensures PbNormalised(PbResponse("01.01.2024",
              [PbItem("USD", 38.0, 37.5), PbItem("EUR", 42.0, 41.0)]))
            == map["01.01.2024" := PbRates(Quote(Some(42.0), Some(41.0)), Quote(Some(38.0), Some(37.5)))]
  {
  }

  /** No EUR element: the EUR fields stay `None`, nothing is raised. */
  lemma PbMissingEuro()
    ensures PbExchange(Some(PbResponse("02.01.2024", [PbItem("USD", 38.0, 37.5), PbItem("PLN", 9.5, 9.4)])))
            == Ok(Retrieved(map["02.01.2024" := PbRates(Quote(None, None), Quote(Some(38.0), Some(37.5)))]))
  {
    var data := PbResponse("02.01.2024", [PbItem("USD", 38.0, 37.5), PbItem("PLN", 9.5, 9.4)]);
    LastQuoteMissing(data.exchangeRate, "EUR");
    PbExchangeOutcome(Some(data));
  }

  /** Two USD elements: the later one's rates are kept. */
  lemma PbDuplicateDollar()
    ensures PbNormalised(PbResponse("03.01.2024",
              [PbItem("USD", 1.0, 2.0), PbItem("EUR", 3.0, 4.0), PbItem("USD", 5.0, 6.0)]))["03.01.2024"].usd
            == Quote(Some(5.0), Some(6.0))
  {
  }

  /** One USD and one EUR element: the USD element's date keys both rates. */
  lemma NbuBothCurrencies()
    ensures NbuHandler([NbuItem("USD", "01.01.2024", 38.2), NbuItem("EUR", "31.12.2023", 41.5)])
            == Ok(map["01.01.2024" := NbuRates(41.5, 38.2)])
  {
  }

  /** Two USD elements and no EUR element: the USD check fails first. */
  lemma NbuDuplicateDollar()
    ensures NbuExchange(Some([NbuItem("USD", "01.01.2024", 38.2), NbuItem("USD", "01.01.2024", 38.3)]))
            == Err(TooManyValues("USD"))
  {
  }
}
