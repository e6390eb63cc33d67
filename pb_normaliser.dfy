/**
 * `pb_handler`: turns one commercial-bank response into a one-entry
 * mapping from its date to the EUR and USD sale/purchase rates. Rates are
 * an opaque type R: the handler only copies them.
 */
module PbNormaliser {
  import opened Results

  /** One element of the response's `exchangeRate` array. */
  datatype PbItem<R> = PbItem(currency: string, saleRateNB: R, purchaseRateNB: R)

  /** A commercial-bank response: `{"date": ..., "exchangeRate": [...]}`. */
  datatype PbResponse<R> = PbResponse(date: string, exchangeRate: seq<PbItem<R>>)

  /** `{"sale": ..., "buy": ...}`; either may be Python's `None`. */
  datatype Quote<R> = Quote(sale: Option<R>, buy: Option<R>)

  /** `{"EUR": ..., "USD": ...}`: exactly these two currencies, in every output. */
  datatype PbRates<R> = PbRates(eur: Quote<R>, usd: Quote<R>)

  /** The handler's dictionary, keyed by the response's date. */
  type PbDaily<R> = map<string, PbRates<R>>

  /** The quote of the last element for `code`, or `None` fields when none is. */
  function LastQuote<R>(items: seq<PbItem<R>>, code: string): Quote<R> {
    if items == [] then Quote(None, None)
    else
      var last := items[|items| - 1];
      if last.currency == code then Quote(Some(last.saleRateNB), Some(last.purchaseRateNB))
      else LastQuote(items[..|items| - 1], code)
  }

  /** What `pb_handler` returns for a response. */
  function PbNormalised<R>(data: PbResponse<R>): PbDaily<R> {
    map[data.date := PbRates(LastQuote(data.exchangeRate, "EUR"), LastQuote(data.exchangeRate, "USD"))]
  }

  /**
   * `pb_handler`: two passes over `exchangeRate`, first for EUR, then for
   * USD; each match overwrites the pass's two variables.
   */
  method PbHandler<R>(data: PbResponse<R>) returns (dict: PbDaily<R>)
    ensures dict == PbNormalised(data)
    ensures dict.Keys == {data.date}
  {
    var usdSale: Option<R> := None;
    var usdBuy: Option<R> := None;
    var eurSale: Option<R> := None;
    var eurBuy: Option<R> := None;
    var items := data.exchangeRate;

    for i := 0 to |items|
      invariant Quote(eurSale, eurBuy) == LastQuote(items[..i], "EUR")
    {
      assert items[..i + 1][..i] == items[..i];
      if items[i].currency == "EUR" {
        eurSale := Some(items[i].saleRateNB);
        eurBuy := Some(items[i].purchaseRateNB);
      }
    }

    for i := 0 to |items|
      invariant Quote(usdSale, usdBuy) == LastQuote(items[..i], "USD")
    {
      assert items[..i + 1][..i] == items[..i];
      if items[i].currency == "USD" {
        usdSale := Some(items[i].saleRateNB);
        usdBuy := Some(items[i].purchaseRateNB);
      }
    }

    assert items[..|items|] == items;
    dict := map[data.date := PbRates(Quote(eurSale, eurBuy), Quote(usdSale, usdBuy))];
  }

  /** A currency absent from the array yields `None` for both fields, and only then. */
  lemma {:induction false} LastQuoteMissing<R>(items: seq<PbItem<R>>, code: string)
    ensures LastQuote(items, code) == Quote(None, None)
            <==> forall i | 0 <= i < |items| :: items[i].currency != code
    ensures LastQuote(items, code).sale.Some? <==> LastQuote(items, code).buy.Some?
  {
    if items != [] {
      var init := items[..|items| - 1];
      LastQuoteMissing(init, code);
      assert forall i | 0 <= i < |init| :: init[i] == items[i];
    }
  }

  /** With several elements for one currency, the last one in array order wins. */
  lemma {:induction false} LastQuoteLastWins<R>(items: seq<PbItem<R>>, code: string, k: int)
    requires 0 <= k < |items| && items[k].currency == code
    requires forall j | k < j < |items| :: items[j].currency != code
    ensures LastQuote(items, code) == Quote(Some(items[k].saleRateNB), Some(items[k].purchaseRateNB))
  {
    if k < |items| - 1 {
      var init := items[..|items| - 1];
      assert forall j | k < j < |init| :: init[j] == items[j];
      LastQuoteLastWins(init, code, k);
    }
  }

  /**
   * The handler's output: one key, the response's date, mapped to the EUR
   * and USD quotes; a currency with no element gets `None` fields, one with
   * elements gets the rates of its last element.
   */
  lemma PbNormalisedContents<R>(data: PbResponse<R>)
    ensures PbNormalised(data).Keys == {data.date}
    ensures (forall i | 0 <= i < |data.exchangeRate| :: data.exchangeRate[i].currency != "EUR")
            ==> PbNormalised(data)[data.date].eur == Quote(None, None)
    ensures (forall i | 0 <= i < |data.exchangeRate| :: data.exchangeRate[i].currency != "USD")
            ==> PbNormalised(data)[data.date].usd == Quote(None, None)
    ensures forall k | 0 <= k < |data.exchangeRate| && data.exchangeRate[k].currency == "EUR"
                       && (forall j | k < j < |data.exchangeRate| :: data.exchangeRate[j].currency != "EUR")
              :: PbNormalised(data)[data.date].eur
                 == Quote(Some(data.exchangeRate[k].saleRateNB), Some(data.exchangeRate[k].purchaseRateNB))
    ensures forall k | 0 <= k < |data.exchangeRate| && data.exchangeRate[k].currency == "USD"
                       && (forall j | k < j < |data.exchangeRate| :: data.exchangeRate[j].currency != "USD")
              :: PbNormalised(data)[data.date].usd
                 == Quote(Some(data.exchangeRate[k].saleRateNB), Some(data.exchangeRate[k].purchaseRateNB))
  {
    var items := data.exchangeRate;
    LastQuoteMissing(items, "EUR");
    LastQuoteMissing(items, "USD");
    forall k | 0 <= k < |items| && items[k].currency == "EUR"
               && (forall j | k < j < |items| :: items[j].currency != "EUR")
      ensures LastQuote(items, "EUR") == Quote(Some(items[k].saleRateNB), Some(items[k].purchaseRateNB))
    {
      LastQuoteLastWins(items, "EUR", k);
    }
    forall k | 0 <= k < |items| && items[k].currency == "USD"
               && (forall j | k < j < |items| :: items[j].currency != "USD")
      ensures LastQuote(items, "USD") == Quote(Some(items[k].saleRateNB), Some(items[k].purchaseRateNB))
    {
      LastQuoteLastWins(items, "USD", k);
    }
  }
}
