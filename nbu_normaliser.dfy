/**
 * `nbu_handler`: picks the single USD and the single EUR element of a
 * national-bank response and maps the USD element's date to both rates.
 * The single-element destructuring `x, = [...]` raises `ValueError` when
 * the filter keeps no element or more than one.
 */
module NbuNormaliser {
  import opened Results

  /** One element of the national-bank array: `{"cc", "exchangedate", "rate"}`. */
  datatype NbuItem<R> = NbuItem(cc: string, exchangedate: string, rate: R)

  /** `{"EUR": {"rate": ...}, "USD": {"rate": ...}}`. */
  datatype NbuRates<R> = NbuRates(eur: R, usd: R)

  /** The handler's dictionary, keyed by the USD element's date. */
  type NbuDaily<R> = map<string, NbuRates<R>>

  /**
   * The `ValueError` of `x, = list(filter(...))`, with the currency code of
   * the filter whose result had the wrong length.
   */
  datatype ValueError =
    | NotEnoughValues(code: string)   // the filter kept nothing
    | TooManyValues(code: string)     // the filter kept two or more elements

  /** `list(filter(lambda el: el["cc"] == code, items))`. */
  function Matching<R>(items: seq<NbuItem<R>>, code: string): (r: seq<NbuItem<R>>)
    ensures forall x | x in r :: x in items && x.cc == code
  {
    if items == [] then []
    else if items[0].cc == code then [items[0]] + Matching(items[1..], code)
    else Matching(items[1..], code)
  }

  /** How many elements carry the currency code. */
  function Count<R>(items: seq<NbuItem<R>>, code: string): nat {
    multiset(seq(|items|, i requires 0 <= i < |items| => items[i].cc))[code]
  }

  /** `x, = xs`: the only element, or the `ValueError` Python raises. */
  function UnpackOne<R>(xs: seq<NbuItem<R>>, code: string): (r: Result<NbuItem<R>, ValueError>)
    ensures r.Ok? <==> |xs| == 1
    ensures r.Ok? ==> xs == [r.value]
    ensures r == Err(NotEnoughValues(code)) <==> |xs| == 0
    ensures r == Err(TooManyValues(code)) <==> |xs| > 1
  {
    if |xs| == 0 then Err(NotEnoughValues(code))
    else if |xs| > 1 then Err(TooManyValues(code))
    else Ok(xs[0])
  }

  /**
   * `nbu_handler`: the USD element is unpacked first, then the EUR element.
   * A result is one entry built from a USD and an EUR element of the input;
   * an EUR error is reported only once exactly one USD element was found.
   */
  function NbuHandler<R>(items: seq<NbuItem<R>>): (r: Result<NbuDaily<R>, ValueError>)
    ensures r.Ok? ==> exists u, e | u in items && e in items ::
                        u.cc == "USD" && e.cc == "EUR"
                        && r.value == map[u.exchangedate := NbuRates(e.rate, u.rate)]
    ensures r.Err? ==> r.error.code == "USD" || r.error.code == "EUR"
    ensures r.Err? && r.error.code == "EUR" ==> |Matching(items, "USD")| == 1
  {
    var usd :- UnpackOne(Matching(items, "USD"), "USD");
    var eur :- UnpackOne(Matching(items, "EUR"), "EUR");
    Ok(map[usd.exchangedate := NbuRates(eur.rate, usd.rate)])
  }

  /** The filter keeps as many elements as carry the code. */
  lemma {:induction false} MatchingCount<R>(items: seq<NbuItem<R>>, code: string)
    ensures |Matching(items, code)| == Count(items, code)
  {
    if items != [] {
      MatchingCount(items[1..], code);
      var codes := seq(|items|, i requires 0 <= i < |items| => items[i].cc);
      var rest := seq(|items| - 1, i requires 0 <= i < |items| - 1 => items[1..][i].cc);
      assert codes == [items[0].cc] + rest;
    }
  }

  /** When exactly one element carries the code, the filter keeps that element. */
  lemma {:induction false} MatchingSingle<R>(items: seq<NbuItem<R>>, code: string, k: int)
    requires 0 <= k < |items| && items[k].cc == code && Count(items, code) == 1
    ensures Matching(items, code) == [items[k]]
  {
    MatchingCount(items, code);
    var m := Matching(items, code);
    assert |m| == 1;
    MatchingKeeps(items, code, k);
  }

  lemma {:induction false} MatchingKeeps<R>(items: seq<NbuItem<R>>, code: string, k: int)
    requires 0 <= k < |items| && items[k].cc == code
    ensures items[k] in Matching(items, code)
  {
    if k > 0 {
      MatchingKeeps(items[1..], code, k - 1);
    }
  }

  /**
   * The handler succeeds exactly when one element is USD and one is EUR.
   * The USD check comes first: a wrong USD count is reported even when the
   * EUR count is wrong too; no element means `NotEnoughValues`, two or more
   * `TooManyValues`.
   */
  lemma NbuHandlerOutcome<R>(items: seq<NbuItem<R>>)
    ensures NbuHandler(items).Ok? <==> Count(items, "USD") == 1 && Count(items, "EUR") == 1
    ensures Count(items, "USD") == 0 ==> NbuHandler(items) == Err(NotEnoughValues("USD"))
    ensures Count(items, "USD") > 1 ==> NbuHandler(items) == Err(TooManyValues("USD"))
    ensures Count(items, "USD") == 1 && Count(items, "EUR") == 0
            ==> NbuHandler(items) == Err(NotEnoughValues("EUR"))
    ensures Count(items, "USD") == 1 && Count(items, "EUR") > 1
            ==> NbuHandler(items) == Err(TooManyValues("EUR"))
  {
    MatchingCount(items, "USD");
    MatchingCount(items, "EUR");
  }

  /**
   * On success the single key is the USD element's `exchangedate`, even when
   * the EUR element carries another date, and each currency keeps its `rate`.
   */
  lemma NbuHandlerResult<R>(items: seq<NbuItem<R>>, u: int, e: int)
    requires 0 <= u < |items| && items[u].cc == "USD" && Count(items, "USD") == 1
    requires 0 <= e < |items| && items[e].cc == "EUR" && Count(items, "EUR") == 1
    ensures NbuHandler(items) == Ok(map[items[u].exchangedate := NbuRates(items[e].rate, items[u].rate)])
  {
    MatchingSingle(items, "USD", u);
    MatchingSingle(items, "EUR", e);
  }
}
