/**
 * `get_exchange` and the two ways the program collects one outcome per
 * URL: the sequential loops of `main.py` and the gathered tasks of
 * `fetch_urls_with_executor`. The network request is a function
 * parameter `fetch`: its result is the parsed JSON body, or `None` when
 * the request failed (connection error or an error status).
 */
module Exchange {
  import opened Results
  import opened Calendar
  import opened Urls
  import opened PbNormaliser
  import opened NbuNormaliser

  /** The text `get_exchange` returns when there is no data to handle. */
  const FailureMessage: string := "Failed to retrieve data"

  /** What `get_exchange` returns: the failure text or the handler's dictionary. */
  datatype Outcome<T> = Failed(message: string) | Retrieved(value: T)

  /** What one `get_exchange` call ends in: an outcome, or the handler's exception. */
  type Step<T> = Result<Outcome<T>, ValueError>

  /**
   * `get_exchange`: a falsy body (`None`, or a payload Python treats as false)
   * gives the failure text; otherwise the handler's result, or the exception
   * it raises, which `get_exchange` does not catch.
   */
  function GetExchange<P, T>(fetched: Option<P>, truthy: P -> bool, handler: P -> Result<T, ValueError>)
    : (r: Step<T>)
    ensures r == Ok(Failed(FailureMessage)) <==> fetched.None? || !truthy(fetched.value)
    ensures r.Ok? && r.value.Failed? ==> r.value.message == FailureMessage
    ensures fetched.Some? && truthy(fetched.value) ==>
              (r.Err? <==> handler(fetched.value).Err?)
              && (r.Err? ==> r.error == handler(fetched.value).error)
              && (r.Ok? ==> r.value == Retrieved(handler(fetched.value).value))
  {
    if fetched.Some? && truthy(fetched.value) then
      var v :- handler(fetched.value);
      Ok(Retrieved(v))
    else
      Ok(Failed(FailureMessage))
  }

  /**
   * Truthiness of a commercial-bank body: a dictionary is true when it has
   * a key, and a response record always holds `date` and `exchangeRate`.
   */
  predicate PbTruthy<R>(data: PbResponse<R>): (b: bool)
    ensures b
  {
    true
  }

  /** Truthiness of a national-bank body: a list is true when it is non-empty. */
  predicate NbuTruthy<R>(items: seq<NbuItem<R>>): (b: bool)
    ensures b <==> |items| > 0
  {
    items != []
  }

  /**
   * `get_exchange(url, pb_handler)` on the fetched body: it never raises, and
   * it gives the failure text exactly when no body came back.
   */
  function PbExchange<R>(fetched: Option<PbResponse<R>>): (r: Step<PbDaily<R>>)
    ensures r.Ok?
    ensures r.value.Failed? <==> fetched.None?
  {
    GetExchange(fetched, PbTruthy, (d: PbResponse<R>) => Ok(PbNormalised(d)))
  }

  /**
   * `get_exchange(url, nbu_handler)` on the fetched body: the failure text
   * comes exactly from no body or an empty array; only a non-empty array
   * that `nbu_handler` rejects raises; a non-empty array it accepts gives
   * the dictionary it built.
   */
  function NbuExchange<R>(fetched: Option<seq<NbuItem<R>>>): (r: Step<NbuDaily<R>>)
    ensures r == Ok(Failed(FailureMessage)) <==> fetched.None? || fetched.value == []
    ensures fetched.Some? && fetched.value != [] && NbuHandler(fetched.value).Ok? ==>
              r == Ok(Retrieved(NbuHandler(fetched.value).value))
    ensures r.Err? ==> fetched.Some? && |fetched.value| > 0 && NbuHandler(fetched.value) == Err(r.error)
    ensures r.Ok? && r.value.Retrieved? ==>
              fetched.Some? && |fetched.value| > 0 && NbuHandler(fetched.value) == Ok(r.value.value)
  {
    GetExchange(fetched, NbuTruthy, NbuHandler)
  }

  /**
   * The commercial-bank handler is reached exactly when the request gave a
   * body, and then never raises.
   */
  lemma PbExchangeOutcome<R>(fetched: Option<PbResponse<R>>)
    ensures fetched.None? ==> PbExchange(fetched) == Ok(Failed(FailureMessage))
    ensures fetched.Some? ==> PbExchange(fetched) == Ok(Retrieved(PbNormalised(fetched.value)))
  {
  }

  /**
   * An empty national-bank array is falsy, so it gives the failure text and
   * never reaches `nbu_handler`; only a non-empty array can raise, and a
   * non-empty array the handler accepts gives the handler's dictionary.
   */
  lemma NbuExchangeOutcome<R>(fetched: Option<seq<NbuItem<R>>>)
    ensures fetched == None || fetched == Some([]) ==> NbuExchange(fetched) == Ok(Failed(FailureMessage))
    ensures NbuExchange(fetched).Err? <==> fetched.Some? && fetched.value != [] && NbuHandler(fetched.value).Err?
    ensures fetched.Some? && fetched.value != [] && NbuHandler(fetched.value).Ok? ==>
              NbuExchange(fetched) == Ok(Retrieved(NbuHandler(fetched.value).value))
  {
  }

  /**
   * `get_exchange(url, pb_handler)` with the handler run as the program
   * runs it.
   */
  method GetPbExchange<R>(fetched: Option<PbResponse<R>>) returns (outcome: Outcome<PbDaily<R>>)
    ensures Ok(outcome) == PbExchange(fetched)
    ensures outcome.Failed? <==> fetched.None?
  {
    if fetched.Some? && PbTruthy(fetched.value) {
      var dict := PbHandler(fetched.value);
      outcome := Retrieved(dict);
    } else {
      outcome := Failed(FailureMessage);
    }
  }

  /**
   * One `get_exchange` per URL, run one after another, appending in URL
   * order; the first exception ends the run.
   */
  function Collect<T>(urls: seq<string>, exchange: string -> Step<T>): (r: Result<seq<Outcome<T>>, ValueError>)
    ensures r.Ok? <==> forall k | 0 <= k < |urls| :: exchange(urls[k]).Ok?
    ensures r.Ok? ==> |r.value| == |urls| && forall k | 0 <= k < |urls| :: exchange(urls[k]) == Ok(r.value[k])
    ensures r.Err? ==> exists k | 0 <= k < |urls| ::
              exchange(urls[k]) == Err(r.error) && forall j | 0 <= j < k :: exchange(urls[j]).Ok?
  {
    if urls == [] then Ok([])
    else
      var done :- Collect(urls[..|urls| - 1], exchange);
      var last :- exchange(urls[|urls| - 1]);
      Ok(done + [last])
  }

  /** Collecting one more URL extends the list or raises that URL's exception. */
  lemma CollectStep<T>(urls: seq<string>, exchange: string -> Step<T>, i: int)
    requires 0 <= i < |urls| && Collect(urls[..i], exchange).Ok?
    ensures exchange(urls[i]).Err? ==> Collect(urls[..i + 1], exchange) == Err(exchange(urls[i]).error)
    ensures exchange(urls[i]).Ok? ==>
              Collect(urls[..i + 1], exchange) == Ok(Collect(urls[..i], exchange).value + [exchange(urls[i]).value])
  {
    assert urls[..i + 1][..i] == urls[..i];
  }

  /** The exception of the first URL that raises is the one the run raises. */
  lemma CollectFirstError<T>(urls: seq<string>, exchange: string -> Step<T>, i: int)
    requires 0 <= i < |urls| && exchange(urls[i]).Err?
    requires Collect(urls[..i], exchange).Ok?
    ensures Collect(urls, exchange) == Err(exchange(urls[i]).error)
  {
    assert forall j | 0 <= j < i :: urls[..i][j] == urls[j];
    var c := Collect(urls, exchange);
    assert c.Err?;
    var k :| 0 <= k < |urls| && exchange(urls[k]) == Err(c.error) && forall j | 0 <= j < k :: exchange(urls[j]).Ok?;
    assert k == i;
  }

  /** The first exception among the outcomes, if any. */
  function FirstError<T>(steps: seq<Step<T>>): (r: Option<ValueError>)
    ensures r.None? <==> forall k | 0 <= k < |steps| :: steps[k].Ok?
    ensures r.Some? ==> exists k | 0 <= k < |steps| ::
              steps[k] == Err(r.value) && forall j | 0 <= j < k :: steps[j].Ok?
  {
    if steps == [] then None
    else if steps[0].Err? then Some(steps[0].error)
    else
      var rest := FirstError(steps[1..]);
      assert forall k | 0 <= k < |steps| - 1 :: steps[1..][k] == steps[k + 1];
      rest
  }

  /**
   * `fetch_urls_with_executor`: a task per URL, gathered. The outcome for
   * `urls[k]` lands at index k whatever the completion order; if a task
   * raises, `gather` raises instead of returning a list.
   */
  function FetchUrlsWithExecutor<T>(urls: seq<string>, exchange: string -> Step<T>)
    : (r: Result<seq<Outcome<T>>, ValueError>)
    ensures r.Ok? ==> |r.value| == |urls| && forall k | 0 <= k < |urls| :: exchange(urls[k]) == Ok(r.value[k])
    ensures r.Err? <==> exists k | 0 <= k < |urls| :: exchange(urls[k]).Err?
  {
    var steps := seq(|urls|, k requires 0 <= k < |urls| => exchange(urls[k]));
    match FirstError(steps)
    case Some(e) => Err(e)
    case None => Ok(seq(|steps|, k requires 0 <= k < |steps| && steps[k].Ok? => steps[k].value))
  }

  /** Both entry points produce the same list, or raise the same exception. */
  lemma ExecutorMatchesSequential<T>(urls: seq<string>, exchange: string -> Step<T>)
    ensures FetchUrlsWithExecutor(urls, exchange) == Collect(urls, exchange)
  {
    var g, c := FetchUrlsWithExecutor(urls, exchange), Collect(urls, exchange);
    if c.Ok? {
      assert g.Ok?;
      assert |g.value| == |c.value|;
      assert forall k | 0 <= k < |urls| :: g.value[k] == c.value[k];
      assert g.value == c.value;
    } else {
      var steps := seq(|urls|, k requires 0 <= k < |urls| => exchange(urls[k]));
      var k :| 0 <= k < |urls| && exchange(urls[k]) == Err(c.error) && forall j | 0 <= j < k :: exchange(urls[j]).Ok?;
      var e := FirstError(steps);
      var k' :| 0 <= k' < |steps| && steps[k'] == Err(e.value) && forall j | 0 <= j < k' :: steps[j].Ok?;
      assert steps[k] == exchange(urls[k]) && steps[k'] == exchange(urls[k']);
      assert k == k';
    }
  }

  /** `main.py`'s loop over the commercial-bank URLs. */
  method RunPb<R>(urls: seq<string>, fetch: string -> Option<PbResponse<R>>)
    returns (results: seq<Outcome<PbDaily<R>>>)
    ensures Collect(urls, u => PbExchange(fetch(u))) == Ok(results)
    ensures |results| == |urls|
    ensures forall k | 0 <= k < |urls| :: (results[k].Failed? <==> fetch(urls[k]).None?)
  {
    results := [];
    for i := 0 to |urls|
      invariant Collect(urls[..i], u => PbExchange(fetch(u))) == Ok(results)
    {
      var outcome := GetPbExchange(fetch(urls[i]));
      CollectStep(urls, u => PbExchange(fetch(u)), i);
      results := results + [outcome];
    }
    assert urls[..|urls|] == urls;
  }

  /** The commercial-bank run never raises: every URL gets an outcome. */
  lemma PbRunNeverRaises<R>(urls: seq<string>, fetch: string -> Option<PbResponse<R>>)
    ensures Collect(urls, u => PbExchange(fetch(u))).Ok?
  {
    forall k | 0 <= k < |urls| ensures (u => PbExchange(fetch(u)))(urls[k]).Ok? {
      PbExchangeOutcome(fetch(urls[k]));
    }
  }

  /**
   * `main.py`'s loop over the national-bank URLs: the first exception from
   * `nbu_handler` propagates and no list is produced.
   */
  method RunNbu<R>(urls: seq<string>, fetch: string -> Option<seq<NbuItem<R>>>)
    returns (r: Result<seq<Outcome<NbuDaily<R>>>, ValueError>)
    ensures r == Collect(urls, u => NbuExchange(fetch(u)))
  {
    var exchange := u => NbuExchange(fetch(u));
    var results := [];
    for i := 0 to |urls|
      invariant Collect(urls[..i], exchange) == Ok(results)
    {
      var step := exchange(urls[i]);
      CollectStep(urls, exchange, i);
      if step.Err? {
        CollectFirstError(urls, exchange, i);
        return Err(step.error);
      }
      results := results + [step.value];
    }
    assert urls[..|urls|] == urls;
    r := Ok(results);
  }

  /**
   * The `__main__` block of `main.py`: build both URL lists from the
   * reference date, then collect the commercial-bank outcomes and the
   * national-bank outcomes. On success each list has one entry per day,
   * most recent first; an exception from `nbu_handler` ends the program.
   */
  method RunMain<R>(today: Date, fetchPb: string -> Option<PbResponse<R>>,
                    fetchNbu: string -> Option<seq<NbuItem<R>>>)
    returns (r: Result<(seq<Outcome<PbDaily<R>>>, seq<Outcome<NbuDaily<R>>>), ValueError>)
    requires HasHistory(today)
    ensures r.Ok? ==> Collect(PbUrls(today), u => PbExchange(fetchPb(u))) == Ok(r.value.0)
    ensures r.Ok? ==> Collect(NbuUrls(today), u => NbuExchange(fetchNbu(u))) == Ok(r.value.1)
    ensures r.Err? ==> Collect(NbuUrls(today), u => NbuExchange(fetchNbu(u))) == Err(r.error)
  {
    var pbUrls := ApiPb(today);
    var nbuUrls := ApiNbu(today);
    var pbResults := RunPb(pbUrls, fetchPb);
    var nbuResults := RunNbu(nbuUrls, fetchNbu);
    if nbuResults.Err? {
      return Err(nbuResults.error);
    }
    r := Ok((pbResults, nbuResults.value));
  }

  /**
   * The `__main__` block of `main_ProcessPool.py`: the same two URL lists,
   * each collected by `fetch_urls_with_executor`. It returns what `main.py`
   * returns.
   */
  method RunProcessPoolMain<R>(today: Date, fetchPb: string -> Option<PbResponse<R>>,
                               fetchNbu: string -> Option<seq<NbuItem<R>>>)
    returns (r: Result<(seq<Outcome<PbDaily<R>>>, seq<Outcome<NbuDaily<R>>>), ValueError>)
    requires HasHistory(today)
    ensures r.Ok? ==> Collect(PbUrls(today), u => PbExchange(fetchPb(u))) == Ok(r.value.0)
    ensures r.Ok? ==> Collect(NbuUrls(today), u => NbuExchange(fetchNbu(u))) == Ok(r.value.1)
    ensures r.Err? ==> Collect(NbuUrls(today), u => NbuExchange(fetchNbu(u))) == Err(r.error)
  {
    var pbUrls := ApiPb(today);
    var nbuUrls := ApiNbu(today);
    ExecutorMatchesSequential(pbUrls, u => PbExchange(fetchPb(u)));
    ExecutorMatchesSequential(nbuUrls, u => NbuExchange(fetchNbu(u)));
    PbRunNeverRaises(pbUrls, fetchPb);
    var pbResults := FetchUrlsWithExecutor(pbUrls, u => PbExchange(fetchPb(u)));
    var nbuResults := FetchUrlsWithExecutor(nbuUrls, u => NbuExchange(fetchNbu(u)));
    if nbuResults.Err? {
      return Err(nbuResults.error);
    }
    r := Ok((pbResults.value, nbuResults.value));
  }
}
