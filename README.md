# Exchange-rate fetcher: a verified model of its core

The program asks two banks for the EUR and USD exchange rates of the last ten
days. One is a commercial bank (PrivatBank). The other is the National Bank of
Ukraine (NBU). It builds one request URL per day from a reference date. It
fetches each URL and normalises each JSON body into a one-entry dictionary
`{date: {"EUR": ..., "USD": ...}}`. It collects one outcome per URL, in URL
order. `main.py` runs the fetches one after another. `main_ProcessPool.py`
gathers them as event-loop tasks. Lines 13-98 of `main_ProcessPool.py`
repeat lines 11-96 of `main.py` line for line in behaviour, so one set of
members models both files.

The model has one module per component:

- `Calendar` (calendar.dfy): proleptic-Gregorian dates in years 1000-9999,
  leap years, and the ordinal day number. Python's `date.toordinal` uses the
  same formula. It also has `PrevDay` and `SubtractDays`, which is
  `today - timedelta(days=n)`.
- `DateFormat` (date_format.dfy): the `strftime` patterns `%d.%m.%Y` and
  `%Y%m%d`, with parsers that invert them.
- `Urls` (urls.dfy): the URL templates and the builders `api_pb` and
  `api_nbu`. These are methods with the source's `for`/`append` loop. The
  reference date is a parameter, not the module-level `today`.
- `PbNormaliser` (pb_normaliser.dfy): `pb_handler`. It is a method with the
  source's two loops, which overwrite local variables. It is proved against
  the specification function `PbNormalised`.
- `NbuNormaliser` (nbu_normaliser.dfy): `nbu_handler`, as filter plus
  single-element unpacking. A failed unpack is the `ValueError` that Python
  raises.
- `Exchange` (exchange.dfy): `get_exchange` and Python truthiness. It also
  has the sequential collection loops of `main.py`, `fetch_urls_with_executor`,
  and both `__main__` blocks. The network request is a function parameter
  `fetch`, which returns the parsed body or `None`.
- `Results` (results.dfy): `Option` and `Result`.
- `Scenarios` (scenarios.dfy): the normalisers and `get_exchange` on small
  concrete inputs.

Rates are an opaque type parameter `R`. The program only copies them and never
computes with them.

Three facts about the program shape the model:

- A commercial-bank response without a EUR or USD element gives `None` fields.
  It is not an error.
- A national-bank element count other than one raises Python's `ValueError`,
  with the message "not enough values" or "too many values".
- `main.py` runs each fetch to completion before starting the next one.

## Model

| member | source | states |
|---|---|---|
| Calendar.DayNumber | main.py:76 | `date.toordinal`: the ordinal of a valid date lies among the ordinals of its own year |
| Calendar.PrevDay | main.py:76 | the day before a valid date is valid, is earlier in calendar order, and has an ordinal exactly one less (month and year rollover, leap February) |
| Calendar.SubtractDays | main.py:76 | `today - timedelta(days=n)` is a valid date whose ordinal is n less than today's |
| Calendar.DayNumberMonotone | main.py:76 | the ordinal strictly follows calendar order |
| Calendar.DayNumberInjective | main.py:76 | distinct valid dates have distinct ordinals |
| Calendar.SubtractDaysIsOrdinalDifference | main.py:86 | any valid date whose ordinal is n below today's is `SubtractDays(today, n)`, so the date is uniquely determined, as Python's ordinal-based subtraction requires |
| Calendar.SubtractDaysOrdered | main_ProcessPool.py:79 | stepping further back always gives a strictly earlier date |
| Calendar.YearStep | main.py:76 | the closed-form day count before a year grows by 366 in leap years and 365 otherwise |
| DateFormat.Padded | main.py:76 | `%d`, `%m` and `%Y` print exactly w decimal digits |
| DateFormat.FormatDmy | main.py:76 | `%d.%m.%Y` yields a 10-character string |
| DateFormat.FormatYmd | main.py:86 | `%Y%m%d` yields 8 decimal digits |
| DateFormat.DmyRoundTrip | main.py:76 | parsing a `DD.MM.YYYY` string gives back the date it was formatted from |
| DateFormat.DmyParseFormat | main_ProcessPool.py:79 | every string that parses as `DD.MM.YYYY` is exactly the formatted form of its date |
| DateFormat.YmdRoundTrip | main.py:86 | parsing a `YYYYMMDD` string gives back the date it was formatted from |
| DateFormat.YmdParseFormat | main_ProcessPool.py:88 | every string that parses as `YYYYMMDD` is exactly the formatted form of its date |
| DateFormat.YmdValueOrdered | main.py:86 | read as an 8-digit number, `YYYYMMDD` increases with calendar order |
| DateFormat.ParsePadded | main.py:76 | reading a zero-padded number back gives the number |
| Urls.PbUrl | main.py:77 | the commercial-bank URL for a date; parsing the URL gives back that date |
| Urls.NbuUrl | main.py:87 | the national-bank URL for a date; parsing the URL gives back that date |
| Urls.ApiPb | main.py:73-79 | exactly 10 URLs; URL i is the template filled with `today - i days` as `DD.MM.YYYY`, and the date parsed back from URL i is that date |
| Urls.ApiNbu | main.py:83-89 | exactly 10 URLs; URL i is the template filled with `today - i days` as `YYYYMMDD`, and the date parsed back from URL i is that date |
| Urls.RequestedDatesDecrease | main_ProcessPool.py:85-91 | consecutive URLs ask for dates exactly one calendar day apart, most recent first, strictly decreasing as dates and as `YYYYMMDD` numbers |
| Urls.RequestedDatesDistinct | main_ProcessPool.py:76-82 | no two of the ten URLs of a bank are equal |
| PbNormaliser.PbHandler | main.py:24-53 | the two overwriting loops compute `PbNormalised`: one key, the response's date, mapped to the last EUR and the last USD quotes |
| PbNormaliser.LastQuoteMissing | main.py:26-39 | a currency's fields are both `None` exactly when no element has that currency; sale and buy are always both set or both unset |
| PbNormaliser.LastQuoteLastWins | main_ProcessPool.py:33-41 | with several elements for one currency, the quote comes from the last one in array order |
| PbNormaliser.PbNormalisedContents | main.py:41-51 | the output has exactly the key `data['date']`; a missing currency gets `None` fields; a present one gets the sale/purchase rates of its last element |
| NbuNormaliser.Matching | main.py:57 | the filter keeps only elements of the input that carry the code |
| NbuNormaliser.UnpackOne | main.py:57-58 | `x, = xs` succeeds iff `xs` has exactly one element and then yields it; an empty list raises "not enough values" and a longer one "too many values" |
| NbuNormaliser.NbuHandler | main.py:56-71 | a result is the one-entry dictionary built from some USD element and some EUR element of the input; an error names USD or EUR, and an EUR error occurs only after exactly one USD element was found |
| NbuNormaliser.MatchingCount | main.py:57-58 | the filter keeps as many elements as carry the code |
| NbuNormaliser.MatchingSingle | main_ProcessPool.py:59-60 | when exactly one element carries the code, unpacking yields that element |
| NbuNormaliser.NbuHandlerOutcome | main.py:57-58 | succeeds iff exactly one element is USD and exactly one is EUR; the USD check comes first; zero matches raise "not enough values" and two or more raise "too many values" |
| NbuNormaliser.NbuHandlerResult | main.py:59-69 | the output is `{usd.exchangedate: {EUR: eur.rate, USD: usd.rate}}`, keyed by the USD element's date even when EUR's differs |
| Exchange.GetExchange | main.py:92-96 | the failure text "Failed to retrieve data" comes back exactly when the body is `None` or falsy; otherwise the handler's dictionary comes back, or its exception propagates |
| Exchange.PbTruthy | main.py:94 | a commercial-bank body, a dictionary with its two keys, is always truthy |
| Exchange.NbuTruthy | main.py:94 | a national-bank body, a list, is truthy iff it is non-empty |
| Exchange.PbExchange | main.py:109 | `get_exchange(url, pb_handler)` never raises and gives the failure text exactly when no body came back |
| Exchange.NbuExchange | main.py:113 | `get_exchange(url, nbu_handler)` gives the failure text iff there is no body or the array is empty; it raises only on a non-empty array that `nbu_handler` rejects, with that exception; a non-empty array that `nbu_handler` accepts gives `nbu_handler`'s dictionary |
| Exchange.PbExchangeOutcome | main.py:94-96 | for the commercial bank, failure text iff no body, else `pb_handler`'s dictionary |
| Exchange.NbuExchangeOutcome | main_ProcessPool.py:96-98 | an empty national-bank array gives the failure text and never reaches `nbu_handler`; an exception happens iff the body is a non-empty array that `nbu_handler` rejects; a non-empty array it accepts gives its dictionary |
| Exchange.GetPbExchange | main.py:92-96 | `get_exchange(url, pb_handler)` with the handler run as a method agrees with `PbExchange`, and fails exactly when no body came back |
| Exchange.Collect | main.py:108-114 | one outcome per URL in URL order; it succeeds iff no call raises, and otherwise fails with the exception of the first URL that raises |
| Exchange.FetchUrlsWithExecutor | main_ProcessPool.py:101-106 | the gathered list has one entry per URL, and entry k is the outcome for `urls[k]`; it raises iff some task raises |
| Exchange.ExecutorMatchesSequential | main_ProcessPool.py:101-106 | the gathered collection returns the same list as the sequential loop; when some task raises, both raise, and with the lowest-index choice of `FetchUrlsWithExecutor` it is the same exception |
| Exchange.PbRunNeverRaises | main.py:108-110 | with `fetch` returning a body or `None`, collecting commercial-bank outcomes never raises |
| Exchange.RunPb | main.py:108-110 | the loop appends `get_exchange(url, pb_handler)` for each URL in order; entry k is the failure text exactly when URL k gave no body |
| Exchange.RunNbu | main.py:112-114 | the loop collects `get_exchange(url, nbu_handler)` in URL order and stops at the first exception |
| Exchange.RunMain | main.py:99-114 | both lists are the collections over the ten URLs built from today; an exception from `nbu_handler` ends the run |
| Exchange.RunProcessPoolMain | main_ProcessPool.py:109-116 | the process-pool entry point returns the same lists as `main.py`, or raises when `main.py` raises; the exception is the same one under the lowest-index choice of `FetchUrlsWithExecutor` |
| Scenarios.PbBothCurrencies | main.py:24-53 | one USD and one EUR element are copied into their quotes under the response's date |
| Scenarios.PbMissingEuro | main.py:26-34 | with no EUR element, the EUR fields are `None` and nothing is raised |
| Scenarios.PbDuplicateDollar | main_ProcessPool.py:38-41 | with two USD elements, the later one's rates are kept |
| Scenarios.NbuBothCurrencies | main.py:56-71 | the USD element's date keys both rates, even when EUR's date differs |
| Scenarios.NbuDuplicateDollar | main.py:57 | two USD elements raise "too many values" before EUR is looked at |

## Left out

- `request` (main.py:11-22) is not modelled. It is aiohttp session and GET I/O. It returns the parsed body when `resp.ok` holds (status below 400), and it logs and returns `None` on an error status or a `ClientConnectorError`. Only that result is modelled: the parsed body, or `None`. This result is the `fetch` parameter.
- Exceptions escaping `request` are not modelled. Only `ClientConnectorError` is caught (main.py:20). A timeout (`ServerTimeoutError`), a server disconnect, or a `resp.json()` failure on a non-JSON 2xx body passes through `request` and `get_exchange` and ends either bank's run. `Exchange.PbRunNeverRaises` therefore holds only for a `fetch` that returns a body or `None`.
- Logging is left out because it is a side effect with no effect on the results.
- `asyncio.run`, the event loop, `asyncio.gather`, and the `ProcessPoolExecutor` are left out. The executor is created but never runs anything. Only the results these produce are modelled.
- Exchange.ExecutorMatchesSequential: the exception is the same only because the model picks the lowest-index one. Suppose national-bank URL 2 raises `TooManyValues("USD")`, URL 5 raises `NotEnoughValues("USD")`, and URL 5's response arrives first. Then `gather` (main_ProcessPool.py:105) raises URL 5's error, while main.py:113 raises URL 2's.
- Exchange.RunProcessPoolMain: for the same reason, the process-pool run can raise a different `ValueError` from `main.py`'s when several national-bank URLs raise. Both runs still raise in exactly the same cases.
- Exchange.FetchUrlsWithExecutor: when several tasks raise, `gather` re-raises the exception of whichever task raised first in time. The model reports the exception of the lowest URL index instead, because completion order is not modelled.
- `datetime.today()` and `time()` read the clock. The reference date is a parameter instead. The elapsed time and all `print` output are left out.
- The time-of-day part of `today` is left out because neither date pattern prints it.
- Urls.ApiPb, Urls.ApiNbu: the reference date must lie in years 1000-9999 and at least nine days after 1000-01-01. `%Y` output for years below 1000 depends on the platform. Python itself would accept dates down to 0001-01-10.
- Rates are an opaque type and are only copied. Floating point is therefore not modelled.
- The JSON bodies are typed records with every field present. The `KeyError` from a missing key is left out, and so are extra fields.
- Exchange.PbTruthy: a commercial-bank body always holds its two keys, so it is always truthy. The model cannot express an empty dictionary body, which Python would treat as failure.
- `fetch` is a function of the URL. The two lists never repeat a URL (Urls.RequestedDatesDistinct), so this loses nothing.
