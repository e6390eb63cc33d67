/**
 * The URL builders `api_pb` and `api_nbu`: ten request URLs, one per day
 * from the reference date back nine days, most recent first. The
 * reference date is a parameter here, where the program reads the clock
 * once at start-up into a module-level `today`.
 */
module Urls {
  import opened Results
  import opened Calendar
  import opened DateFormat

  /** How many days of history each builder asks for (`range(10)`). */
  const DaysRequested: nat := 10

  const PbPrefix: string := "https://api.privatbank.ua/p24api/exchange_rates?json&date="
  const NbuPrefix: string := "https://bank.gov.ua/NBUStatService/v1/statdirectory/exchange?date="
  const NbuSuffix: string := "&json"

  /** The date a commercial-bank URL asks for, if it is one. */
  function ParsePbUrl(u: string): Option<Date> {
    if |PbPrefix| <= |u| && u[..|PbPrefix|] == PbPrefix then ParseDmy(u[|PbPrefix|..]) else None
  }

  /** The date a national-bank URL asks for, if it is one. */
  function ParseNbuUrl(u: string): Option<Date> {
    if |NbuPrefix| + |NbuSuffix| <= |u| && u[..|NbuPrefix|] == NbuPrefix
       && u[|u| - |NbuSuffix|..] == NbuSuffix
    then ParseYmd(u[|NbuPrefix|..|u| - |NbuSuffix|])
    else None
  }

  /** The commercial-bank URL for one date; the date can be read back from it. */
  function PbUrl(d: Date): (u: string)
    requires Valid(d)
    ensures ParsePbUrl(u) == Some(d)
  {
    var u := PbPrefix + FormatDmy(d);
    assert u[..|PbPrefix|] == PbPrefix && u[|PbPrefix|..] == FormatDmy(d);
    DmyRoundTrip(d);
    u
  }

  /** The national-bank URL for one date; the date can be read back from it. */
  function NbuUrl(d: Date): (u: string)
    requires Valid(d)
    ensures ParseNbuUrl(u) == Some(d)
  {
    var u := NbuPrefix + FormatYmd(d) + NbuSuffix;
    assert u[..|NbuPrefix|] == NbuPrefix;
    assert u[|u| - |NbuSuffix|..] == NbuSuffix;
    assert u[|NbuPrefix|..|u| - |NbuSuffix|] == FormatYmd(d);
    YmdRoundTrip(d);
    u
  }

  /** Extending a prefix by the next element gives the next prefix. */
  lemma PrefixExtend<T>(s: seq<T>, i: nat)
    requires i < |s|
    ensures s[..i + 1] == s[..i] + [s[i]]
  {
  }

  /** A reference date with nine earlier days inside the covered years. */
  predicate HasHistory(today: Date) {
    Valid(today) && DaysRequested - 1 <= DayNumber(today) - DayNumber(Earliest)
  }

  /** The commercial-bank URLs for the ten days ending at `today`, most recent first. */
  function PbUrls(today: Date): seq<string>
    requires HasHistory(today)
  {
    seq(DaysRequested, i requires 0 <= i < DaysRequested => PbUrl(SubtractDays(today, i)))
  }

  /** The national-bank URLs for the ten days ending at `today`, most recent first. */
  function NbuUrls(today: Date): seq<string>
    requires HasHistory(today)
  {
    seq(DaysRequested, i requires 0 <= i < DaysRequested => NbuUrl(SubtractDays(today, i)))
  }

  /**
   * `api_pb`: ten URLs; URL i asks for `today - i days` as `DD.MM.YYYY`,
   * i.e. for the date whose ordinal is i less than today's.
   */
  method ApiPb(today: Date) returns (urls: seq<string>)
    requires HasHistory(today)
    ensures |urls| == DaysRequested
    ensures urls == PbUrls(today)
    ensures forall i | 0 <= i < |urls| :: ParsePbUrl(urls[i]) == Some(SubtractDays(today, i))
  {
    ghost var all := PbUrls(today);
    urls := [];
    for i := 0 to DaysRequested
      invariant urls == all[..i]
    {
      var date := SubtractDays(today, i);
      var url := PbPrefix + FormatDmy(date);
      assert url == all[i];
      PrefixExtend(all, i);
      urls := urls + [url];
    }
  }

  /**
   * `api_nbu`: ten URLs; URL i asks for `today - i days` as `YYYYMMDD`.
   */
  method ApiNbu(today: Date) returns (urls: seq<string>)
    requires HasHistory(today)
    ensures |urls| == DaysRequested
    ensures urls == NbuUrls(today)
    ensures forall i | 0 <= i < |urls| :: ParseNbuUrl(urls[i]) == Some(SubtractDays(today, i))
  {
    ghost var all := NbuUrls(today);
    urls := [];
    for i := 0 to DaysRequested
      invariant urls == all[..i]
    {
      var date := SubtractDays(today, i);
      var url := NbuPrefix + FormatYmd(date) + NbuSuffix;
      assert url == all[i];
      PrefixExtend(all, i);
      urls := urls + [url];
    }
  }

  /**
   * The dates the builders ask for, in URL order: consecutive URLs are
   * exactly one calendar day apart and strictly decreasing, both as dates
   * and as the eight-digit `YYYYMMDD` numbers the national bank receives.
   */
  lemma RequestedDatesDecrease(today: Date, i: nat)
    requires HasHistory(today) && i + 1 < DaysRequested
    ensures SubtractDays(today, i + 1) == PrevDay(SubtractDays(today, i))
    ensures DayNumber(SubtractDays(today, i + 1)) == DayNumber(SubtractDays(today, i)) - 1
    ensures Before(SubtractDays(today, i + 1), SubtractDays(today, i))
    ensures ParseDecimal(FormatYmd(SubtractDays(today, i + 1)))
            < ParseDecimal(FormatYmd(SubtractDays(today, i)))
  {
    var b := SubtractDays(today, i);
    assert SubtractDays(today, i + 1) == PrevDay(b);
    YmdValueOrdered(PrevDay(b), b);
  }

  /** No two of the ten URLs ask for the same date. */
  lemma RequestedDatesDistinct(today: Date, i: nat, j: nat)
    requires HasHistory(today) && i < j < DaysRequested
    ensures PbUrl(SubtractDays(today, i)) != PbUrl(SubtractDays(today, j))
    ensures NbuUrl(SubtractDays(today, i)) != NbuUrl(SubtractDays(today, j))
  {
    var a, b := SubtractDays(today, i), SubtractDays(today, j);
    assert ParsePbUrl(PbUrl(a)) != ParsePbUrl(PbUrl(b));
    assert ParseNbuUrl(NbuUrl(a)) != ParseNbuUrl(NbuUrl(b));
  }
}
