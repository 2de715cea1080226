/** `Project.fetch_details`: open a details page, retrying when the request
    times out. The network is an oracle: the k-th request ever made answers
    `answer(url, k)`, so a retry may be answered differently. */
module Fetch {
  import opened RubyText
  import opened Extract

  /** What one `Nokogiri::HTML(open(url))` gives: a parsed page, or
      `Timeout::Error`. */
  datatype Response = TimedOut | Served(page: Page)

  /** `retry if retries < 3`: three attempts in all. */
  const MaxAttempts: nat := 3

  /** The outcome of a fetch: the page, or nil once every attempt timed out,
      and how many requests it made. */
  datatype Fetched = Fetched(page: Option<Page>, attempts: nat)

  /** The same url, requested n times. */
  function Repeat(url: string, n: nat): (r: seq<string>)
    ensures |r| == n && forall i :: 0 <= i < n ==> r[i] == url
  {
    if n == 0 then [] else Repeat(url, n - 1) + [url]
  }

  /** Request number n for url times out. */
  predicate TimesOut(answer: (string, nat) -> Response, url: string, n: nat)
  {
    answer(url, n).TimedOut?
  }

  /** The fetch from its attempt number `tries` on, the first request of the
      fetch being request number `start` of the network. */
  function FetchFrom(answer: (string, nat) -> Response, url: string, start: nat, tries: nat): (r: Fetched)
    requires tries < MaxAttempts
    decreases MaxAttempts - tries
    ensures tries < r.attempts <= MaxAttempts
  {
    match answer(url, start + tries)
    case Served(page) => Fetched(Some(page), tries + 1)
    case TimedOut =>
      if tries + 1 < MaxAttempts then FetchFrom(answer, url, start, tries + 1)
      else Fetched(None, MaxAttempts)
  }

  /** `fetch_details(url)`, starting at request number `start`. */
  function FetchPage(answer: (string, nat) -> Response, url: string, start: nat): (r: Fetched)
    ensures 1 <= r.attempts <= MaxAttempts
  {
    FetchFrom(answer, url, start, 0)
  }

  /** From attempt `tries` on, the fetch gives nil exactly when every
      remaining attempt times out, and then it has made all three. */
  lemma {:induction false} GivesUpFrom(answer: (string, nat) -> Response, url: string, start: nat, tries: nat)
    requires tries < MaxAttempts
    ensures FetchFrom(answer, url, start, tries).page.None?
      <==> forall n :: start + tries <= n < start + MaxAttempts ==> TimesOut(answer, url, n)
    ensures FetchFrom(answer, url, start, tries).page.None? ==> FetchFrom(answer, url, start, tries).attempts == MaxAttempts
    decreases MaxAttempts - tries
  {
    if !TimesOut(answer, url, start + tries) {
    } else if tries + 1 < MaxAttempts {
      GivesUpFrom(answer, url, start, tries + 1);
    }
  }

  /** `fetch_details` returns nil exactly when all three attempts time out. */
  lemma GivesUp(answer: (string, nat) -> Response, url: string, start: nat)
    ensures FetchPage(answer, url, start).page.None?
      <==> forall n :: start <= n < start + MaxAttempts ==> TimesOut(answer, url, n)
    ensures FetchPage(answer, url, start).page.None? ==> FetchPage(answer, url, start).attempts == MaxAttempts
  {
    GivesUpFrom(answer, url, start, 0);
  }

  /** A page the fetch returns is the answer to its last request, and every
      earlier request of the fetch timed out. */
  lemma {:induction false} ServedFrom(answer: (string, nat) -> Response, url: string, start: nat, tries: nat)
    requires tries < MaxAttempts
    requires FetchFrom(answer, url, start, tries).page.Some?
    ensures var f := FetchFrom(answer, url, start, tries);
      answer(url, start + f.attempts - 1) == Served(f.page.value)
      && forall n :: start + tries <= n < start + f.attempts - 1 ==> TimesOut(answer, url, n)
    decreases MaxAttempts - tries
  {
    if answer(url, start + tries).TimedOut? {
      ServedFrom(answer, url, start, tries + 1);
    }
  }

  /** The first request that is served ends the fetch with that page. */
  lemma ServedPage(answer: (string, nat) -> Response, url: string, start: nat)
    requires FetchPage(answer, url, start).page.Some?
    ensures var f := FetchPage(answer, url, start);
      answer(url, start + f.attempts - 1) == Served(f.page.value)
      && forall n :: start <= n < start + f.attempts - 1 ==> TimesOut(answer, url, n)
  {
    ServedFrom(answer, url, start, 0);
  }

  /** The network: its answers, and the log of requests made so far. */
  class Network {
    const answer: (string, nat) -> Response
    var requests: seq<string>

    constructor (answer: (string, nat) -> Response)
      ensures this.answer == answer && requests == []
    {
      this.answer := answer;
      requests := [];
    }

    /** `Nokogiri::HTML(open(url))`: one request, logged. */
    method Open(url: string) returns (r: Response)
      modifies this
      ensures requests == old(requests) + [url]
      ensures r == answer(url, |old(requests)|)
    {
      r := answer(url, |requests|);
      requests := requests + [url];
    }
  }

  /** `Project.fetch_details(url)`: request the page until it is served, at
      most three times; nil when every attempt timed out. */
  method FetchDetails(net: Network, url: string) returns (page: Option<Page>)
    modifies net
    ensures var f := FetchPage(net.answer, url, |old(net.requests)|);
      page == f.page && net.requests == old(net.requests) + Repeat(url, f.attempts)
  {
    var retries := 0;
    while true
      invariant 0 <= retries < MaxAttempts
      invariant net.requests == old(net.requests) + Repeat(url, retries)
      invariant FetchPage(net.answer, url, |old(net.requests)|) == FetchFrom(net.answer, url, |old(net.requests)|, retries)
      decreases MaxAttempts - retries
    {
      var response := net.Open(url);
      if response.Served? {
        return Some(response.page);
      }
      retries := retries + 1;
      if retries >= MaxAttempts {
        return None;
      }
    }
  }
}
