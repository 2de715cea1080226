/** What the accessors of `Kickstarter::Project` compute, and how their
    memo fields (`@id ||= ...`) and the lazily fetched details page evolve,
    as functions from a record state to an outcome and a new state. The
    class in module Kickstarter is proved to follow these functions. */
module Record {
  import opened RubyText
  import opened Deadline
  import opened Extract
  import opened Fetch
  import opened Tiers

  /** The argument given to `Project.new`. */
  datatype Arg = Text(text: string) | Element(node: ListingNode) | Other

  /** A project built from a seed URL (only its details page is known) or
      from a node of a listing page. */
  datatype Source = Seed(seedUrl: string) | Listing(node: ListingNode)

  /** `initialize`: a String is a seed URL, a node a listing node, and
      anything else raises TypeError. */
  function SourceOf(arg: Arg): (r: Result<Source>)
    ensures r.Err? <==> arg.Other?
    ensures r.Err? ==> r.failure == TypeError
    ensures r.Ok? ==> (r.value.Seed? <==> arg.Text?)
    ensures r.Ok? && r.value.Seed? ==> r.value.seedUrl == arg.text
    ensures r.Ok? && r.value.Listing? ==> r.value.node == arg.node
  {
    match arg
    case Text(url) => Ok(Seed(url))
    case Element(node) => Ok(Listing(node))
    case Other => Err(TypeError)
  }

  /** The instance variables a record fills in lazily; None is nil. */
  datatype Memo = Memo(
    id: Option<int>,
    name: Option<string>,
    description: Option<string>,
    url: Option<string>,
    handle: Option<string>,
    owner: Option<string>,
    imageUrl: Option<string>,
    amount: Option<Number>,
    percent: Option<Number>,
    deadline: Option<Deadline>,
    page: Option<Page>,
    goal: Option<Number>,
    endTime: Option<int>,
    shortUrl: Option<string>,
    about: Option<string>)

  /** A new record: every instance variable nil. */
  const NoMemo: Memo := Memo(None, None, None, None, None, None, None, None, None, None, None, None, None, None, None)

  /** The memo fields, and the requests the network has received. */
  datatype State = State(memo: Memo, requests: seq<string>)

  /** What does not change: how the record was built, the site's base URL
      (`Kickstarter::BASE_URL`) and the network's answers. */
  datatype Env = Env(source: Source, baseUrl: string, answer: (string, nat) -> Response)

  /** An accessor's outcome (its value or the exception it raises) and the
      state it leaves. */
  datatype Out<T> = Out(result: Result<T>, state: State)

  /** A call fetches the details page at most once (at most three
      requests), fetches nothing once the page is held, never drops a held
      page, and a call that fetched and did not raise leaves the page held. */
  predicate FetchBound(s: State, t: State, raised: bool)
  {
    s.requests <= t.requests
    && |t.requests| <= |s.requests| + MaxAttempts
    && (s.memo.page.Some? ==> t.requests == s.requests && t.memo.page == s.memo.page)
    && (t.requests == s.requests || raised || t.memo.page.Some?)
  }

  predicate AtMostOneFetch<T>(s: State, o: Out<T>)
  {
    FetchBound(s, o.state, o.result.Err?)
  }

  /** A call that fetched without raising leaves the page held, so the
      calls after it fetch nothing more. */
  lemma FetchBoundTrans(s: State, t: State, u: State, raised: bool)
    requires FetchBound(s, t, false) && FetchBound(t, u, raised)
    ensures FetchBound(s, u, raised)
  {
  }

  // ------------------------------------------------ fresh values of fields

  /** The exception a page-only field raises when no page is held: the one
      the URL of a listing node raises, or nil's NoMethodError. */
  function Missing(env: Env): (f: Failure)
    ensures f == NoMethodError || (env.source.Listing? && NodeUrl(env.baseUrl, env.source.node) == Err(f))
  {
    match env.source
    case Listing(node) => if NodeUrl(env.baseUrl, node).Err? then NodeUrl(env.baseUrl, node).failure else NoMethodError
    case Seed(_) => NoMethodError
  }

  function IdValue(env: Env, page: Option<Page>): (r: Result<int>)
    ensures env.source.Listing? ==> r == NodeId(env.source.node)
    ensures env.source.Seed? ==> (r.Err? <==> page.None?) && (r.Err? ==> r.failure == NoMethodError)
  {
    match env.source
    case Listing(node) => NodeId(node)
    case Seed(_) => if page.None? then Err(NoMethodError) else Ok(PageId(page.value))
  }

  function NameValue(env: Env, page: Option<Page>): (r: Result<string>)
    ensures env.source.Listing? ==> r == NodeName(env.source.node)
    ensures env.source.Seed? ==> (r.Err? <==> page.None?) && (r.Err? ==> r.failure == NoMethodError)
  {
    match env.source
    case Listing(node) => NodeName(node)
    case Seed(_) => if page.None? then Err(NoMethodError) else Ok(page.value.title)
  }

  function DescriptionValue(env: Env): (r: Option<string>)
    ensures r.Some? <==> env.source.Listing?
  {
    match env.source
    case Listing(node) => Some(node.blurb)
    case Seed(_) => None
  }

  function UrlValue(env: Env, page: Option<Page>): (r: Result<string>)
    ensures env.source.Listing? ==> r == NodeUrl(env.baseUrl, env.source.node)
    ensures env.source.Seed? && page.None? ==> r == Err(NoMethodError)
    ensures env.source.Seed? && page.Some? ==> (r.Ok? <==> page.value.titleHref.Some?)
  {
    match env.source
    case Listing(node) => NodeUrl(env.baseUrl, node)
    case Seed(_) => if page.None? then Err(NoMethodError) else AttrValue(page.value.titleHref)
  }

  function HandleValue(env: Env, page: Option<Page>): (r: Result<string>)
    ensures UrlValue(env, page).Err? ==> r == Err(UrlValue(env, page).failure)
    ensures UrlValue(env, page).Ok? ==> r == HandleOf(UrlValue(env, page).value)
  {
    match UrlValue(env, page)
    case Err(e) => Err(e)
    case Ok(url) => HandleOf(url)
  }

  function OwnerValue(env: Env, page: Option<Page>): (r: Result<string>)
    ensures env.source.Listing? ==> r == NodeOwner(env.source.node)
    ensures env.source.Seed? ==> (r.Err? <==> page.None?) && (r.Err? ==> r.failure == NoMethodError)
  {
    match env.source
    case Listing(node) => NodeOwner(node)
    case Seed(_) => if page.None? then Err(NoMethodError) else Ok(page.value.creator)
  }

  function ImageValue(env: Env, page: Option<Page>): (r: Result<string>)
    ensures env.source.Listing? ==> r == NodeImage(env.source.node)
    ensures env.source.Seed? && page.None? ==> r == Err(NoMethodError)
    ensures env.source.Seed? && page.Some? ==> (r.Ok? <==> page.value.videoImage.Some?)
  {
    match env.source
    case Listing(node) => NodeImage(node)
    case Seed(_) => if page.None? then Err(NoMethodError) else AttrValue(page.value.videoImage)
  }

  function AmountValue(env: Env, page: Option<Page>): (r: Result<Number>)
    ensures env.source.Listing? ==> (r.Ok? <==> NodeAmount(env.source.node).Ok?)
    ensures env.source.Listing? && r.Ok? ==> r.value == Whole(NodeAmount(env.source.node).value)
    ensures env.source.Seed? && page.None? ==> r == Err(NoMethodError)
    ensures env.source.Seed? && page.Some? ==> (r.Ok? <==> page.value.pledged.Some?)
  {
    match env.source
    case Listing(node) => if NodeAmount(node).Err? then Err(NodeAmount(node).failure) else Ok(Whole(NodeAmount(node).value))
    case Seed(_) => if page.None? then Err(NoMethodError) else FloatAttr(page.value.pledged)
  }

  function PercentValue(env: Env, page: Option<Page>): (r: Result<Number>)
    ensures env.source.Listing? ==> r == Ok(Whole(NodePercent(env.source.node)))
    ensures env.source.Seed? && page.None? ==> r == Err(NoMethodError)
    ensures env.source.Seed? && page.Some? ==> (r.Ok? <==> page.value.percentRaised.Some?)
  {
    match env.source
    case Listing(node) => Ok(Whole(NodePercent(node)))
    case Seed(_) => if page.None? then Err(NoMethodError) else FloatAttr(page.value.percentRaised)
  }

  function GoalValue(env: Env, page: Option<Page>): (r: Result<Number>)
    ensures page.None? ==> r == Err(Missing(env))
    ensures page.Some? ==> (r.Ok? <==> page.value.goal.Some?)
  {
    if page.None? then Err(Missing(env)) else FloatAttr(page.value.goal)
  }

  function EndTimeValue(env: Env, page: Option<Page>): (r: Result<int>)
    ensures page.None? ==> r == Err(Missing(env))
    ensures page.Some? ==> (r.Ok? <==> page.value.endTime.Some?)
  {
    if page.None? then Err(Missing(env)) else PageEndTime(page.value)
  }

  function ShortUrlValue(env: Env, page: Option<Page>): (r: Result<string>)
    ensures page.None? ==> r == Err(Missing(env))
    ensures page.Some? ==> (r.Ok? <==> page.value.shortUrl.Some?)
  {
    if page.None? then Err(Missing(env)) else AttrValue(page.value.shortUrl)
  }

  function AboutValue(env: Env, page: Option<Page>): (r: Result<string>)
    ensures page.None? ==> r == Err(Missing(env))
    ensures r.Ok? <==> page.Some?
  {
    if page.None? then Err(Missing(env)) else Ok(page.value.about)
  }

  /** `exact_pledge_deadline.to_date`, the deadline of a seeded record. */
  function SeedDeadlineValue(env: Env, page: Option<Page>): (r: Result<Option<Deadline>>)
    ensures r.Err? <==> EndTimeValue(env, page).Err?
    ensures r.Ok? ==> r.value.Some? && r.value.value.OnDay?
  {
    match EndTimeValue(env, page)
    case Err(e) => Err(e)
    case Ok(t) => Ok(Some(DateOf(t)))
  }

  /** Every memo field that is set holds what the accessor computes afresh
      from the held page (the deadline of a listing node depends on the
      clock, and is not constrained). */
  predicate Consistent(env: Env, m: Memo)
  {
    (m.id.Some? ==> IdValue(env, m.page) == Ok(m.id.value))
    && (m.name.Some? ==> NameValue(env, m.page) == Ok(m.name.value))
    && (m.description.Some? ==> DescriptionValue(env) == m.description)
    && (m.url.Some? ==> UrlValue(env, m.page) == Ok(m.url.value))
    && (m.handle.Some? ==> HandleValue(env, m.page) == Ok(m.handle.value))
    && (m.owner.Some? ==> OwnerValue(env, m.page) == Ok(m.owner.value))
    && (m.imageUrl.Some? ==> ImageValue(env, m.page) == Ok(m.imageUrl.value))
    && (m.amount.Some? ==> AmountValue(env, m.page) == Ok(m.amount.value))
    && (m.percent.Some? ==> PercentValue(env, m.page) == Ok(m.percent.value))
    && (m.goal.Some? ==> GoalValue(env, m.page) == Ok(m.goal.value))
    && (m.endTime.Some? ==> EndTimeValue(env, m.page) == Ok(m.endTime.value))
    && (m.shortUrl.Some? ==> ShortUrlValue(env, m.page) == Ok(m.shortUrl.value))
    && (m.about.Some? ==> AboutValue(env, m.page) == Ok(m.about.value))
    && (env.source.Seed? && m.deadline.Some? ==> SeedDeadlineValue(env, m.page) == Ok(m.deadline))
  }

  // ----------------------------------------------------------------- steps

  /** `url` of a listing node, memoised; it needs no page. */
  function ListingUrlStep(env: Env, s: State): (o: Out<string>)
    requires env.source.Listing?
    ensures o.state.requests == s.requests
    ensures o.state.memo == s.memo.(url := o.state.memo.url)
    ensures o.result.Err? ==> o.result == NodeUrl(env.baseUrl, env.source.node)
  {
    if s.memo.url.Some? then Out(Ok(s.memo.url.value), s)
    else
      var r := NodeUrl(env.baseUrl, env.source.node);
      Out(r, if r.Ok? then s.(memo := s.memo.(url := Some(r.value))) else s)
  }

  /** `details_page`: the held page, or else `fetch_details` of the seed URL
      (seeded) or of `url` (listing node). `||=` keeps a page once fetched,
      but a nil one is fetched again on the next call. */
  function PageStep(env: Env, s: State): (o: Out<Option<Page>>)
    ensures s.requests <= o.state.requests && |o.state.requests| <= |s.requests| + MaxAttempts
    ensures s.memo.page.Some? ==> o == Out(Ok(s.memo.page), s)
    ensures o.result.Ok? ==> o.state.memo.page == o.result.value
    ensures o.result.Err? ==> o.result == Err(Missing(env)) && env.source.Listing? && o.state.requests == s.requests
    ensures o.state.memo == s.memo.(page := o.state.memo.page, url := o.state.memo.url)
  {
    if s.memo.page.Some? then Out(Ok(s.memo.page), s)
    else
      var u := if env.source.Seed? then Out(Ok(env.source.seedUrl), s) else ListingUrlStep(env, s);
      if u.result.Err? then Out(Err(u.result.failure), u.state)
      else
        var f := FetchPage(env.answer, u.result.value, |u.state.requests|);
        Out(Ok(f.page), State(u.state.memo.(page := f.page), u.state.requests + Repeat(u.result.value, f.attempts)))
  }

  /** `details_page` where the caller goes on to query it: nil raises
      NoMethodError. */
  function NeedPageStep(env: Env, s: State): (o: Out<Page>)
    ensures AtMostOneFetch(s, o)
    ensures o.result.Ok? ==> o.state.memo.page == Some(o.result.value)
    ensures o.result.Err? ==> o.state.memo.page.None?
    ensures o.state.memo == s.memo.(page := o.state.memo.page, url := o.state.memo.url)
  {
    var p := PageStep(env, s);
    match p.result
    case Err(e) => Out(Err(e), p.state)
    case Ok(None) => Out(Err(NoMethodError), p.state)
    case Ok(Some(page)) => Out(Ok(page), p.state)
  }

  /** The state a field of a seeded record is read in: the page fetched
      first if need be. A listing node's own fields need no page. */
  function Prepared(env: Env, s: State): (t: State)
    ensures env.source.Listing? ==> t == s
  {
    if env.source.Listing? then s else NeedPageStep(env, s).state
  }

  /** `id`, memoised. */
  function IdStep(env: Env, s: State): (o: Out<int>)
    ensures AtMostOneFetch(s, o)
    ensures env.source.Listing? ==> o.state.requests == s.requests
  {
    if s.memo.id.Some? then Out(Ok(s.memo.id.value), s)
    else
      var t := Prepared(env, s);
      var r := IdValue(env, t.memo.page);
      Out(r, if r.Ok? then t.(memo := t.memo.(id := Some(r.value))) else t)
  }

  /** `name`, memoised. */
  function NameStep(env: Env, s: State): (o: Out<string>)
    ensures AtMostOneFetch(s, o)
    ensures env.source.Listing? ==> o.state.requests == s.requests
  {
    if s.memo.name.Some? then Out(Ok(s.memo.name.value), s)
    else
      var t := Prepared(env, s);
      var r := NameValue(env, t.memo.page);
      Out(r, if r.Ok? then t.(memo := t.memo.(name := Some(r.value))) else t)
  }

  /** `description`, memoised: a listing node's blurb, nil for a seeded
      record (and nil is not memoised). */
  function DescriptionStep(env: Env, s: State): (o: Out<Option<string>>)
    ensures o.result.Ok? && o.state.requests == s.requests && o.state.memo.page == s.memo.page
  {
    if s.memo.description.Some? then Out(Ok(s.memo.description), s)
    else
      var r := DescriptionValue(env);
      Out(Ok(r), if r.Some? then s.(memo := s.memo.(description := r)) else s)
  }

  /** `url`, memoised: a listing node's link joined to the base URL, or the title link of the details page. */
  function UrlStep(env: Env, s: State): (o: Out<string>)
    ensures AtMostOneFetch(s, o)
    ensures env.source.Listing? ==> o.state.requests == s.requests
  {
    if s.memo.url.Some? then Out(Ok(s.memo.url.value), s)
    else
      var t := Prepared(env, s);
      var r := UrlValue(env, t.memo.page);
      Out(r, if r.Ok? then t.(memo := t.memo.(url := Some(r.value))) else t)
  }

  /** `handle`, memoised: computed from `url`. */
  function HandleStep(env: Env, s: State): (o: Out<string>)
    ensures AtMostOneFetch(s, o)
    ensures env.source.Listing? ==> o.state.requests == s.requests
  {
    if s.memo.handle.Some? then Out(Ok(s.memo.handle.value), s)
    else
      var u := UrlStep(env, s);
      var r := if u.result.Err? then Err(u.result.failure) else HandleOf(u.result.value);
      Out(r, if r.Ok? then u.state.(memo := u.state.memo.(handle := Some(r.value))) else u.state)
  }

  /** `owner`, memoised. */
  function OwnerStep(env: Env, s: State): (o: Out<string>)
    ensures AtMostOneFetch(s, o)
    ensures env.source.Listing? ==> o.state.requests == s.requests
  {
    if s.memo.owner.Some? then Out(Ok(s.memo.owner.value), s)
    else
      var t := Prepared(env, s);
      var r := OwnerValue(env, t.memo.page);
      Out(r, if r.Ok? then t.(memo := t.memo.(owner := Some(r.value))) else t)
  }

  /** `image_url`, memoised. */
  function ImageStep(env: Env, s: State): (o: Out<string>)
    ensures AtMostOneFetch(s, o)
    ensures env.source.Listing? ==> o.state.requests == s.requests
  {
    if s.memo.imageUrl.Some? then Out(Ok(s.memo.imageUrl.value), s)
    else
      var t := Prepared(env, s);
      var r := ImageValue(env, t.memo.page);
      Out(r, if r.Ok? then t.(memo := t.memo.(imageUrl := Some(r.value))) else t)
  }

  /** `pledge_amount`, memoised. */
  function AmountStep(env: Env, s: State): (o: Out<Number>)
    ensures AtMostOneFetch(s, o)
    ensures env.source.Listing? ==> o.state.requests == s.requests
  {
    if s.memo.amount.Some? then Out(Ok(s.memo.amount.value), s)
    else
      var t := Prepared(env, s);
      var r := AmountValue(env, t.memo.page);
      Out(r, if r.Ok? then t.(memo := t.memo.(amount := Some(r.value))) else t)
  }

  /** `pledge_percent`, memoised. */
  function PercentStep(env: Env, s: State): (o: Out<Number>)
    ensures AtMostOneFetch(s, o)
    ensures env.source.Listing? ==> o.state.requests == s.requests
  {
    if s.memo.percent.Some? then Out(Ok(s.memo.percent.value), s)
    else
      var t := Prepared(env, s);
      var r := PercentValue(env, t.memo.page);
      Out(r, if r.Ok? then t.(memo := t.memo.(percent := Some(r.value))) else t)
  }

  /** `pledge_goal`, memoised; it reads the details page in either mode. */
  function GoalStep(env: Env, s: State): (o: Out<Number>)
    ensures AtMostOneFetch(s, o)
  {
    if s.memo.goal.Some? then Out(Ok(s.memo.goal.value), s)
    else
      var p := NeedPageStep(env, s);
      var r := if p.result.Err? then Err(p.result.failure) else FloatAttr(p.result.value.goal);
      Out(r, if r.Ok? then p.state.(memo := p.state.memo.(goal := Some(r.value))) else p.state)
  }

  /** `exact_pledge_deadline`, memoised. */
  function EndTimeStep(env: Env, s: State): (o: Out<int>)
    ensures AtMostOneFetch(s, o)
  {
    if s.memo.endTime.Some? then Out(Ok(s.memo.endTime.value), s)
    else
      var p := NeedPageStep(env, s);
      var r := if p.result.Err? then Err(p.result.failure) else PageEndTime(p.result.value);
      Out(r, if r.Ok? then p.state.(memo := p.state.memo.(endTime := Some(r.value))) else p.state)
  }

  /** `short_url`, memoised. */
  function ShortUrlStep(env: Env, s: State): (o: Out<string>)
    ensures AtMostOneFetch(s, o)
  {
    if s.memo.shortUrl.Some? then Out(Ok(s.memo.shortUrl.value), s)
    else
      var p := NeedPageStep(env, s);
      var r := if p.result.Err? then Err(p.result.failure) else AttrValue(p.result.value.shortUrl);
      Out(r, if r.Ok? then p.state.(memo := p.state.memo.(shortUrl := Some(r.value))) else p.state)
  }

  /** `about`, kept once read (the `@about.nil?` test). */
  function AboutStep(env: Env, s: State): (o: Out<string>)
    ensures AtMostOneFetch(s, o)
  {
    if s.memo.about.Some? then Out(Ok(s.memo.about.value), s)
    else
      var p := NeedPageStep(env, s);
      var r := if p.result.Err? then Err(p.result.failure) else Ok(p.result.value.about);
      Out(r, if r.Ok? then p.state.(memo := p.state.memo.(about := Some(r.value))) else p.state)
  }

  /** `pledge_deadline` at instant now, memoised only when not nil: a
      listing node's last stats item parsed, or the day of
      `exact_pledge_deadline` for a seeded record. */
  function DeadlineStep(env: Env, s: State, now: int): (o: Out<Option<Deadline>>)
    ensures AtMostOneFetch(s, o)
    ensures env.source.Listing? ==> o.state.requests == s.requests
    ensures env.source.Listing? ==> o.result == if s.memo.deadline.Some? then Ok(s.memo.deadline) else NodeDeadline(env.source.node, now)
  {
    if s.memo.deadline.Some? then Out(Ok(s.memo.deadline), s)
    else
      var o := match env.source
        case Listing(node) => Out(NodeDeadline(node, now), s)
        case Seed(_) =>
          var e := EndTimeStep(env, s);
          Out(if e.result.Err? then Err(e.result.failure) else Ok(Some(DateOf(e.result.value))), e.state);
      Out(o.result, if o.result.Ok? && o.result.value.Some? then o.state.(memo := o.state.memo.(deadline := o.result.value)) else o.state)
  }

  /** `tiers`, with `out` saying which tier builds time out: the retry loop
      over the reward elements of the details page. Not memoised. */
  function TiersStep(env: Env, s: State, out: (nat, nat) -> bool): (o: Out<seq<string>>)
    ensures AtMostOneFetch(s, o)
    ensures o.state.memo == s.memo.(page := o.state.memo.page, url := o.state.memo.url)
    ensures o.result.Ok? ==> o.state.memo.page.Some? && o.result.value == TierList(o.state.memo.page.value.rewards, out)
  {
    var p := NeedPageStep(env, s);
    Out(if p.result.Err? then Err(p.result.failure) else Ok(TierList(p.result.value.rewards, out)), p.state)
  }

  // --------------------------------------------------------------- to_hash

  /** The keys of the hash `to_hash` builds. */
  datatype Key =
    | KeyId | KeyName | KeyHandle | KeyUrl | KeyDescription | KeyOwner
    | KeyPledgeAmount | KeyPledgePercent | KeyPledgeDeadline | KeyImageUrl
    | KeyPledgeGoal | KeyExactPledgeDeadline | KeyShortUrl | KeyAbout | KeyTiers

  /** The values in it. A date or a time is kept as what `to_s` prints, and
      a tier as the reward element `Tier#to_hash` describes. */
  datatype Value =
    | IntValue(i: int)
    | TextValue(text: string)
    | NumberValue(number: Number)
    | NilValue
    | DateText(date: Option<Deadline>)
    | TimeText(instant: int)
    | TierValues(tiers: seq<string>)

  /** The ten keys every record reports. */
  const BaseKeys: set<Key> := {
    KeyId, KeyName, KeyHandle, KeyUrl, KeyDescription, KeyOwner,
    KeyPledgeAmount, KeyPledgePercent, KeyPledgeDeadline, KeyImageUrl}

  /** The five keys only a seeded record reports. */
  const ExtraKeys: set<Key> := {KeyPledgeGoal, KeyExactPledgeDeadline, KeyShortUrl, KeyAbout, KeyTiers}

  /** The first five accessors `to_hash` calls, in order; the first one
      that raises ends the call. */
  function IdentityStep(env: Env, s: State): (o: Out<map<Key, Value>>)
    ensures AtMostOneFetch(s, o)
    ensures env.source.Listing? ==> o.state.requests == s.requests
    ensures o.result.Ok? ==> o.result.value.Keys == {KeyId, KeyName, KeyHandle, KeyUrl, KeyDescription}
  {
    var id := IdStep(env, s);
    if id.result.Err? then Out(Err(id.result.failure), id.state) else
    var name := NameStep(env, id.state);
    FetchBoundTrans(s, id.state, name.state, name.result.Err?);
    if name.result.Err? then Out(Err(name.result.failure), name.state) else
    var handle := HandleStep(env, name.state);
    FetchBoundTrans(s, name.state, handle.state, handle.result.Err?);
    if handle.result.Err? then Out(Err(handle.result.failure), handle.state) else
    var url := UrlStep(env, handle.state);
    FetchBoundTrans(s, handle.state, url.state, url.result.Err?);
    if url.result.Err? then Out(Err(url.result.failure), url.state) else
    var description := DescriptionStep(env, url.state);
    FetchBoundTrans(s, url.state, description.state, false);
    var text := description.result.value;
    Out(Ok(map[
      KeyId := IntValue(id.result.value),
      KeyName := TextValue(name.result.value),
      KeyHandle := TextValue(handle.result.value),
      KeyUrl := TextValue(url.result.value),
      KeyDescription := if text.Some? then TextValue(text.value) else NilValue]), description.state)
  }

  /** The next five accessors `to_hash` calls, in order. */
  function PledgeStep(env: Env, s: State, now: int): (o: Out<map<Key, Value>>)
    ensures AtMostOneFetch(s, o)
    ensures env.source.Listing? ==> o.state.requests == s.requests
    ensures o.result.Ok? ==> o.result.value.Keys == {KeyOwner, KeyPledgeAmount, KeyPledgePercent, KeyPledgeDeadline, KeyImageUrl}
  {
    var owner := OwnerStep(env, s);
    if owner.result.Err? then Out(Err(owner.result.failure), owner.state) else
    var amount := AmountStep(env, owner.state);
    FetchBoundTrans(s, owner.state, amount.state, amount.result.Err?);
    if amount.result.Err? then Out(Err(amount.result.failure), amount.state) else
    var percent := PercentStep(env, amount.state);
    FetchBoundTrans(s, amount.state, percent.state, percent.result.Err?);
    if percent.result.Err? then Out(Err(percent.result.failure), percent.state) else
    var deadline := DeadlineStep(env, percent.state, now);
    FetchBoundTrans(s, percent.state, deadline.state, deadline.result.Err?);
    if deadline.result.Err? then Out(Err(deadline.result.failure), deadline.state) else
    var image := ImageStep(env, deadline.state);
    FetchBoundTrans(s, deadline.state, image.state, image.result.Err?);
    if image.result.Err? then Out(Err(image.result.failure), image.state) else
    Out(Ok(map[
      KeyOwner := TextValue(owner.result.value),
      KeyPledgeAmount := NumberValue(amount.result.value),
      KeyPledgePercent := NumberValue(percent.result.value),
      KeyPledgeDeadline := DateText(deadline.result.value),
      KeyImageUrl := TextValue(image.result.value)]), image.state)
  }

  /** The ten base values of `to_hash`. */
  function BaseStep(env: Env, s: State, now: int): (o: Out<map<Key, Value>>)
    ensures AtMostOneFetch(s, o)
    ensures env.source.Listing? ==> o.state.requests == s.requests
    ensures o.result.Ok? ==> o.result.value.Keys == BaseKeys
  {
    var first := IdentityStep(env, s);
    if first.result.Err? then first else
    var second := PledgeStep(env, first.state, now);
    FetchBoundTrans(s, first.state, second.state, second.result.Err?);
    if second.result.Err? then Out(Err(second.result.failure), second.state)
    else Out(Ok(first.result.value + second.result.value), second.state)
  }

  /** The second part of `to_hash`, for a seeded record: the five accessors
      that read the details page, in order. */
  function ExtraStep(env: Env, s: State, out: (nat, nat) -> bool): (o: Out<map<Key, Value>>)
    ensures AtMostOneFetch(s, o)
    ensures o.result.Ok? ==> o.result.value.Keys == ExtraKeys
  {
    var goal := GoalStep(env, s);
    if goal.result.Err? then Out(Err(goal.result.failure), goal.state) else
    var endTime := EndTimeStep(env, goal.state);
    FetchBoundTrans(s, goal.state, endTime.state, endTime.result.Err?);
    if endTime.result.Err? then Out(Err(endTime.result.failure), endTime.state) else
    var shortUrl := ShortUrlStep(env, endTime.state);
    FetchBoundTrans(s, endTime.state, shortUrl.state, shortUrl.result.Err?);
    if shortUrl.result.Err? then Out(Err(shortUrl.result.failure), shortUrl.state) else
    var about := AboutStep(env, shortUrl.state);
    FetchBoundTrans(s, shortUrl.state, about.state, about.result.Err?);
    if about.result.Err? then Out(Err(about.result.failure), about.state) else
    var tiers := TiersStep(env, about.state, out);
    FetchBoundTrans(s, about.state, tiers.state, tiers.result.Err?);
    if tiers.result.Err? then Out(Err(tiers.result.failure), tiers.state) else
    Out(Ok(map[
      KeyPledgeGoal := NumberValue(goal.result.value),
      KeyExactPledgeDeadline := TimeText(endTime.result.value),
      KeyShortUrl := TextValue(shortUrl.result.value),
      KeyAbout := TextValue(about.result.value),
      KeyTiers := TierValues(tiers.result.value)]), tiers.state)
  }

  /** `to_hash` at instant now, `out` saying which tier builds time out:
      the base values, merged with the extra ones when the record was
      seeded. */
  function ToHashStep(env: Env, s: State, now: int, out: (nat, nat) -> bool): (o: Out<map<Key, Value>>)
    ensures AtMostOneFetch(s, o)
    ensures env.source.Listing? ==> o.state.requests == s.requests
    ensures o.result.Ok? ==> o.result.value.Keys == BaseKeys + (if env.source.Seed? then ExtraKeys else {})
  {
    var base := BaseStep(env, s, now);
    if base.result.Err? || env.source.Listing? then base
    else
      var extra := ExtraStep(env, base.state, out);
      if extra.result.Err? then Out(Err(extra.result.failure), extra.state)
      else Out(Ok(base.result.value + extra.result.value), extra.state)
  }

  // ------------------------------------------------------------- memo facts
  //
  // A memo field that is set keeps what the accessor would compute afresh:
  // each accessor answers what its fresh computation gives on the page the
  // record holds afterwards, and leaves the memo Consistent.

  lemma KeepsId(env: Env, m: Memo, v: int)
    requires Consistent(env, m) && IdValue(env, m.page) == Ok(v)
    ensures Consistent(env, m.(id := Some(v)))
  {
  }

  lemma KeepsName(env: Env, m: Memo, v: string)
    requires Consistent(env, m) && NameValue(env, m.page) == Ok(v)
    ensures Consistent(env, m.(name := Some(v)))
  {
  }

  lemma KeepsUrl(env: Env, m: Memo, v: string)
    requires Consistent(env, m) && UrlValue(env, m.page) == Ok(v)
    ensures Consistent(env, m.(url := Some(v)))
  {
  }

  lemma KeepsHandle(env: Env, m: Memo, v: string)
    requires Consistent(env, m) && HandleValue(env, m.page) == Ok(v)
    ensures Consistent(env, m.(handle := Some(v)))
  {
  }

  lemma KeepsOwner(env: Env, m: Memo, v: string)
    requires Consistent(env, m) && OwnerValue(env, m.page) == Ok(v)
    ensures Consistent(env, m.(owner := Some(v)))
  {
  }

  lemma KeepsImage(env: Env, m: Memo, v: string)
    requires Consistent(env, m) && ImageValue(env, m.page) == Ok(v)
    ensures Consistent(env, m.(imageUrl := Some(v)))
  {
  }

  lemma KeepsAmount(env: Env, m: Memo, v: Number)
    requires Consistent(env, m) && AmountValue(env, m.page) == Ok(v)
    ensures Consistent(env, m.(amount := Some(v)))
  {
  }

  lemma KeepsPercent(env: Env, m: Memo, v: Number)
    requires Consistent(env, m) && PercentValue(env, m.page) == Ok(v)
    ensures Consistent(env, m.(percent := Some(v)))
  {
  }

  lemma KeepsGoal(env: Env, m: Memo, v: Number)
    requires Consistent(env, m) && GoalValue(env, m.page) == Ok(v)
    ensures Consistent(env, m.(goal := Some(v)))
  {
  }

  lemma KeepsEndTime(env: Env, m: Memo, v: int)
    requires Consistent(env, m) && EndTimeValue(env, m.page) == Ok(v)
    ensures Consistent(env, m.(endTime := Some(v)))
  {
  }

  lemma KeepsShortUrl(env: Env, m: Memo, v: string)
    requires Consistent(env, m) && ShortUrlValue(env, m.page) == Ok(v)
    ensures Consistent(env, m.(shortUrl := Some(v)))
  {
  }

  lemma KeepsAbout(env: Env, m: Memo, v: string)
    requires Consistent(env, m) && AboutValue(env, m.page) == Ok(v)
    ensures Consistent(env, m.(about := Some(v)))
  {
  }

  lemma KeepsDeadline(env: Env, m: Memo, d: Deadline)
    requires Consistent(env, m)
    requires env.source.Seed? ==> SeedDeadlineValue(env, m.page) == Ok(Some(d))
    ensures Consistent(env, m.(deadline := Some(d)))
  {
  }

  lemma ListingUrlMemo(env: Env, s: State)
    requires Consistent(env, s.memo) && env.source.Listing?
    ensures var o := ListingUrlStep(env, s);
      Consistent(env, o.state.memo) && o.result == UrlValue(env, o.state.memo.page)
  {
    var r := NodeUrl(env.baseUrl, env.source.node);
    if s.memo.url.None? && r.Ok? {
      KeepsUrl(env, s.memo, r.value);
    }
  }

  lemma PageMemo(env: Env, s: State)
    requires Consistent(env, s.memo)
    ensures Consistent(env, PageStep(env, s).state.memo)
  {
    if env.source.Listing? {
      ListingUrlMemo(env, s);
    }
  }

  lemma NeedPageMemo(env: Env, s: State)
    requires Consistent(env, s.memo)
    ensures var o := NeedPageStep(env, s);
      Consistent(env, o.state.memo) && (o.result.Err? ==> o.result == Err(Missing(env)))
  {
    PageMemo(env, s);
  }

  lemma IdMemo(env: Env, s: State)
    requires Consistent(env, s.memo)
    ensures var o := IdStep(env, s);
      Consistent(env, o.state.memo) && o.result == IdValue(env, o.state.memo.page)
  {
    if s.memo.id.None? {
      var t := Prepared(env, s);
      assert Consistent(env, t.memo) by {
        if env.source.Seed? {
          NeedPageMemo(env, s);
        }
      }
      var r := IdValue(env, t.memo.page);
      if r.Ok? {
        KeepsId(env, t.memo, r.value);
      }
    }
  }

  lemma NameMemo(env: Env, s: State)
    requires Consistent(env, s.memo)
    ensures var o := NameStep(env, s);
      Consistent(env, o.state.memo) && o.result == NameValue(env, o.state.memo.page)
  {
    if s.memo.name.None? {
      var t := Prepared(env, s);
      assert Consistent(env, t.memo) by {
        if env.source.Seed? {
          NeedPageMemo(env, s);
        }
      }
      var r := NameValue(env, t.memo.page);
      if r.Ok? {
        KeepsName(env, t.memo, r.value);
      }
    }
  }

  lemma UrlMemo(env: Env, s: State)
    requires Consistent(env, s.memo)
    ensures var o := UrlStep(env, s);
      Consistent(env, o.state.memo) && o.result == UrlValue(env, o.state.memo.page)
  {
    if s.memo.url.None? {
      var t := Prepared(env, s);
      assert Consistent(env, t.memo) by {
        if env.source.Seed? {
          NeedPageMemo(env, s);
        }
      }
      var r := UrlValue(env, t.memo.page);
      if r.Ok? {
        KeepsUrl(env, t.memo, r.value);
      }
    }
  }

  lemma HandleMemo(env: Env, s: State)
    requires Consistent(env, s.memo)
    ensures var o := HandleStep(env, s);
      Consistent(env, o.state.memo) && o.result == HandleValue(env, o.state.memo.page)
  {
    if s.memo.handle.None? {
      var u := UrlStep(env, s);
      UrlMemo(env, s);
      var r := HandleValue(env, u.state.memo.page);
      if r.Ok? {
        KeepsHandle(env, u.state.memo, r.value);
      }
    }
  }

  lemma OwnerMemo(env: Env, s: State)
    requires Consistent(env, s.memo)
    ensures var o := OwnerStep(env, s);
      Consistent(env, o.state.memo) && o.result == OwnerValue(env, o.state.memo.page)
  {
    if s.memo.owner.None? {
      var t := Prepared(env, s);
      assert Consistent(env, t.memo) by {
        if env.source.Seed? {
          NeedPageMemo(env, s);
        }
      }
      var r := OwnerValue(env, t.memo.page);
      if r.Ok? {
        KeepsOwner(env, t.memo, r.value);
      }
    }
  }

  lemma ImageMemo(env: Env, s: State)
    requires Consistent(env, s.memo)
    ensures var o := ImageStep(env, s);
      Consistent(env, o.state.memo) && o.result == ImageValue(env, o.state.memo.page)
  {
    if s.memo.imageUrl.None? {
      var t := Prepared(env, s);
      assert Consistent(env, t.memo) by {
        if env.source.Seed? {
          NeedPageMemo(env, s);
        }
      }
      var r := ImageValue(env, t.memo.page);
      if r.Ok? {
        KeepsImage(env, t.memo, r.value);
      }
    }
  }

  lemma AmountMemo(env: Env, s: State)
    requires Consistent(env, s.memo)
    ensures var o := AmountStep(env, s);
      Consistent(env, o.state.memo) && o.result == AmountValue(env, o.state.memo.page)
  {
    if s.memo.amount.None? {
      var t := Prepared(env, s);
      assert Consistent(env, t.memo) by {
        if env.source.Seed? {
          NeedPageMemo(env, s);
        }
      }
      var r := AmountValue(env, t.memo.page);
      if r.Ok? {
        KeepsAmount(env, t.memo, r.value);
      }
    }
  }

  lemma PercentMemo(env: Env, s: State)
    requires Consistent(env, s.memo)
    ensures var o := PercentStep(env, s);
      Consistent(env, o.state.memo) && o.result == PercentValue(env, o.state.memo.page)
  {
    if s.memo.percent.None? {
      var t := Prepared(env, s);
      assert Consistent(env, t.memo) by {
        if env.source.Seed? {
          NeedPageMemo(env, s);
        }
      }
      var r := PercentValue(env, t.memo.page);
      if r.Ok? {
        KeepsPercent(env, t.memo, r.value);
      }
    }
  }

  lemma GoalMemo(env: Env, s: State)
    requires Consistent(env, s.memo)
    ensures var o := GoalStep(env, s);
      Consistent(env, o.state.memo) && o.result == GoalValue(env, o.state.memo.page)
  {
    if s.memo.goal.None? {
      var p := NeedPageStep(env, s);
      NeedPageMemo(env, s);
      var r := GoalValue(env, p.state.memo.page);
      if r.Ok? {
        KeepsGoal(env, p.state.memo, r.value);
      }
    }
  }

  lemma EndTimeMemo(env: Env, s: State)
    requires Consistent(env, s.memo)
    ensures var o := EndTimeStep(env, s);
      Consistent(env, o.state.memo) && o.result == EndTimeValue(env, o.state.memo.page)
  {
    if s.memo.endTime.None? {
      var p := NeedPageStep(env, s);
      NeedPageMemo(env, s);
      var r := EndTimeValue(env, p.state.memo.page);
      if r.Ok? {
        KeepsEndTime(env, p.state.memo, r.value);
      }
    }
  }

  lemma ShortUrlMemo(env: Env, s: State)
    requires Consistent(env, s.memo)
    ensures var o := ShortUrlStep(env, s);
      Consistent(env, o.state.memo) && o.result == ShortUrlValue(env, o.state.memo.page)
  {
    if s.memo.shortUrl.None? {
      var p := NeedPageStep(env, s);
      NeedPageMemo(env, s);
      var r := ShortUrlValue(env, p.state.memo.page);
      if r.Ok? {
        KeepsShortUrl(env, p.state.memo, r.value);
      }
    }
  }

  lemma AboutMemo(env: Env, s: State)
    requires Consistent(env, s.memo)
    ensures var o := AboutStep(env, s);
      Consistent(env, o.state.memo) && o.result == AboutValue(env, o.state.memo.page)
  {
    if s.memo.about.None? {
      var p := NeedPageStep(env, s);
      NeedPageMemo(env, s);
      var r := AboutValue(env, p.state.memo.page);
      if r.Ok? {
        KeepsAbout(env, p.state.memo, r.value);
      }
    }
  }

  lemma DescriptionMemo(env: Env, s: State)
    requires Consistent(env, s.memo)
    ensures var o := DescriptionStep(env, s);
      Consistent(env, o.state.memo) && o.result == Ok(DescriptionValue(env))
  {
  }

  lemma DeadlineMemo(env: Env, s: State, now: int)
    requires Consistent(env, s.memo)
    ensures var o := DeadlineStep(env, s, now);
      Consistent(env, o.state.memo) && (env.source.Seed? ==> o.result == SeedDeadlineValue(env, o.state.memo.page))
  {
    if s.memo.deadline.None? {
      if env.source.Seed? {
        var e := EndTimeStep(env, s);
        EndTimeMemo(env, s);
        var r := SeedDeadlineValue(env, e.state.memo.page);
        if r.Ok? {
          KeepsDeadline(env, e.state.memo, r.value.value);
        }
      } else {
        var r := NodeDeadline(env.source.node, now);
        if r.Ok? && r.value.Some? {
          KeepsDeadline(env, s.memo, r.value.value);
        }
      }
    }
  }

  lemma TiersMemo(env: Env, s: State, out: (nat, nat) -> bool)
    requires Consistent(env, s.memo)
    ensures Consistent(env, TiersStep(env, s, out).state.memo)
  {
    NeedPageMemo(env, s);
  }

  // ------------------------------------------------------ details_page facts

  /** Once `details_page` has returned a page, later calls return that page
      and make no request. */
  lemma PageKept(env: Env, s: State)
    requires PageStep(env, s).result.Ok? && PageStep(env, s).result.value.Some?
    ensures var t := PageStep(env, s).state;
      PageStep(env, t) == Out(PageStep(env, s).result, t)
  {
  }

  /** `||=` does not keep nil: when all three requests of a seeded record
      time out, `details_page` is nil, and the next call requests the seed
      URL again. */
  lemma NilPageFetchedAgain(env: Env, s: State)
    requires env.source.Seed? && s.memo.page.None?
    requires PageStep(env, s).result == Ok(None)
    ensures var t := PageStep(env, s).state;
      t.requests == s.requests + Repeat(env.source.seedUrl, MaxAttempts)
      && t.memo.page.None?
      && exists k :: 1 <= k <= MaxAttempts && PageStep(env, t).state.requests == t.requests + Repeat(env.source.seedUrl, k)
  {
    var url := env.source.seedUrl;
    GivesUp(env.answer, url, |s.requests|);
    var t := PageStep(env, s).state;
    var k := FetchPage(env.answer, url, |t.requests|).attempts;
    assert PageStep(env, t).state.requests == t.requests + Repeat(url, k);
  }

  // ------------------------------------------------------ pledge_deadline facts

  /** A listing node's deadline is kept once it is not nil, whatever the
      clock says later; a nil one is not kept, and is parsed again at the
      next instant. */
  lemma ListingDeadlineMemo(env: Env, s: State, now: int, later: int)
    requires env.source.Listing? && s.memo.deadline.None?
    ensures var o := DeadlineStep(env, s, now);
      var node := env.source.node;
      (o.result == Ok(None) ==> o.state == s && DeadlineStep(env, o.state, later).result == NodeDeadline(node, later))
      && (o.result.Ok? && o.result.value.Some? ==> DeadlineStep(env, o.state, later).result == o.result)
  {
  }

  // -------------------------------------------------------------- to_hash facts

  /** After a seeded record's `to_hash` has succeeded, its details page is
      held, so a second `to_hash` makes no request. */
  lemma SecondHashOffline(env: Env, s: State, now: int, out: (nat, nat) -> bool, now2: int, out2: (nat, nat) -> bool)
    requires Consistent(env, s.memo) && env.source.Seed?
    requires ToHashStep(env, s, now, out).result.Ok?
    ensures var t := ToHashStep(env, s, now, out).state;
      ToHashStep(env, t, now2, out2).state.requests == t.requests
  {
    var id := IdStep(env, s);
    IdMemo(env, s);
    assert id.state.memo.page.Some?;
    var name := NameStep(env, id.state);
    var handle := HandleStep(env, name.state);
    var url := UrlStep(env, handle.state);
    var description := DescriptionStep(env, url.state);
    var first := IdentityStep(env, s);
    assert first.state == description.state;
    assert first.state.memo.page.Some?;
    var base := BaseStep(env, s, now);
    assert base.state.memo.page.Some?;
    assert ToHashStep(env, s, now, out).state.memo.page.Some?;
  }
}
