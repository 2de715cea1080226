/** `Kickstarter::Project`: a record built from a seed URL or a listing node,
    whose accessors compute each field on first use and keep it in an
    instance variable. Every accessor is proved to follow the step function
    of module Record for it, and to keep the memo consistent. */
module Kickstarter {
  import opened RubyText
  import opened Deadline
  import opened Extract
  import opened Fetch
  import opened Tiers
  import opened Record

  class Project {
    const source: Source
    /** `Kickstarter::BASE_URL`. */
    const baseUrl: string
    const net: Network
    /** The instance variables the accessors fill in. */
    var memo: Memo

    /** What the record's accessors depend on and do not change. */
    function Setting(): Env
    {
      Env(source, baseUrl, net.answer)
    }

    /** The record's memo fields and the network's request log. */
    function Snapshot(): State
      reads this, net
    {
      State(memo, net.requests)
    }

    /** Every memo field set holds what its accessor computes afresh. */
    predicate Valid()
      reads this, net
    {
      Consistent(Setting(), memo)
    }

    constructor (source: Source, baseUrl: string, net: Network)
      ensures this.source == source && this.baseUrl == baseUrl && this.net == net
      ensures memo == NoMemo && Valid()
    {
      this.source := source;
      this.baseUrl := baseUrl;
      this.net := net;
      memo := NoMemo;
    }

    /** `Project.new(arg)`: a String gives a seeded record, a node a listing
        record, and anything else raises TypeError. */
    static method New(arg: Arg, baseUrl: string, net: Network) returns (r: Result<Project>)
      ensures r.Err? <==> arg.Other?
      ensures r.Err? ==> r.failure == TypeError
      ensures r.Ok? ==> fresh(r.value) && SourceOf(arg) == Ok(r.value.source)
      ensures r.Ok? ==> r.value.baseUrl == baseUrl && r.value.net == net && r.value.memo == NoMemo && r.value.Valid()
    {
      match arg
      case Text(url) =>
        var project := new Project(Seed(url), baseUrl, net);
        r := Ok(project);
      case Element(node) =>
        var project := new Project(Listing(node), baseUrl, net);
        r := Ok(project);
      case Other =>
        r := Err(TypeError);
    }

    // ------------------------------------------------------- details page

    /** `url` of a listing record, used to fetch its details page. */
    method ListingUrl() returns (r: Result<string>)
      requires Valid() && source.Listing?
      modifies this
      ensures Valid()
      ensures Out(r, Snapshot()) == ListingUrlStep(Setting(), old(Snapshot()))
    {
      ghost var s0 := Snapshot();
      ListingUrlMemo(Setting(), s0);
      if memo.url.Some? {
        return Ok(memo.url.value);
      }
      r := NodeUrl(baseUrl, source.node);
      if r.Ok? {
        memo := memo.(url := Some(r.value));
      }
    }

    /** `details_page`: the page held, or else the page `fetch_details`
        returns for the seed URL or for `url`. */
    method DetailsPage() returns (r: Result<Option<Page>>)
      requires Valid()
      modifies this, net
      ensures Valid()
      ensures Out(r, Snapshot()) == PageStep(Setting(), old(Snapshot()))
    {
      ghost var s0 := Snapshot();
      PageMemo(Setting(), s0);
      if memo.page.Some? {
        return Ok(memo.page);
      }
      var url: Result<string>;
      match source {
        case Seed(seedUrl) =>
          url := Ok(seedUrl);
        case Listing(_) =>
          url := ListingUrl();
      }
      if url.Err? {
        return Err(url.failure);
      }
      var page := FetchDetails(net, url.value);
      memo := memo.(page := page);
      r := Ok(page);
    }

    /** `details_page` when the caller goes on to query it: nil raises. */
    method LoadedPage() returns (r: Result<Page>)
      requires Valid()
      modifies this, net
      ensures Valid()
      ensures Out(r, Snapshot()) == NeedPageStep(Setting(), old(Snapshot()))
    {
      ghost var s0 := Snapshot();
      NeedPageMemo(Setting(), s0);
      var page := DetailsPage();
      match page {
        case Err(e) => r := Err(e);
        case Ok(None) => r := Err(NoMethodError);
        case Ok(Some(p)) => r := Ok(p);
      }
    }

    // --------------------------------------------------------- accessors

    /** `id`. */
    method Id() returns (r: Result<int>)
      requires Valid()
      modifies this, net
      ensures Valid()
      ensures Out(r, Snapshot()) == IdStep(Setting(), old(Snapshot()))
    {
      ghost var s0 := Snapshot();
      IdMemo(Setting(), s0);
      if memo.id.Some? {
        return Ok(memo.id.value);
      }
      match source {
        case Listing(node) =>
          r := NodeId(node);
        case Seed(_) =>
          var page := LoadedPage();
          r := if page.Ok? then Ok(PageId(page.value)) else Err(NoMethodError);
      }
      if r.Ok? {
        memo := memo.(id := Some(r.value));
      }
    }

    /** `name`. */
    method Name() returns (r: Result<string>)
      requires Valid()
      modifies this, net
      ensures Valid()
      ensures Out(r, Snapshot()) == NameStep(Setting(), old(Snapshot()))
    {
      ghost var s0 := Snapshot();
      NameMemo(Setting(), s0);
      if memo.name.Some? {
        return Ok(memo.name.value);
      }
      match source {
        case Listing(node) =>
          r := NodeName(node);
        case Seed(_) =>
          var page := LoadedPage();
          r := if page.Ok? then Ok(page.value.title) else Err(NoMethodError);
      }
      if r.Ok? {
        memo := memo.(name := Some(r.value));
      }
    }

    /** `description`: a listing node's blurb; nil for a seeded record. */
    method Description() returns (r: Option<string>)
      requires Valid()
      modifies this
      ensures Valid()
      ensures Out(Ok(r), Snapshot()) == DescriptionStep(Setting(), old(Snapshot()))
    {
      ghost var s0 := Snapshot();
      DescriptionMemo(Setting(), s0);
      if memo.description.Some? {
        return memo.description;
      }
      match source {
        case Listing(node) =>
          r := Some(node.blurb);
          memo := memo.(description := r);
        case Seed(_) =>
          r := None;
      }
    }

    /** `url`. */
    method Url() returns (r: Result<string>)
      requires Valid()
      modifies this, net
      ensures Valid()
      ensures Out(r, Snapshot()) == UrlStep(Setting(), old(Snapshot()))
    {
      ghost var s0 := Snapshot();
      UrlMemo(Setting(), s0);
      if memo.url.Some? {
        return Ok(memo.url.value);
      }
      match source {
        case Listing(node) =>
          r := NodeUrl(baseUrl, node);
        case Seed(_) =>
          var page := LoadedPage();
          r := if page.Ok? then AttrValue(page.value.titleHref) else Err(NoMethodError);
      }
      if r.Ok? {
        memo := memo.(url := Some(r.value));
      }
    }

    /** `handle`: from `url`. */
    method Handle() returns (r: Result<string>)
      requires Valid()
      modifies this, net
      ensures Valid()
      ensures Out(r, Snapshot()) == HandleStep(Setting(), old(Snapshot()))
    {
      ghost var s0 := Snapshot();
      HandleMemo(Setting(), s0);
      if memo.handle.Some? {
        return Ok(memo.handle.value);
      }
      var url := Url();
      r := if url.Err? then Err(url.failure) else HandleOf(url.value);
      if r.Ok? {
        memo := memo.(handle := Some(r.value));
      }
    }

    /** `owner`. */
    method Owner() returns (r: Result<string>)
      requires Valid()
      modifies this, net
      ensures Valid()
      ensures Out(r, Snapshot()) == OwnerStep(Setting(), old(Snapshot()))
    {
      ghost var s0 := Snapshot();
      OwnerMemo(Setting(), s0);
      if memo.owner.Some? {
        return Ok(memo.owner.value);
      }
      match source {
        case Listing(node) =>
          r := NodeOwner(node);
        case Seed(_) =>
          var page := LoadedPage();
          r := if page.Ok? then Ok(page.value.creator) else Err(NoMethodError);
      }
      if r.Ok? {
        memo := memo.(owner := Some(r.value));
      }
    }

    /** `image_url`. */
    method ImageUrl() returns (r: Result<string>)
      requires Valid()
      modifies this, net
      ensures Valid()
      ensures Out(r, Snapshot()) == ImageStep(Setting(), old(Snapshot()))
    {
      ghost var s0 := Snapshot();
      ImageMemo(Setting(), s0);
      if memo.imageUrl.Some? {
        return Ok(memo.imageUrl.value);
      }
      match source {
        case Listing(node) =>
          r := NodeImage(node);
        case Seed(_) =>
          var page := LoadedPage();
          r := if page.Ok? then AttrValue(page.value.videoImage) else Err(NoMethodError);
      }
      if r.Ok? {
        memo := memo.(imageUrl := Some(r.value));
      }
    }

    /** `pledge_amount`. */
    method PledgeAmount() returns (r: Result<Number>)
      requires Valid()
      modifies this, net
      ensures Valid()
      ensures Out(r, Snapshot()) == AmountStep(Setting(), old(Snapshot()))
    {
      ghost var s0 := Snapshot();
      AmountMemo(Setting(), s0);
      if memo.amount.Some? {
        return Ok(memo.amount.value);
      }
      match source {
        case Listing(node) =>
          var amount := NodeAmount(node);
          r := if amount.Ok? then Ok(Whole(amount.value)) else Err(amount.failure);
        case Seed(_) =>
          var page := LoadedPage();
          r := if page.Ok? then FloatAttr(page.value.pledged) else Err(NoMethodError);
      }
      if r.Ok? {
        memo := memo.(amount := Some(r.value));
      }
    }

    /** `pledge_percent`. */
    method PledgePercent() returns (r: Result<Number>)
      requires Valid()
      modifies this, net
      ensures Valid()
      ensures Out(r, Snapshot()) == PercentStep(Setting(), old(Snapshot()))
    {
      ghost var s0 := Snapshot();
      PercentMemo(Setting(), s0);
      if memo.percent.Some? {
        return Ok(memo.percent.value);
      }
      match source {
        case Listing(node) =>
          r := Ok(Whole(NodePercent(node)));
        case Seed(_) =>
          var page := LoadedPage();
          r := if page.Ok? then FloatAttr(page.value.percentRaised) else Err(NoMethodError);
      }
      if r.Ok? {
        memo := memo.(percent := Some(r.value));
      }
    }

    /** `pledge_deadline` at instant now (`Time.now`). */
    method PledgeDeadline(now: int) returns (r: Result<Option<Deadline>>)
      requires Valid()
      modifies this, net
      ensures Valid()
      ensures Out(r, Snapshot()) == DeadlineStep(Setting(), old(Snapshot()), now)
    {
      ghost var s0 := Snapshot();
      DeadlineMemo(Setting(), s0, now);
      if memo.deadline.Some? {
        return Ok(memo.deadline);
      }
      match source {
        case Listing(node) =>
          r := NodeDeadline(node, now);
        case Seed(_) =>
          var end := ExactPledgeDeadline();
          r := if end.Ok? then Ok(Some(DateOf(end.value))) else Err(end.failure);
      }
      if r.Ok? && r.value.Some? {
        memo := memo.(deadline := r.value);
      }
    }

    /** `pledge_goal`. */
    method PledgeGoal() returns (r: Result<Number>)
      requires Valid()
      modifies this, net
      ensures Valid()
      ensures Out(r, Snapshot()) == GoalStep(Setting(), old(Snapshot()))
    {
      ghost var s0 := Snapshot();
      GoalMemo(Setting(), s0);
      if memo.goal.Some? {
        return Ok(memo.goal.value);
      }
      var page := LoadedPage();
      r := if page.Err? then Err(page.failure) else FloatAttr(page.value.goal);
      if r.Ok? {
        memo := memo.(goal := Some(r.value));
      }
    }

    /** `exact_pledge_deadline`. */
    method ExactPledgeDeadline() returns (r: Result<int>)
      requires Valid()
      modifies this, net
      ensures Valid()
      ensures Out(r, Snapshot()) == EndTimeStep(Setting(), old(Snapshot()))
    {
      ghost var s0 := Snapshot();
      EndTimeMemo(Setting(), s0);
      if memo.endTime.Some? {
        return Ok(memo.endTime.value);
      }
      var page := LoadedPage();
      r := if page.Err? then Err(page.failure) else PageEndTime(page.value);
      if r.Ok? {
        memo := memo.(endTime := Some(r.value));
      }
    }

    /** `short_url`. */
    method ShortUrl() returns (r: Result<string>)
      requires Valid()
      modifies this, net
      ensures Valid()
      ensures Out(r, Snapshot()) == ShortUrlStep(Setting(), old(Snapshot()))
    {
      ghost var s0 := Snapshot();
      ShortUrlMemo(Setting(), s0);
      if memo.shortUrl.Some? {
        return Ok(memo.shortUrl.value);
      }
      var page := LoadedPage();
      r := if page.Err? then Err(page.failure) else AttrValue(page.value.shortUrl);
      if r.Ok? {
        memo := memo.(shortUrl := Some(r.value));
      }
    }

    /** `about`: read once (`@about.nil?`), then kept. */
    method About() returns (r: Result<string>)
      requires Valid()
      modifies this, net
      ensures Valid()
      ensures Out(r, Snapshot()) == AboutStep(Setting(), old(Snapshot()))
    {
      ghost var s0 := Snapshot();
      AboutMemo(Setting(), s0);
      if memo.about.Some? {
        return Ok(memo.about.value);
      }
      var page := LoadedPage();
      r := if page.Err? then Err(page.failure) else Ok(page.value.about);
      if r.Ok? {
        memo := memo.(about := Some(r.value));
      }
    }

    /** `tiers`: a tier for each reward element, pass after pass while
        building one times out, at most three passes, without clearing
        what earlier passes appended. */
    method Tiers(out: (nat, nat) -> bool) returns (r: Result<seq<string>>)
      requires Valid()
      modifies this, net
      ensures Valid()
      ensures Out(r, Snapshot()) == TiersStep(Setting(), old(Snapshot()), out)
    {
      ghost var s0 := Snapshot();
      ghost var first := NeedPageStep(Setting(), s0);
      var retries := 0;
      var results: seq<string> := [];
      while true
        invariant 0 <= retries < MaxPasses
        invariant Valid()
        invariant retries == 0 ==> Snapshot() == s0 && results == []
        invariant retries > 0 ==> (first.result.Ok? && Snapshot() == first.state)
        invariant retries > 0 ==> TiersStep(Setting(), s0, out) == Out(Ok(Collect(first.result.value.rewards, out, retries, results)), first.state)
        decreases MaxPasses - retries
      {
        var page := LoadedPage();
        if page.Err? {
          return Err(page.failure);
        }
        assert page == first.result && Snapshot() == first.state;
        var nodes := page.value.rewards;
        ghost var start := results;
        var built, i := BuildPass(nodes, out, retries);
        results := results + built;
        PassStops(nodes, out, retries, start, i);
        if i == |nodes| {
          return Ok(results);
        }
        retries := retries + 1;
        if retries >= MaxPasses {
          return Ok(results);
        }
      }
    }

    // ------------------------------------------------------------ to_hash

    /** `to_hash` at instant now, `out` saying which tier builds time out. */
    method ToHash(now: int, out: (nat, nat) -> bool) returns (r: Result<map<Key, Value>>)
      requires Valid()
      modifies this, net
      ensures Valid()
      ensures Out(r, Snapshot()) == ToHashStep(Setting(), old(Snapshot()), now, out)
    {
      var base := BaseValues(now);
      if base.Err? || source.Listing? {
        return base;
      }
      var extra := ExtraValues(out);
      if extra.Err? {
        return Err(extra.failure);
      }
      r := Ok(base.value + extra.value);
    }

    /** The ten values every record reports. */
    method BaseValues(now: int) returns (r: Result<map<Key, Value>>)
      requires Valid()
      modifies this, net
      ensures Valid()
      ensures Out(r, Snapshot()) == BaseStep(Setting(), old(Snapshot()), now)
    {
      var first := IdentityValues();
      if first.Err? {
        return first;
      }
      var second := PledgeValues(now);
      if second.Err? {
        return Err(second.failure);
      }
      r := Ok(first.value + second.value);
    }

    /** `id`, `name`, `handle`, `url` and `description`, in that order. */
    method IdentityValues() returns (r: Result<map<Key, Value>>)
      requires Valid()
      modifies this, net
      ensures Valid()
      ensures Out(r, Snapshot()) == IdentityStep(Setting(), old(Snapshot()))
    {
      var id := Id();
      if id.Err? {
        return Err(id.failure);
      }
      var name := Name();
      if name.Err? {
        return Err(name.failure);
      }
      var handle := Handle();
      if handle.Err? {
        return Err(handle.failure);
      }
      var url := Url();
      if url.Err? {
        return Err(url.failure);
      }
      var text := Description();
      r := Ok(map[
        KeyId := IntValue(id.value),
        KeyName := TextValue(name.value),
        KeyHandle := TextValue(handle.value),
        KeyUrl := TextValue(url.value),
        KeyDescription := if text.Some? then TextValue(text.value) else NilValue]);
    }

    /** `owner`, `pledge_amount`, `pledge_percent`, `pledge_deadline.to_s`
        and `image_url`, in that order. */
    method PledgeValues(now: int) returns (r: Result<map<Key, Value>>)
      requires Valid()
      modifies this, net
      ensures Valid()
      ensures Out(r, Snapshot()) == PledgeStep(Setting(), old(Snapshot()), now)
    {
      var owner := Owner();
      if owner.Err? {
        return Err(owner.failure);
      }
      var amount := PledgeAmount();
      if amount.Err? {
        return Err(amount.failure);
      }
      var percent := PledgePercent();
      if percent.Err? {
        return Err(percent.failure);
      }
      var deadline := PledgeDeadline(now);
      if deadline.Err? {
        return Err(deadline.failure);
      }
      var image := ImageUrl();
      if image.Err? {
        return Err(image.failure);
      }
      r := Ok(map[
        KeyOwner := TextValue(owner.value),
        KeyPledgeAmount := NumberValue(amount.value),
        KeyPledgePercent := NumberValue(percent.value),
        KeyPledgeDeadline := DateText(deadline.value),
        KeyImageUrl := TextValue(image.value)]);
    }

    /** The five values only a seeded record reports: `pledge_goal`,
        `exact_pledge_deadline.to_s`, `short_url`, `about` and `tiers`. */
    method ExtraValues(out: (nat, nat) -> bool) returns (r: Result<map<Key, Value>>)
      requires Valid()
      modifies this, net
      ensures Valid()
      ensures Out(r, Snapshot()) == ExtraStep(Setting(), old(Snapshot()), out)
    {
      var goal := PledgeGoal();
      if goal.Err? {
        return Err(goal.failure);
      }
      var end := ExactPledgeDeadline();
      if end.Err? {
        return Err(end.failure);
      }
      var shortUrl := ShortUrl();
      if shortUrl.Err? {
        return Err(shortUrl.failure);
      }
      var about := About();
      if about.Err? {
        return Err(about.failure);
      }
      var tiers := Tiers(out);
      if tiers.Err? {
        return Err(tiers.failure);
      }
      r := Ok(map[
        KeyPledgeGoal := NumberValue(goal.value),
        KeyExactPledgeDeadline := TimeText(end.value),
        KeyShortUrl := TextValue(shortUrl.value),
        KeyAbout := TextValue(about.value),
        KeyTiers := TierValues(tiers.value)]);
    }
  }
}
