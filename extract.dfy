/** The field rules of `Kickstarter::Project`, as pure functions over what the
    HTML queries return. A listing node (the summary card of a project on a
    listing page) and a details page are given as the strings their CSS
    queries yield; each rule keeps Ruby's nil and exception outcomes. */
module Extract {
  import opened RubyText
  import opened Deadline

  // ------------------------------------------------------------ documents

  /** A `h2 a` element of a listing node: its inner HTML and its href
      attribute, if it has one. */
  datatype Link = Link(inner: string, href: Option<string>)

  /** A `.project-stats li` element: its inner HTML, and the inner HTML of the
      `strong` elements inside it, joined as `NodeSet#inner_html` joins. */
  datatype Stat = Stat(inner: string, strong: string)

  /** A listing node, as its queries see it (every sequence in document
      order): `h2 a` links, `h2 span` inner HTML, the joined inner HTML of
      `h2 + p`, the src attribute of each `.project-thumbnail img`, and the
      `.project-stats li` items. */
  datatype ListingNode = ListingNode(
    links: seq<Link>,
    bylines: seq<string>,
    blurb: string,
    thumbnails: seq<Option<string>>,
    stats: seq<Stat>)

  /** A project's details page, as its queries see it. A query that reads an
      attribute is None when the element or the attribute is missing (Ruby
      then calls `value` on nil). `endTime` is the instant `Time.parse` makes
      of `data-end_time`, and `rewards` are the `a.NS-projects-reward`
      elements under `#what-you-get`. */
  datatype Page = Page(
    projectId: string,
    title: string,
    titleHref: Option<string>,
    creator: string,
    videoImage: Option<string>,
    pledged: Option<string>,
    percentRaised: Option<string>,
    goal: Option<string>,
    endTime: Option<int>,
    shortUrl: Option<string>,
    about: string,
    rewards: seq<string>)

  /** A number the record reports: an integer, or the text that `Float(...)`
      converts (floating point is not modelled). */
  datatype Number = Whole(n: int) | FloatOf(text: string)

  /** `.first` of a node set: nil when the set is empty. */
  function First<T>(s: seq<T>): (r: Option<T>)
    ensures r.Some? <==> s != []
    ensures r.Some? ==> r.value == s[0]
  {
    if s == [] then None else Some(s[0])
  }

  /** `.attribute(name).to_s`: a missing attribute reads as "". */
  function AttrText(a: Option<string>): string
  {
    match a
    case None => ""
    case Some(v) => v
  }

  /** `.attr(name).value` on a page: a missing one raises. */
  function AttrValue(a: Option<string>): (r: Result<string>)
    ensures r.Ok? <==> a.Some?
  {
    match a
    case None => Err(NoMethodError)
    case Some(v) => Ok(v)
  }

  // ------------------------------------------------------------------ id

  const ProjectsMarker: string := "/projects/"
  const PhotoLittle: string := "photo-little.jpg"
  const PhotoFull: string := "photo-full.jpg"
  const LittleSuffix: string := "/photo-little.jpg"

  /** `thumbnail_url`: the src of the first thumbnail image. */
  function ThumbnailUrl(node: ListingNode): (r: Result<string>)
    ensures r.Ok? <==> node.thumbnails != []
  {
    match First(node.thumbnails)
    case None => Err(NoMethodError)
    case Some(src) => Ok(AttrText(src))
  }

  /** A match of `/\/projects\/([0-9]+)\/photo-little\.jpg/`: where it starts
      and its captured digits. */
  datatype IdMatch = IdMatch(at: nat, digits: string)

  /** The capture of that regex when a match starts at j. The digit run is
      maximal, as the greedy `[0-9]+` must be: the '/' after it is no digit. */
  function IdAt(s: string, j: nat): (r: Option<string>)
    ensures r.Some? ==> r.value != [] && AllDigits(r.value)
  {
    if OccursAt(s, ProjectsMarker, j) then
      var d := LeadingDigits(s[j + |ProjectsMarker|..]);
      if d != [] && OccursAt(s, LittleSuffix, j + |ProjectsMarker| + |d|) then Some(d) else None
    else None
  }

  /** The leftmost match of the id regex at or after i. */
  function IdFrom(s: string, i: nat): (r: Option<IdMatch>)
    decreases |s| - i
    ensures r.Some? ==> i <= r.value.at && IdAt(s, r.value.at) == Some(r.value.digits)
    ensures forall k :: i <= k && (r.None? || k < r.value.at) ==> IdAt(s, k) == None
  {
    match FindFrom(s, ProjectsMarker, i)
    case None => None
    case Some(j) =>
      NoIdBefore(s, i, j);
      if IdAt(s, j).Some? then Some(IdMatch(j, IdAt(s, j).value)) else IdFrom(s, j + 1)
  }

  /** No match of the id regex starts before the next `/projects/`. */
  lemma NoIdBefore(s: string, i: nat, j: nat)
    requires FindFrom(s, ProjectsMarker, i) == Some(j)
    ensures forall k :: i <= k < j ==> IdAt(s, k) == None
  {
  }

  /** `id` of a listing node: the captured digits read by `to_i`; no match
      (nil) or no thumbnail raises. */
  function NodeId(node: ListingNode): (r: Result<int>)
    ensures r.Ok? ==> r.value >= 0
  {
    match ThumbnailUrl(node)
    case Err(e) => Err(e)
    case Ok(thumb) =>
      match IdFrom(thumb, 0)
      case None => Err(NoMethodError)
      case Some(m) =>
        ToIOfDigits(m.digits, []);
        assert m.digits + [] == m.digits;
        Ok(ToI(m.digits))
  }

  /** The thumbnail URL Kickstarter serves for project n reads back as n,
      whatever precedes it, as long as no earlier "/projects/" occurs. */
  lemma IdOfThumbnail(pre: string, n: nat, post: string)
    requires !Contains(pre + "/projects", ProjectsMarker)
    ensures IdFrom(pre + ProjectsMarker + Decimal(n) + LittleSuffix + post, 0) == Some(IdMatch(|pre|, Decimal(n)))
  {
    var d := Decimal(n);
    var rest := d + LittleSuffix + post;
    var s := pre + ProjectsMarker + d + LittleSuffix + post;
    assert s == pre + ProjectsMarker + rest;
    assert ProjectsMarker[..|ProjectsMarker| - 1] == "/projects";
    FirstOccurrence(pre, ProjectsMarker, rest);
    var j := |pre|;
    assert s[j + |ProjectsMarker|..] == d + (LittleSuffix + post);
    LeadingDigitsOf(d, LittleSuffix + post);
    assert s[j + |ProjectsMarker| + |d|..j + |ProjectsMarker| + |d| + |LittleSuffix|] == LittleSuffix;
    assert IdAt(s, j) == Some(d);
  }

  /** With that thumbnail, `id` is n. */
  lemma NodeIdRoundTrip(node: ListingNode, pre: string, n: nat, post: string)
    requires node.thumbnails != [] && node.thumbnails[0] == Some(pre + ProjectsMarker + Decimal(n) + LittleSuffix + post)
    requires !Contains(pre + "/projects", ProjectsMarker)
    ensures NodeId(node) == Ok(n)
  {
    IdOfThumbnail(pre, n, post);
    ToIOfDigits(Decimal(n), []);
    assert Decimal(n) + [] == Decimal(n);
    DecimalRoundTrip(n);
  }

  /** A thumbnail without "/projects/" has no id: `match` gives nil, and
      `nil[1]` raises. */
  lemma NodeIdWithoutMarker(node: ListingNode)
    requires node.thumbnails != [] && !Contains(AttrText(node.thumbnails[0]), ProjectsMarker)
    ensures NodeId(node) == Err(NoMethodError)
  {
  }

  // ----------------------------------------------------------- name, url

  /** `name` of a listing node: the inner HTML of its first `h2 a`. */
  function NodeName(node: ListingNode): (r: Result<string>)
    ensures r.Ok? <==> node.links != []
    ensures r.Ok? ==> r.value == node.links[0].inner
  {
    match First(node.links)
    case None => Err(NoMethodError)
    case Some(link) => Ok(link.inner)
  }

  /** The base with its trailing run of slashes cut off (Ruby's
      `chompdirsep`). */
  function ChompSlashes(s: string): (r: string)
    ensures r <= s
    ensures r != [] ==> r[|r| - 1] != '/'
    ensures forall i :: |r| <= i < |s| ==> s[i] == '/'
  {
    if s != [] && s[|s| - 1] == '/' then ChompSlashes(s[..|s| - 1]) else s
  }

  /** `File.join(base, p)`: a p that starts with '/' replaces the base's
      trailing slashes; otherwise a '/' is put in unless the base already ends
      with one. */
  function JoinPath(base: string, p: string): (r: string)
    ensures ChompSlashes(base) + "/" <= r
    ensures |p| <= |r| && r[|r| - |p|..] == p
  {
    if p != [] && p[0] == '/' then ChompSlashes(base) + p
    else if ChompSlashes(base) == base then base + "/" + p
    else base + p
  }

  /** Whether the base ends with '/' or not, and whether the path starts with
      '/' or not, exactly one '/' joins them. */
  lemma JoinSingleSeparator(base: string, q: string)
    requires base == [] || base[|base| - 1] != '/'
    requires q == [] || q[0] != '/'
    ensures JoinPath(base, q) == base + "/" + q
    ensures JoinPath(base, "/" + q) == base + "/" + q
    ensures JoinPath(base + "/", q) == base + "/" + q
    ensures JoinPath(base + "/", "/" + q) == base + "/" + q
  {
    assert ChompSlashes(base) == base;
    assert (base + "/")[..|base + "/"| - 1] == base;
    assert ChompSlashes(base + "/") == base;
  }

  /** `path.split('?').first` joined to the base; a path that is empty or all
      '?' splits to nothing, and `File.join` of nil raises TypeError. */
  function UrlOfPath(base: string, path: string): (r: Result<string>)
    ensures r.Err? ==> r == Err(TypeError)
  {
    match FirstField(path, "?")
    case None => Err(TypeError)
    case Some(p) => Ok(JoinPath(base, p))
  }

  /** `url` of a listing node: the first link's href, query string dropped,
      joined to the site's base URL. */
  function NodeUrl(base: string, node: ListingNode): (r: Result<string>)
    ensures node.links == [] ==> r == Err(NoMethodError)
  {
    match First(node.links)
    case None => Err(NoMethodError)
    case Some(link) => UrlOfPath(base, AttrText(link.href))
  }

  /** The query string is dropped: the part before the first '?' is joined. */
  lemma UrlDropsQuery(base: string, path: string)
    requires exists i :: 0 <= i < |path| && path[i] != '?'
    ensures UrlOfPath(base, path) == Ok(JoinPath(base, Before(path, '?')))
  {
    FirstFieldBefore(path, '?');
    assert [ '?' ] == "?";
  }

  /** A path with nothing but '?' (or nothing at all) raises TypeError. */
  lemma UrlOfQueryOnly(base: string, path: string)
    requires forall i :: 0 <= i < |path| ==> path[i] == '?'
    ensures UrlOfPath(base, path) == Err(TypeError)
  {
    FirstFieldBefore(path, '?');
    assert [ '?' ] == "?";
  }

  // --------------------------------------------------------------- handle

  /** `gsub(/\/$/, "")`: every '/' at the end of a line (before a newline)
      or at the end of the text is deleted. */
  function DropLineEndSlash(s: string): (r: string)
    ensures |r| <= |s|
  {
    if s == [] then []
    else if s[0] == '/' && (|s| == 1 || s[1] == '\n') then DropLineEndSlash(s[1..])
    else [s[0]] + DropLineEndSlash(s[1..])
  }

  /** On one line, only a final '/' goes. */
  lemma {:induction false} DropLineEndSlashOneLine(s: string)
    requires '\n' !in s
    ensures DropLineEndSlash(s) == if s != [] && s[|s| - 1] == '/' then s[..|s| - 1] else s
  {
    if s != [] {
      DropLineEndSlashOneLine(s[1..]);
      if |s| > 1 {
        assert s[1..][|s[1..]| - 1] == s[|s| - 1];
        assert [s[0]] + s[1..][..|s[1..]| - 1] == s[..|s| - 1];
      }
    }
  }

  /** `handle`: the last field of `url.split('/projects/')` with its
      line-end slashes removed; a URL with no non-empty field gives nil, and
      `gsub` on nil raises. */
  function HandleOf(url: string): (r: Result<string>)
    ensures r.Err? ==> r == Err(NoMethodError)
  {
    match LastField(url, ProjectsMarker)
    case None => Err(NoMethodError)
    case Some(last) => Ok(DropLineEndSlash(last))
  }

  /** The handle of a project URL is the path after "/projects/", with one
      trailing slash dropped. */
  lemma HandleOfProjectUrl(site: string, h: string)
    requires !Contains(site + "/projects", ProjectsMarker)
    requires h != [] && !Contains(h, ProjectsMarker) && '\n' !in h
    ensures HandleOf(site + ProjectsMarker + h) == Ok(if h[|h| - 1] == '/' then h[..|h| - 1] else h)
  {
    assert ProjectsMarker[..|ProjectsMarker| - 1] == "/projects";
    LastFieldAfter(site, ProjectsMarker, h);
    DropLineEndSlashOneLine(h);
  }

  /** A URL ending in "//" keeps one slash in its handle: only the slash at
      the very end is at a line end. */
  lemma HandleKeepsInnerSlash(site: string, h: string)
    requires !Contains(site + "/projects", ProjectsMarker)
    requires !Contains(h + "//", ProjectsMarker) && '\n' !in h
    ensures HandleOf(site + ProjectsMarker + h + "//") == Ok(h + "/")
  {
    var t := h + "//";
    assert '\n' !in t;
    assert HandleOf(site + ProjectsMarker + t) == Ok(t[..|t| - 1]) by {
      HandleOfProjectUrl(site, t);
    }
    assert t[..|t| - 1] == h + "/";
    assert site + ProjectsMarker + t == site + ProjectsMarker + h + "//";
  }

  /** End to end: a listing link "/projects/<slug>?<query>" gives the URL
      base + "/projects/<slug>" and the handle slug. */
  lemma NodeHandleIsSlug(base: string, node: ListingNode, slug: string, query: string)
    requires base != [] && base[|base| - 1] != '/'
    requires !Contains(base + "/projects", ProjectsMarker)
    requires slug != [] && !Contains(slug, ProjectsMarker) && '?' !in slug && '\n' !in slug
    requires slug[|slug| - 1] != '/'
    requires node.links != [] && node.links[0].href == Some(ProjectsMarker + slug + "?" + query)
    ensures NodeUrl(base, node) == Ok(base + ProjectsMarker + slug)
    ensures HandleOf(base + ProjectsMarker + slug) == Ok(slug)
  {
    var path := ProjectsMarker + slug + "?" + query;
    var p := ProjectsMarker + slug;
    assert path[0] != '?';
    assert Before(path, '?') == p by { BeforePrefix(p, query); }
    UrlDropsQuery(base, path);
    assert ChompSlashes(base) == base;
    assert JoinPath(base, p) == base + p;
    assert base + p == base + ProjectsMarker + slug;
    HandleOfProjectUrl(base, slug);
  }

  /** The text before the first '?' of p + "?" + q, when p has none. */
  lemma {:induction false} BeforePrefix(p: string, q: string)
    requires '?' !in p
    ensures Before(p + "?" + q, '?') == p
  {
    if p != [] {
      assert (p + "?" + q)[1..] == p[1..] + "?" + q;
      BeforePrefix(p[1..], q);
    }
  }

  // ---------------------------------------------------------------- owner

  /** `owner` of a listing node as written: every "by" in the byline deleted,
      then stripped. This also cuts "by" out of the name itself. */
  function OwnerAsWritten(byline: string): (r: string)
    ensures Stripped(r)
  {
    Strip(ReplaceAll(byline, "by", ""))
  }

  /** The owner the byline names: the leading "by" word dropped, then
      stripped; a byline without that word is only stripped. */
  function OwnerName(byline: string): (r: string)
    ensures Stripped(r) && |r| <= |byline|
  {
    var t := TrimLeft(byline);
    if |t| >= 2 && t[..2] == "by" && (|t| == 2 || IsSpace(t[2])) then Strip(t[2..]) else Strip(t)
  }

  /** `owner` of a listing node: the name in its first `h2 span`. */
  function NodeOwner(node: ListingNode): (r: Result<string>)
    ensures r.Ok? <==> node.bylines != []
    ensures r.Ok? ==> r.value == OwnerName(node.bylines[0])
  {
    match First(node.bylines)
    case None => Err(NoMethodError)
    case Some(byline) => Ok(OwnerName(byline))
  }

  /** The byline "by <name>", with any white space around and between, names
      exactly <name>. */
  lemma OwnerNameOfByline(w1: string, w2: string, name: string, w3: string)
    requires AllSpace(w1) && AllSpace(w2) && AllSpace(w3) && w2 != []
    requires name != [] && Stripped(name)
    ensures OwnerName(w1 + "by" + w2 + name + w3) == name
  {
    var rest := w2 + name + w3;
    var t := "by" + rest;
    var byline := w1 + "by" + w2 + name + w3;
    assert byline == w1 + t;
    assert TrimLeft(byline) == t by {
      TrimLeftPadded(w1, t);
    }
    assert t[2..] == rest;
    assert Strip(rest) == name by {
      StripPadded(w2, name, w3);
    }
    LabelDropped(byline, t);
  }

  /** Once the byline is trimmed to "by", white space, rest, the owner is the
      rest stripped. */
  lemma LabelDropped(byline: string, t: string)
    requires TrimLeft(byline) == t && |t| > 2 && t[..2] == "by" && IsSpace(t[2])
    ensures OwnerName(byline) == Strip(t[2..])
  {
  }

  /** When the name holds no "by", deleting every "by" agrees with dropping
      the label. */
  lemma OwnerAgreesWithoutInnerBy(w2: string, name: string, w3: string)
    requires AllSpace(w2) && AllSpace(w3) && w2 != []
    requires name != [] && Stripped(name)
    requires !Contains(w2 + name + w3, "by")
    ensures OwnerAsWritten("by" + w2 + name + w3) == name
    ensures OwnerName("by" + w2 + name + w3) == name
  {
    var rest := w2 + name + w3;
    assert "by" + w2 + name + w3 == [] + "by" + rest;
    assert !Contains([] + "b", "by") by {
      MissingCharNotContained([] + "b", "by", 'y');
    }
    ReplaceFirst([], "by", rest, "");
    assert [] + "" + rest == rest;
    StripPadded(w2, name, w3);
    OwnerNameOfByline([], w2, name, w3);
    assert [] + "by" + w2 + name + w3 == "by" + w2 + name + w3;
  }

  /** A pattern at the front and once more later, with no other
      occurrence, is replaced twice. */
  lemma ReplaceTwice(pat: string, a: string, b: string, rep: string)
    requires |pat| > 0
    requires !Contains(a + pat[..|pat| - 1], pat) && !Contains(b, pat)
    ensures ReplaceAll(pat + (a + pat + b), pat, rep) == rep + (a + rep + b)
  {
    ReplaceAtFront(pat, a + pat + b, rep);
    ReplaceFirst(a, pat, b, rep);
  }

  /** A pattern at the very front is replaced first. */
  lemma ReplaceAtFront(pat: string, tail: string, rep: string)
    requires |pat| > 0
    ensures ReplaceAll(pat + tail, pat, rep) == rep + ReplaceAll(tail, pat, rep)
  {
    ShorterLacks(pat[..|pat| - 1], pat);
    FirstOccurrence([], pat, tail);
    assert [] + pat + tail == pat + tail;
    assert (pat + tail)[..0] == [];
    assert (pat + tail)[|pat|..] == tail;
  }

  /** A text shorter than the pattern does not contain it. */
  lemma ShorterLacks(s: string, pat: string)
    requires |s| < |pat|
    ensures !Contains([] + s, pat)
  {
  }

  /** The byline "by Bobby" yields "Bob" as written. */
  lemma OwnerBobbyAsWritten(byline: string)
    requires byline == "by Bobby"
    ensures OwnerAsWritten(byline) == "Bob"
  {
    OwnerCutsInnerBy(byline, "by", " Bob", "Bob");
  }

  /** As written, a byline "by" + a + "by" loses both: only a, stripped,
      is left. */
  lemma OwnerCutsInnerBy(byline: string, word: string, a: string, name: string)
    requires word == "by" && byline == word + a + word && a == " " + name
    requires 'y' !in name && name != [] && Stripped(name)
    ensures OwnerAsWritten(byline) == name
  {
    assert word[..|word| - 1] == "b";
    assert !Contains(a + "b", word) by {
      assert 'y' !in a + "b";
      MissingCharNotContained(a + "b", word, 'y');
    }
    ReplaceTwice(word, a, [], "");
    assert byline == word + (a + word + []);
    assert "" + (a + "" + []) == " " + name + [];
    StripPadded(" ", name, []);
  }

  /** ... and "Bobby" once only the label is dropped. */
  lemma OwnerBobbyName(byline: string)
    requires byline == "by Bobby"
    ensures OwnerName(byline) == "Bobby"
  {
    assert byline == [] + "by" + " " + "Bobby" + [];
    OwnerNameOfByline([], " ", "Bobby", []);
  }

  // ---------------------------------------------------------------- image

  /** `image_url` of a listing node: the thumbnail URL with every
      "photo-little.jpg" replaced by "photo-full.jpg". */
  function NodeImage(node: ListingNode): (r: Result<string>)
    ensures r.Ok? <==> node.thumbnails != []
  {
    match ThumbnailUrl(node)
    case Err(e) => Err(e)
    case Ok(thumb) => Ok(ReplaceAll(thumb, PhotoLittle, PhotoFull))
  }

  /** A thumbnail URL with one "photo-little.jpg" gives the full-size photo at
      the same place. */
  lemma ImageOfThumbnail(pre: string, post: string)
    requires !Contains(pre + "photo-little.jp", PhotoLittle) && !Contains(post, PhotoLittle)
    ensures ReplaceAll(pre + PhotoLittle + post, PhotoLittle, PhotoFull) == pre + PhotoFull + post
  {
    assert PhotoLittle[..|PhotoLittle| - 1] == "photo-little.jp";
    ReplaceFirst(pre, PhotoLittle, post, PhotoFull);
  }

  // --------------------------------------------------------- pledge amount

  /** The characters of `[0-9\,]`. */
  predicate IsAmountChar(c: char) { IsDigit(c) || c == ',' }

  predicate AllAmountChars(s: string) { forall i :: 0 <= i < |s| ==> IsAmountChar(s[i]) }

  /** The longest prefix of s made of digits and commas. */
  function AmountRun(s: string): (r: string)
    ensures r <= s && AllAmountChars(r)
    ensures |r| < |s| ==> !IsAmountChar(s[|r|])
  {
    if s != [] && IsAmountChar(s[0]) then [s[0]] + AmountRun(s[1..]) else []
  }

  /** The capture of `/\$([0-9\,]+)/`: after the first '$' that is followed
      by a digit or a comma, the longest run of digits and commas. */
  function AmountMatch(s: string): (r: Option<string>)
    ensures r.Some? ==> r.value != [] && AllAmountChars(r.value)
  {
    if |s| < 2 then None
    else if s[0] == '$' && IsAmountChar(s[1]) then Some(AmountRun(s[1..]))
    else AmountMatch(s[1..])
  }

  /** The value of a run of digits with comma group separators. */
  function GroupedValue(run: string): nat
    requires AllAmountChars(run)
  {
    WithoutCommasIsDigits(run);
    DigitsValue(Without(run, ','))
  }

  /** `pledge_amount` of a listing node: the amount in the strong text of the
      second stats item, commas deleted, read by `to_i`. Fewer than two items
      or no match raises. */
  function NodeAmount(node: ListingNode): (r: Result<int>)
    ensures |node.stats| < 2 ==> r == Err(NoMethodError)
    ensures r.Ok? ==> r.value >= 0
  {
    if |node.stats| < 2 then Err(NoMethodError)
    else
      match AmountMatch(node.stats[1].strong)
      case None => Err(NoMethodError)
      case Some(run) =>
        WithoutCommasIsDigits(run);
        ToIOfAllDigits(Without(run, ','));
        Ok(ToI(Without(run, ',')))
  }

  lemma {:induction false} WithoutCommasIsDigits(s: string)
    requires AllAmountChars(s)
    ensures AllDigits(Without(s, ','))
  {
    if s != [] {
      WithoutCommasIsDigits(s[1..]);
    }
  }

  lemma ToIOfAllDigits(s: string)
    requires AllDigits(s)
    ensures ToI(s) == DigitsValue(s)
  {
    if s != [] {
      ToIOfDigits(s, []);
      assert s + [] == s;
    }
  }

  /** The amount after the first '$' of the text is the one captured. */
  lemma {:induction false} AmountAfterDollar(pre: string, run: string, rest: string)
    requires '$' !in pre && run != [] && AllAmountChars(run)
    requires rest == [] || !IsAmountChar(rest[0])
    ensures AmountMatch(pre + "$" + run + rest) == Some(run)
  {
    var s := pre + "$" + run + rest;
    if pre == [] {
      assert s == ['$'] + (run + rest);
      assert s[1..] == run + rest;
      AmountRunOf(run, rest);
    } else {
      assert s[0] == pre[0] != '$';
      assert s[1..] == pre[1..] + "$" + run + rest;
      AmountAfterDollar(pre[1..], run, rest);
    }
  }

  lemma {:induction false} AmountRunOf(run: string, rest: string)
    requires AllAmountChars(run)
    requires rest == [] || !IsAmountChar(rest[0])
    ensures AmountRun(run + rest) == run
  {
    if run != [] {
      assert (run + rest)[1..] == run[1..] + rest;
      AmountRunOf(run[1..], rest);
    } else {
      assert run + rest == rest;
    }
  }

  /** The pledged amount is the value of the grouped digits after the '$'. */
  lemma NodeAmountOfStat(node: ListingNode, pre: string, run: string, rest: string)
    requires |node.stats| >= 2 && node.stats[1].strong == pre + "$" + run + rest
    requires '$' !in pre && run != [] && AllAmountChars(run)
    requires rest == [] || !IsAmountChar(rest[0])
    ensures NodeAmount(node) == Ok(GroupedValue(run))
  {
    AmountAfterDollar(pre, run, rest);
    WithoutCommasIsDigits(run);
    ToIOfAllDigits(Without(run, ','));
  }

  /** "$1,234" is 1234. */
  lemma NodeAmountExample(node: ListingNode)
    requires |node.stats| >= 2 && node.stats[1].strong == "$1,234"
    ensures NodeAmount(node) == Ok(1234)
  {
    var thousands, units := "1", "234";
    var run := thousands + "," + units;
    OneTwoThreeFour(thousands + units);
    assert AllDigits(thousands) && AllDigits(units) by {
      assert thousands == (thousands + units)[..1];
      assert units == (thousands + units)[1..];
    }
    GroupedPair(thousands, units);
    assert NodeAmount(node) == Ok(GroupedValue(run)) by {
      assert node.stats[1].strong == [] + "$" + run + [];
      NodeAmountOfStat(node, [], run, []);
    }
  }

  lemma OneTwoThreeFour(s: string)
    requires s == "1234"
    ensures AllDigits(s) && DigitsValue(s) == 1234
  {
    var d1 := "1";
    var d12 := d1 + ['2'];
    var d123 := d12 + ['3'];
    assert DigitsValue(d1) == 1 by {
      assert d1[..0] == [];
    }
    DigitsValueAppend(d1, '2');
    DigitsValueAppend(d12, '3');
    DigitsValueAppend(d123, '4');
    assert s == d123 + ['4'];
  }

  /** Two digit groups joined by a comma read as the digits together. */
  lemma GroupedPair(d1: string, d2: string)
    requires AllDigits(d1) && AllDigits(d2)
    ensures AllAmountChars(d1 + "," + d2) && GroupedValue(d1 + "," + d2) == DigitsValue(d1 + d2)
  {
    var run := d1 + "," + d2;
    assert AllAmountChars(run) by {
      forall i | 0 <= i < |run| ensures IsAmountChar(run[i]) {
        if i < |d1| { assert run[i] == d1[i]; }
        else if i > |d1| { assert run[i] == d2[i - |d1| - 1]; }
      }
    }
    assert Without(d1 + ",", ',') == d1 by {
      WithoutAppend(d1, ",", ',');
      WithoutAbsent(d1, ',');
      assert Without(",", ',') == [] by {
        assert ","[1..] == [];
      }
      assert d1 + [] == d1;
    }
    assert Without(run, ',') == d1 + d2 by {
      WithoutAppend(d1 + ",", d2, ',');
      WithoutAbsent(d2, ',');
    }
  }

  // -------------------------------------------------------- pledge percent

  /** The strong text of all stats items, joined. */
  function Strongs(stats: seq<Stat>): string
  {
    if stats == [] then [] else stats[0].strong + Strongs(stats[1..])
  }

  /** `pledge_percent` of a listing node: the strong text of every stats item,
      joined, commas deleted, read by `to_i` (the `* 1.0` is not modelled). */
  function NodePercent(node: ListingNode): (r: int)
    ensures r != 0 ==> exists i :: 0 <= i < |Strongs(node.stats)| && IsDigit(Strongs(node.stats)[i])
  {
    WithoutDigits(Strongs(node.stats), ',');
    ToI(Without(Strongs(node.stats), ','))
  }

  /** When the first item's strong text opens with the percentage (digits and
      commas, then a non-digit), that percentage is the result; the later
      items do not matter. */
  lemma NodePercentOfFirst(node: ListingNode, run: string, rest: string)
    requires node.stats != [] && node.stats[0].strong == run + rest
    requires run != [] && IsDigit(run[0]) && AllAmountChars(run)
    requires rest != [] && !IsAmountChar(rest[0])
    ensures NodePercent(node) == GroupedValue(run)
  {
    var tail := rest + Strongs(node.stats[1..]);
    assert Strongs(node.stats) == run + tail;
    WithoutAppend(run, tail, ',');
    WithoutCommasIsDigits(run);
    var d := Without(run, ',');
    assert d != [] by {
      assert run == [run[0]] + run[1..];
      WithoutAppend([run[0]], run[1..], ',');
    }
    assert tail == [rest[0]] + (rest[1..] + Strongs(node.stats[1..]));
    WithoutAppend([rest[0]], rest[1..] + Strongs(node.stats[1..]), ',');
    ToIOfDigits(d, Without(tail, ','));
  }

  // --------------------------------------------------------------- deadline

  /** `pledge_deadline` of a listing node at instant now: the last stats item
      parsed; no items raises. */
  function NodeDeadline(node: ListingNode, now: int): (r: Result<Option<Deadline>>)
    ensures node.stats == [] ==> r == Err(NoMethodError)
    ensures r.Ok? && r.value.Some? && r.value.value.OnDay? ==> r.value.value.day >= DayOf(now)
  {
    if node.stats == [] then Err(NoMethodError) else ParseDeadline(node.stats[|node.stats| - 1].inner, now)
  }

  // ------------------------------------------------------- details page

  /** `id` on a details page: the inner HTML of `.this_project_id`, by `to_i`. */
  function PageId(page: Page): (r: int)
    ensures r != 0 ==> exists i :: 0 <= i < |page.projectId| && IsDigit(page.projectId[i])
  {
    ToI(page.projectId)
  }

  /** A project id printed in decimal reads back as itself. */
  lemma PageIdRoundTrip(page: Page, n: nat)
    requires page.projectId == Decimal(n)
    ensures PageId(page) == n
  {
    DecimalRoundTrip(n);
    ToIOfDigits(Decimal(n), []);
    assert Decimal(n) + [] == Decimal(n);
  }

  /** `Float(text)` of an attribute that must be present. */
  function FloatAttr(a: Option<string>): (r: Result<Number>)
    ensures r.Ok? <==> a.Some?
    ensures r.Ok? ==> r.value == FloatOf(a.value)
  {
    match a
    case None => Err(NoMethodError)
    case Some(text) => Ok(FloatOf(text))
  }

  /** `exact_pledge_deadline`: the parsed `data-end_time`; a missing one raises. */
  function PageEndTime(page: Page): (r: Result<int>)
    ensures r.Ok? <==> page.endTime.Some?
    ensures r.Ok? ==> r.value == page.endTime.value
  {
    match page.endTime
    case None => Err(NoMethodError)
    case Some(t) => Ok(t)
  }

  /** `Time#to_date`: the day of an instant. */
  function DateOf(t: int): (d: Deadline)
    ensures d.OnDay? && d.day * SecondsPerDay <= t < (d.day + 1) * SecondsPerDay
  {
    OnDay(DayOf(t))
  }
}
