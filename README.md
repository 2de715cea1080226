# Kickstarter project record

A model of `Kickstarter::Project` from the Kickstarter scraper gem. A project
record is built in one of two ways:

- from the URL of a project's details page (a *seeded* record);
- from a project card (a *listing node*) on a listing page.

Each accessor computes its field on first use and keeps it in an instance
variable (`@id ||= ...`). A listing record reads its fields from the node. A
seeded record fetches the details page once and reads its fields from it. The
fetch is tried up to three times in all while it times out. `tiers` makes up
to three passes over the reward elements. `to_hash` exports ten fields, plus
five more for a seeded record.

The project has one module per concern:

- `RubyText`: the Ruby `String` operations the accessors use.
  - `to_i`, `strip`, `split(sep).first` and `.last`, `gsub` with a literal
    pattern, and decimal digits.
  - `Result<T>`, the value or the exception (`NoMethodError`, `TypeError`) an
    accessor raises.
- `Deadline`: the parser of a listing node's "N days left", "N hours left",
  "N minutes left" and "Funded" texts into a calendar day.
- `Extract`: each field rule, as a function of what the node's or the page's
  CSS queries return.
  - Documents are given as those strings.
  - An attribute that is absent is `None`, and reading it raises.
- `Fetch`: `fetch_details` and its retries.
  - The network is a `Network` object whose log of requests grows.
  - The k-th request made, counting every request, is answered by an oracle
    `answer(url, k)`.
- `Tiers`: the retry loop of `tiers`, on the reward elements.
  - Whether building tier j in pass p times out is an oracle `out(p, j)`.
- `Record`: every accessor as a step function from a state to an outcome and
  a new state.
  - The state is the memo fields plus the request log.
  - `Consistent` says that every memo field that is set holds what the
    accessor would compute from the page held.
  - The lemmas cover:
    - that each step keeps `Consistent`;
    - that a step fetches at most once, and never once the page is held;
    - that `to_hash` has the right keys;
    - that a second `to_hash` makes no request.
- `Kickstarter`: the class `Project`.
  - It holds the source, the base URL, the network and the memo.
  - Each method mutates the memo and the network.
  - Each method is proved to follow its step function and to keep
    `Valid()`, that is `Consistent` of the memo.

## Model

| member | source | states |
|---|---|---|
| Record.SourceOf | lib/kickstarter/project.rb:6-15 | a String argument gives a seeded record with that URL, a node a listing record with that node, and anything else raises TypeError, and only then |
| Kickstarter.Project.New | lib/kickstarter/project.rb:6-15 | `Project.new` raises TypeError exactly for an argument that is neither a String nor a node; otherwise it gives a fresh record, with the source `initialize` picks and every instance variable nil |
| Kickstarter.Project.constructor | lib/kickstarter/project.rb:6-15 | a new record has every instance variable nil and is consistent |
| Extract.ThumbnailUrl | lib/kickstarter/project.rb:202-204 | the thumbnail URL raises exactly when the node has no `.project-thumbnail img` |
| Extract.NodeId | lib/kickstarter/project.rb:17-25 | a listing record's id, when there is one, is not negative |
| Extract.IdOfThumbnail | lib/kickstarter/project.rb:20 | the id pattern matches the first `/projects/<digits>/photo-little.jpg` in the thumbnail URL, with exactly those digits |
| Extract.IdFrom | lib/kickstarter/project.rb:20 | the leftmost match at or after a position of `/projects/<digits>/photo-little.jpg`, with its digits; no match starts before it, and none at all when it gives none |
| Extract.NodeIdRoundTrip | lib/kickstarter/project.rb:17-25 | a thumbnail `.../projects/<n>/photo-little.jpg...` gives id n |
| Extract.NodeIdWithoutMarker | lib/kickstarter/project.rb:20 | a thumbnail URL without `/projects/` makes `id` raise NoMethodError (`[1]` on a nil match) |
| Extract.PageIdRoundTrip | lib/kickstarter/project.rb:22 | a seeded record's id is the number written in `.this_project_id` |
| Extract.PageId | lib/kickstarter/project.rb:22 | a seeded record's id is 0 unless `.this_project_id` holds a digit |
| Record.Missing | lib/kickstarter/project.rb:146-148 | the failure of a field read without a page is NoMethodError, or the one the listing node's URL raises |
| Record.IdValue | lib/kickstarter/project.rb:17-25 | a listing record's id is the node's rule; a seeded one raises NoMethodError exactly when there is no page |
| Record.Prepared | lib/kickstarter/project.rb:146-148 | a listing record's own fields are read without touching the state |
| Record.IdStep | lib/kickstarter/project.rb:17-25 | `id` fetches at most once, and never for a listing record |
| Record.IdMemo | lib/kickstarter/project.rb:17-25 | `id` gives the value its rule computes from the page then held, and keeps the memo consistent |
| Kickstarter.Project.Id | lib/kickstarter/project.rb:17-25 | the method's result, memo and request log are those of the `id` step; the record stays consistent |
| Extract.NodeName | lib/kickstarter/project.rb:27-29 | a listing record's name is the inner HTML of the first `h2 a`, and raises exactly when there is none |
| Record.NameValue | lib/kickstarter/project.rb:27-29 | a listing record's name is the node's rule; a seeded one raises NoMethodError exactly when there is no page |
| Record.NameStep | lib/kickstarter/project.rb:27-29 | `name` fetches at most once, and never for a listing record |
| Record.NameMemo | lib/kickstarter/project.rb:27-29 | `name` gives the value its rule computes, and keeps the memo consistent |
| Kickstarter.Project.Name | lib/kickstarter/project.rb:27-29 | the method follows the `name` step and keeps the record consistent |
| Record.DescriptionStep | lib/kickstarter/project.rb:31-33 | `description` never raises, never fetches and never touches the page |
| Record.DescriptionValue | lib/kickstarter/project.rb:31-33 | the description is present exactly for a listing record |
| Record.DescriptionMemo | lib/kickstarter/project.rb:31-33 | `description` is the node's blurb for a listing record and nil for a seeded one, and keeps the memo consistent |
| Kickstarter.Project.Description | lib/kickstarter/project.rb:31-33 | the method follows the `description` step and keeps the record consistent |
| Extract.JoinSingleSeparator | lib/kickstarter/project.rb:39 | `File.join` puts exactly one slash between base and path, whether either side already has one or not |
| Extract.ChompSlashes | lib/kickstarter/project.rb:39 | removing the trailing slashes leaves a prefix that does not end in a slash, and only slashes were removed |
| Extract.JoinPath | lib/kickstarter/project.rb:39 | `File.join` starts with the base, less its trailing slashes, and one slash, and ends with the whole path |
| Extract.UrlOfPath | lib/kickstarter/project.rb:39 | joining a path whose `split('?').first` is nil raises TypeError, and nothing else can fail |
| Extract.UrlDropsQuery | lib/kickstarter/project.rb:39 | a path with something other than `?` gives the base joined with the path up to its first `?` |
| Extract.UrlOfQueryOnly | lib/kickstarter/project.rb:39 | a path made only of `?` (or empty) makes `url` raise TypeError |
| Extract.NodeUrl | lib/kickstarter/project.rb:35-44 | a listing record's URL raises NoMethodError when the node has no `h2 a` |
| Record.UrlValue | lib/kickstarter/project.rb:35-44 | a listing record's URL is the node's rule; a seeded one raises NoMethodError without a page, and otherwise exactly when the title link is missing |
| Record.UrlStep | lib/kickstarter/project.rb:35-44 | `url` fetches at most once, and never for a listing record |
| Record.ListingUrlStep | lib/kickstarter/project.rb:35-44 | for a listing record, `url` makes no request and changes no memo field other than `url`; when it raises, it raises what the node's rule raises |
| Record.ListingUrlMemo | lib/kickstarter/project.rb:35-44 | the listing `url` gives the value its rule computes, and keeps the memo consistent |
| Kickstarter.Project.ListingUrl | lib/kickstarter/project.rb:35-44 | the listing `url` used by `details_page` follows its step, and keeps the record consistent |
| Record.UrlMemo | lib/kickstarter/project.rb:35-44 | `url` gives the value its rule computes, and keeps the memo consistent |
| Kickstarter.Project.Url | lib/kickstarter/project.rb:35-44 | the method follows the `url` step and keeps the record consistent |
| Extract.DropLineEndSlashOneLine | lib/kickstarter/project.rb:47 | on a one-line text, `gsub(/\/$/, "")` removes one trailing slash and nothing else |
| Extract.DropLineEndSlash | lib/kickstarter/project.rb:47 | `gsub(/\/$/, "")` never lengthens the text |
| Extract.HandleOf | lib/kickstarter/project.rb:46-48 | `handle` raises only NoMethodError, when `split('/projects/').last` is nil |
| Extract.HandleOfProjectUrl | lib/kickstarter/project.rb:46-48 | the handle of `<site>/projects/<h>` is h, less a trailing slash |
| Extract.HandleKeepsInnerSlash | lib/kickstarter/project.rb:46-48 | a URL ending in `//` keeps one slash in its handle |
| Extract.NodeHandleIsSlug | lib/kickstarter/project.rb:35-48 | a node linking to `/projects/<slug>?<query>` has URL `<base>/projects/<slug>` and handle slug |
| Record.HandleMemo | lib/kickstarter/project.rb:46-48 | `handle` gives the value its rule computes from `url`, and keeps the memo consistent |
| Record.HandleValue | lib/kickstarter/project.rb:46-48 | the handle raises what `url` raises, and otherwise is the handle rule applied to the URL |
| Record.HandleStep | lib/kickstarter/project.rb:46-48 | `handle` fetches at most once, and never for a listing record |
| Kickstarter.Project.Handle | lib/kickstarter/project.rb:46-48 | the method follows the `handle` step and keeps the record consistent |
| Extract.NodeOwner | lib/kickstarter/project.rb:50-58 | a listing record's owner is the name its first `h2 span` byline gives, and raises exactly when there is none |
| Extract.OwnerAsWritten | lib/kickstarter/project.rb:53 | as written, `gsub(/by/, "").strip` gives a text with no surrounding whitespace |
| Extract.OwnerName | lib/kickstarter/project.rb:53 | the corrected rule gives a text with no surrounding whitespace, no longer than the byline |
| Record.OwnerValue | lib/kickstarter/project.rb:50-58 | a listing record's owner is the node's rule; a seeded one raises NoMethodError exactly when there is no page |
| Record.OwnerStep | lib/kickstarter/project.rb:50-58 | `owner` fetches at most once, and never for a listing record |
| Extract.OwnerNameOfByline | lib/kickstarter/project.rb:53 | a byline "by <name>" with any padding gives exactly that name |
| Extract.LabelDropped | lib/kickstarter/project.rb:53 | a byline starting with the word "by" gives the rest, stripped |
| Extract.OwnerAgreesWithoutInnerBy | lib/kickstarter/project.rb:53 | when the name has no "by" in it, the code as written and the corrected rule agree |
| Extract.OwnerBobbyAsWritten | lib/kickstarter/project.rb:53 | as written, the byline "by Bobby" gives the owner "Bob" |
| Extract.OwnerCutsInnerBy | lib/kickstarter/project.rb:53 | as written, a name ending in "by" loses it |
| Extract.OwnerBobbyName | lib/kickstarter/project.rb:53 | the corrected rule gives "Bobby" for "by Bobby" |
| Record.OwnerMemo | lib/kickstarter/project.rb:50-58 | `owner` gives the value its rule computes, and keeps the memo consistent |
| Kickstarter.Project.Owner | lib/kickstarter/project.rb:50-58 | the method follows the `owner` step and keeps the record consistent |
| Extract.NodeImage | lib/kickstarter/project.rb:60-68 | a listing record's image raises exactly when the node has no thumbnail |
| Record.ImageValue | lib/kickstarter/project.rb:60-68 | a listing record's image is the node's rule; a seeded one raises NoMethodError without a page, and otherwise exactly when the video image attribute is missing |
| Record.ImageStep | lib/kickstarter/project.rb:60-68 | `image_url` fetches at most once, and never for a listing record |
| Extract.ImageOfThumbnail | lib/kickstarter/project.rb:63 | a thumbnail URL with one `photo-little.jpg` gives the same URL with `photo-full.jpg` in its place |
| Record.ImageMemo | lib/kickstarter/project.rb:60-68 | `image_url` gives the value its rule computes, and keeps the memo consistent |
| Kickstarter.Project.ImageUrl | lib/kickstarter/project.rb:60-68 | the method follows the `image_url` step and keeps the record consistent |
| Extract.NodeAmount | lib/kickstarter/project.rb:70-78 | a node with fewer than two stats items raises NoMethodError; an amount is never negative |
| Extract.AmountAfterDollar | lib/kickstarter/project.rb:73 | the pattern `\$([0-9,]+)` captures the whole run of digits and commas after the first dollar sign |
| Extract.AmountRunOf | lib/kickstarter/project.rb:73 | the captured run stops at the first character that is neither a digit nor a comma |
| Extract.AmountMatch | lib/kickstarter/project.rb:73 | a match of `\$([0-9,]+)` captures a non-empty run of digits and commas |
| Extract.WithoutCommasIsDigits | lib/kickstarter/project.rb:73 | once its commas are removed, a captured run is all digits |
| Extract.GroupedPair | lib/kickstarter/project.rb:73 | digits grouped by a comma have the value of the digits without it |
| Extract.NodeAmountOfStat | lib/kickstarter/project.rb:73 | a second stats item reading `...$<run>...` gives the value of the run without its commas |
| Extract.NodeAmountExample | lib/kickstarter/project.rb:73 | "$1,234" gives 1234 |
| Extract.FloatAttr | lib/kickstarter/project.rb:75 | `Float(attr(...).value)` raises exactly when the attribute is missing, and otherwise converts the attribute's text |
| Record.AmountMemo | lib/kickstarter/project.rb:70-78 | `pledge_amount` gives the value its rule computes, and keeps the memo consistent |
| Record.AmountValue | lib/kickstarter/project.rb:70-78 | a listing record's amount raises exactly when the node's rule does and is otherwise its number; a seeded one raises NoMethodError without a page, and otherwise exactly when the pledged attribute is missing |
| Record.AmountStep | lib/kickstarter/project.rb:70-78 | `pledge_amount` fetches at most once, and never for a listing record |
| Kickstarter.Project.PledgeAmount | lib/kickstarter/project.rb:70-78 | the method follows the `pledge_amount` step and keeps the record consistent |
| Extract.NodePercentOfFirst | lib/kickstarter/project.rb:83 | the percent is the leading number, commas removed, of the strong texts joined, when the first one starts with digits |
| Extract.NodePercent | lib/kickstarter/project.rb:83 | a listing record's percent is 0 unless its strong texts hold a digit |
| Record.PercentValue | lib/kickstarter/project.rb:80-88 | a listing record's percent never raises; a seeded one raises NoMethodError without a page, and otherwise exactly when the percent attribute is missing |
| Record.PercentStep | lib/kickstarter/project.rb:80-88 | `pledge_percent` fetches at most once, and never for a listing record |
| Record.PercentMemo | lib/kickstarter/project.rb:80-88 | `pledge_percent` gives the value its rule computes, and keeps the memo consistent |
| Kickstarter.Project.PledgePercent | lib/kickstarter/project.rb:80-88 | the method follows the `pledge_percent` step and keeps the record consistent |
| Deadline.FirstDigitRun | lib/kickstarter/project.rb:99 | `/\d+/` matches exactly when the text has a digit, and then yields a non-empty run of digits |
| Deadline.FirstDigitRunAfter | lib/kickstarter/project.rb:99 | `/\d+/` on a digit-free prefix, a digit run and a rest not starting with a digit matches exactly that run |
| Deadline.DigitRunSplit | lib/kickstarter/project.rb:99 | every text with a digit splits into a digit-free prefix, a maximal digit run and the rest, so the lemma above fixes the match on every such text |
| Deadline.CountAfter | lib/kickstarter/project.rb:99 | `match(/\d+/)[0].to_i` is the value of the first digit run, wherever it starts in the text |
| Deadline.ShapeOf | lib/kickstarter/project.rb:96-106 | the tests run in the source's order: Funded exactly when "Funded" is present; hours exactly when "hour left" or "hours left" is present and "Funded" is not; days exactly when "days left" is present and none of the earlier phrases is; minutes exactly when "minute left" or "minutes left" is present and none of the earlier phrases is; no branch exactly when none of the phrases is present |
| Deadline.FundedDeadline | lib/kickstarter/project.rb:96-97 | the Funded branch raises only NoMethodError, and otherwise gives a date text with no surrounding whitespace |
| Deadline.Count | lib/kickstarter/project.rb:99 | the count of a relative deadline exists exactly when the text has a digit, and is not negative |
| Deadline.DayAfter | lib/kickstarter/project.rb:98-105 | a relative deadline is never before the day of the observation instant |
| Deadline.ParseDeadline | lib/kickstarter/project.rb:93-107 | the deadline is nil exactly when no branch matches, and a relative deadline is never before today |
| Deadline.DaysBranch | lib/kickstarter/project.rb:101 | a text with "days left" that has no letter "F" and no letter "h" takes the days branch |
| Deadline.HoursBranch | lib/kickstarter/project.rb:98 | a text with "hour left" or "hours left" that has no letter "F" takes the hours branch |
| Deadline.MinutesBranch | lib/kickstarter/project.rb:103 | a text with "minute left" or "minutes left" that has none of the letters "F", "h" and "d" takes the minutes branch |
| Deadline.NoBranch | lib/kickstarter/project.rb:96-106 | a text that has none of the letters "F", "h", "s" and "m" matches no branch |
| Deadline.RelativeParse | lib/kickstarter/project.rb:98-105 | a relative branch gives the day of now plus the count in that unit |
| Deadline.CountOfPhrase | lib/kickstarter/project.rb:99 | the count of "<n> <unit>" is n |
| Deadline.DaysLeftPhrase | lib/kickstarter/project.rb:101-102 | "<n> days left" is n days after today |
| Deadline.HoursLeftPhrase | lib/kickstarter/project.rb:98-100 | "<n> hour(s) left" is the day of now plus n hours |
| Deadline.MinutesLeftPhrase | lib/kickstarter/project.rb:103-105 | "<n> minute(s) left" is the day of now plus n minutes |
| Deadline.DayLeftSingularIsNil | lib/kickstarter/project.rb:96-106 | "<n> day left" matches no branch and gives nil |
| Deadline.FundedField | lib/kickstarter/project.rb:97 | in "<strong>Funded</strong> <date>" with no `<` in the date, `split('<strong>Funded</strong>').last` is the text after the marker |
| Deadline.FundedPhrase | lib/kickstarter/project.rb:96-97 | "<strong>Funded</strong> <date>" gives the date text after the marker, stripped |
| Deadline.TwoDaysLeftExample | lib/kickstarter/project.rb:101-102 | "2 days left" at 2020-01-01T00:00Z is day 18264 |
| Deadline.FiveHoursLeftExample | lib/kickstarter/project.rb:98-100 | "5 hours left" stays on the same day early in a day and rolls over late in it |
| Deadline.FortyFiveMinutesLeftExample | lib/kickstarter/project.rb:103-105 | "45 minutes left" at 23:50 gives the next day |
| Deadline.OneDayLeftExample | lib/kickstarter/project.rb:96-106 | "1 day left" gives nil |
| Extract.NodeDeadline | lib/kickstarter/project.rb:93-107 | a node without stats items raises NoMethodError; a relative deadline is never before today |
| Extract.DateOf | lib/kickstarter/project.rb:109 | `to_date` of an instant is the day that contains it |
| Extract.PageEndTime | lib/kickstarter/project.rb:154-156 | the exact deadline raises exactly when `data-end_time` is missing, and otherwise is the instant it gives |
| Record.DeadlineStep | lib/kickstarter/project.rb:90-111 | for a listing record, `pledge_deadline` gives the memo when set and the node's deadline otherwise, making no request |
| Record.DeadlineMemo | lib/kickstarter/project.rb:90-111 | for a seeded record `pledge_deadline` is the day of the exact deadline; the memo stays consistent |
| Record.SeedDeadlineValue | lib/kickstarter/project.rb:109 | a seeded record's deadline raises exactly when the exact deadline does, and is otherwise a calendar day |
| Record.ListingDeadlineMemo | lib/kickstarter/project.rb:93-107 | a nil deadline is not kept (`||=`), so a later call parses again at its own instant; a deadline found is kept |
| Kickstarter.Project.PledgeDeadline | lib/kickstarter/project.rb:90-111 | the method follows the `pledge_deadline` step and keeps the record consistent |
| Fetch.Repeat | lib/kickstarter/project.rb:210-218 | n requests for a URL are n copies of it |
| Fetch.FetchFrom | lib/kickstarter/project.rb:210-218 | the attempts left make at least one more request and at most three in all |
| Fetch.FetchPage | lib/kickstarter/project.rb:210-218 | `fetch_details` makes between one and three requests |
| Fetch.GivesUpFrom | lib/kickstarter/project.rb:212-217 | from any attempt on, the fetch gives nil exactly when every remaining attempt times out, and then it has made all three |
| Fetch.GivesUp | lib/kickstarter/project.rb:210-218 | `fetch_details` is nil exactly when all three requests time out |
| Fetch.ServedFrom | lib/kickstarter/project.rb:212-217 | from any attempt on, a page returned is the answer to the last request, and the earlier ones timed out |
| Fetch.ServedPage | lib/kickstarter/project.rb:210-218 | a page returned is the answer to the first request that was not a time-out |
| Fetch.Network.Open | lib/kickstarter/project.rb:213 | one request: logged, and answered by the oracle for that URL and request number |
| Fetch.FetchDetails | lib/kickstarter/project.rb:210-218 | the retry loop returns the page of the fetch specification and logs exactly its requests |
| Record.FetchBoundTrans | lib/kickstarter/project.rb:146-148 | "at most one fetch, none once the page is held" composes across two calls when the first did not raise |
| Record.PageStep | lib/kickstarter/project.rb:146-148 | `details_page` makes at most three requests; with a page held it returns it and changes nothing; it holds what it returns; it raises only for a listing record whose URL raises, without a request |
| Record.NeedPageStep | lib/kickstarter/project.rb:146-148 | querying `details_page` fetches at most once and raises exactly when no page is held afterwards |
| Record.PageMemo | lib/kickstarter/project.rb:146-148 | `details_page` keeps the memo consistent |
| Record.NeedPageMemo | lib/kickstarter/project.rb:146-148 | querying `details_page` keeps the memo consistent, and a failure is the one its source raises |
| Record.PageKept | lib/kickstarter/project.rb:146-148 | once a page is fetched, `details_page` returns it again with no request |
| Record.NilPageFetchedAgain | lib/kickstarter/project.rb:146-148 | a seeded record whose fetch gave nil made three requests, holds no page, and fetches again on the next call |
| Kickstarter.Project.DetailsPage | lib/kickstarter/project.rb:146-148 | the method follows the `details_page` step and keeps the record consistent |
| Kickstarter.Project.LoadedPage | lib/kickstarter/project.rb:146-148 | querying `details_page` follows its step; nil raises NoMethodError |
| Record.GoalMemo | lib/kickstarter/project.rb:150-152 | `pledge_goal` gives the value its rule computes, and keeps the memo consistent |
| Record.GoalValue | lib/kickstarter/project.rb:150-152 | `pledge_goal` raises the page failure without a page, and otherwise exactly when the goal attribute is missing |
| Record.GoalStep | lib/kickstarter/project.rb:150-152 | `pledge_goal` fetches at most once |
| Kickstarter.Project.PledgeGoal | lib/kickstarter/project.rb:150-152 | the method follows the `pledge_goal` step and keeps the record consistent |
| Record.EndTimeMemo | lib/kickstarter/project.rb:154-156 | `exact_pledge_deadline` gives the value its rule computes, and keeps the memo consistent |
| Record.EndTimeValue | lib/kickstarter/project.rb:154-156 | `exact_pledge_deadline` raises the page failure without a page, and otherwise exactly when `data-end_time` is missing |
| Record.EndTimeStep | lib/kickstarter/project.rb:154-156 | `exact_pledge_deadline` fetches at most once |
| Kickstarter.Project.ExactPledgeDeadline | lib/kickstarter/project.rb:154-156 | the method follows the `exact_pledge_deadline` step and keeps the record consistent |
| Record.ShortUrlMemo | lib/kickstarter/project.rb:167-169 | `short_url` gives the value its rule computes, and keeps the memo consistent |
| Record.ShortUrlValue | lib/kickstarter/project.rb:167-169 | `short_url` raises the page failure without a page, and otherwise exactly when the short URL attribute is missing |
| Record.ShortUrlStep | lib/kickstarter/project.rb:167-169 | `short_url` fetches at most once |
| Kickstarter.Project.ShortUrl | lib/kickstarter/project.rb:167-169 | the method follows the `short_url` step and keeps the record consistent |
| Record.AboutMemo | lib/kickstarter/project.rb:171-179 | `about` gives the value its rule computes, and keeps the memo consistent |
| Record.AboutValue | lib/kickstarter/project.rb:171-179 | `about` succeeds exactly when a page is held, and otherwise raises the page failure |
| Record.AboutStep | lib/kickstarter/project.rb:171-179 | `about` fetches at most once |
| Kickstarter.Project.About | lib/kickstarter/project.rb:171-179 | the method follows the `about` step and keeps the record consistent |
| Tiers.PassEnd | lib/kickstarter/project.rb:186-188 | a pass stops at the first element whose tier times out, or after the last |
| Tiers.Collect | lib/kickstarter/project.rb:181-194 | the passes keep what earlier passes appended, add only reward elements, and add at most one pass's worth each |
| Tiers.TierList | lib/kickstarter/project.rb:181-194 | `tiers` holds at most three times as many tiers as there are rewards, each built from a reward element |
| Tiers.PassStops | lib/kickstarter/project.rb:184-192 | a pass either ends the loop with what it appended, or hands it to the next pass, or ends the loop after the third |
| Tiers.BuildPass | lib/kickstarter/project.rb:186-188 | one pass appends the reward elements in order, up to the first time-out |
| Tiers.CleanPass | lib/kickstarter/project.rb:184-193 | a pass with no time-out ends the loop with every element appended |
| Tiers.NoTimeOut | lib/kickstarter/project.rb:181-194 | without time-outs, `tiers` has one tier per reward element, in order |
| Tiers.EndsWithAll | lib/kickstarter/project.rb:181-194 | when some pass runs clean, the result ends with every reward element, in order |
| Tiers.RetryKeepsPartialPass | lib/kickstarter/project.rb:183-191 | a time-out does not clear `results`: rewards a, b with a time-out on b in the first pass give a, a, b |
| Record.TiersStep | lib/kickstarter/project.rb:181-194 | `tiers` fetches at most once, changes no memo field other than the page and the URL, and gives the tier list of the page it holds |
| Record.TiersMemo | lib/kickstarter/project.rb:181-194 | `tiers` keeps the memo consistent |
| Kickstarter.Project.Tiers | lib/kickstarter/project.rb:181-194 | the retry loop follows the `tiers` step and keeps the record consistent |
| Record.IdentityStep | lib/kickstarter/project.rb:114-119 | the first five values of the hash have keys id, name, handle, url and description, and cost at most one fetch |
| Record.PledgeStep | lib/kickstarter/project.rb:120-124 | the next five values have keys owner, pledge amount, percent and deadline, and image URL, and cost at most one fetch |
| Record.BaseStep | lib/kickstarter/project.rb:114-125 | the ten values every record reports, with at most one fetch, none for a listing record |
| Record.ExtraStep | lib/kickstarter/project.rb:126-135 | the five extra values have keys pledge goal, exact deadline, short URL, about and tiers |
| Record.ToHashStep | lib/kickstarter/project.rb:113-137 | `to_hash` has the ten keys, plus the five extra keys exactly for a seeded record; it fetches at most once, and never for a listing record |
| Record.SecondHashOffline | lib/kickstarter/project.rb:113-137 | once `to_hash` of a consistent seeded record succeeds, a second `to_hash` makes no request |
| Kickstarter.Project.IdentityValues | lib/kickstarter/project.rb:114-119 | the method follows the step for the first five values |
| Kickstarter.Project.PledgeValues | lib/kickstarter/project.rb:120-124 | the method follows the step for the next five values |
| Kickstarter.Project.BaseValues | lib/kickstarter/project.rb:114-125 | the method follows the step for the ten base values |
| Kickstarter.Project.ExtraValues | lib/kickstarter/project.rb:126-135 | the method follows the step for the five extra values |
| Kickstarter.Project.ToHash | lib/kickstarter/project.rb:113-137 | the method follows the `to_hash` step and keeps the record consistent |
| RubyText.DecimalRoundTrip | lib/kickstarter/project.rb:22 | reading back the decimal digits of n gives n |
| RubyText.ToIOfDigits | lib/kickstarter/project.rb:22 | `to_i` reads the leading digits and ignores what follows them |
| RubyText.ToI | lib/kickstarter/project.rb:22 | `to_i` is 0 unless the text holds a digit |
| RubyText.StripPadded | lib/kickstarter/project.rb:53 | `strip` removes exactly the white space and NUL around a text that has none at either end |
| RubyText.Strip | lib/kickstarter/project.rb:53 | `strip` never lengthens a text, leaves no white space or NUL at either end, and leaves a text without them as it is |
| RubyText.FindFrom | lib/kickstarter/project.rb:20 | a search finds the first occurrence at or after its start, or reports that there is none |
| RubyText.Split | lib/kickstarter/project.rb:39 | no field of `split(sep)` contains the separator |
| RubyText.BeforeFirstLacks | lib/kickstarter/project.rb:39 | the text before the first separator does not contain it |
| RubyText.FirstField | lib/kickstarter/project.rb:39 | `split(sep).first`, when not nil, does not contain the separator |
| RubyText.LastField | lib/kickstarter/project.rb:47 | `split(sep).last`, when not nil, is not empty and does not contain the separator |
| RubyText.FirstFieldBefore | lib/kickstarter/project.rb:39 | `split('?').first` is the text before the first `?`, and nil when the text is only `?` or empty |
| RubyText.LastFieldAfter | lib/kickstarter/project.rb:47 | `split('/projects/').last` is the text after the only separator |
| RubyText.DeleteAllIsWithout | lib/kickstarter/project.rb:73 | `gsub(/,/, "")` removes every comma and nothing else |
| RubyText.WithoutDigits | lib/kickstarter/project.rb:73 | removing every comma adds no digit |
| RubyText.ReplaceFirst | lib/kickstarter/project.rb:63 | `gsub` replaces the first occurrence and goes on after it |
| RubyText.ReplaceAll | lib/kickstarter/project.rb:63 | `gsub` of an absent pattern changes nothing |

## Left out

- Floating point: `Float(...)` and the `* 1.0` of a listing record's percent
  are not modelled.
  - A details-page amount, percent or goal is kept as the attribute's text.
  - The ArgumentError that `Float` raises on text that is not a number is not
    modelled.
- `Date.parse` of the date after the Funded marker is not modelled; the
  deadline keeps that text. `Time.parse` of `data-end_time` is given as an
  instant in the page. Days are counted in UTC.
- Nokogiri is not part of this model.
  - Documents are the strings their CSS queries return.
  - The removal of `h3.dotty` from `#about` is taken as done in the `about`
    text.
- `open(url)` is not part of this model. The network is an oracle parameter,
  which gives a page or a time-out per request.
- `Kickstarter::BASE_URL` is a parameter, and so is `Time.now`.
- `Kickstarter::Tier`, `Tier#to_hash` and the exported tier values are not
  modelled. A tier is the reward element it is built from, and whether
  building it times out is an oracle.
- `inspect`, `duration` and `launched_at` are not modelled. They read no
  state beyond what is modelled and state nothing further.
- `RubyText.ToI`: the underscores that Ruby's `to_i` accepts between digits
  are not modelled.
- The instance variables are one memo record, not separate variables.
- Concurrency: a record is used from one thread.
- The `tiers` method collects each pass's tiers before it appends them to
  `results`, rather than appending them one at a time. The result is the
  same.
- `Record.Consistent`: a listing record's deadline memo is not constrained.
  It depends on the instant of the call that set it.
- A handle can keep a slash at its end. One might expect a handle never to
  end in a slash, but the code removes only one slash before a line end, so `.../projects/x//` gives `x/`. The model follows the code
  (`Extract.HandleKeepsInnerSlash`).
- Extract.NodeOwner: a listing record's owner follows the corrected rule
  `Extract.OwnerName`, not the `gsub(/by/, "").strip` of line 53
  (`Extract.OwnerAsWritten`); see "## Findings". The two agree on a name
  with no "by" in it (`Extract.OwnerAgreesWithoutInnerBy`).
- Record.OwnerValue: follows `Extract.NodeOwner`, so a listing owner uses the
  corrected rule rather than the code as written.
- Record.OwnerStep: follows `Record.OwnerValue`, with the corrected rule.
- Record.OwnerMemo: the value it keeps is that of `Record.OwnerValue`, with the
  corrected rule.
- Kickstarter.Project.Owner: follows `Record.OwnerStep`, with the corrected
  rule.
- A deadline text that matches no branch gives nil, which is not kept, rather
  than an error. The model follows the code (`Deadline.DayLeftSingularIsNil`).

## Findings

| source | as written | input that shows it | evidently intended | confidence | as-written member | corrected member |
|---|---|---|---|---|---|---|
| lib/kickstarter/project.rb:53 | `gsub(/by/, "")` deletes every "by" in the byline, including those inside the owner's name | the byline "by Bobby" gives the owner "Bob" | drop only the leading "by" label, giving "Bobby" | high (not executed) | Extract.OwnerAsWritten | Extract.OwnerName |
