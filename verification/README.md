# skybiz-lunch-go, modelled in Dafny

The program (`main.go`) reports today's lunch-menu images from three
restaurant feeds. First it asks a status service whether today has already
been reported. If not, it fetches each feed and takes the media of the first
image post made since today's midnight (Asia/Seoul). For each source it picks
one media URL by a per-source rule: the last item for one source, the first
for the other two. It gathers one entry per source name, with `""` for a
source that gave nothing. If at least one entry is non-empty, it uploads the
whole map.

This project models that decision logic. Network calls and JSON decoding are
replaced by their decoded outcomes, which the model takes as inputs:

- `outcomes.dfy`, module `Outcomes`: the error values, `Result`, `Option` and Go's `int64`.
- `feed.dfy`, module `Feed`: `getImage`. It has the decoded structs
  (`PostsData`, `ItemsData`, `MediaData`) and the scan that stops at the first
  candidate, written as a method with a loop. It also has the per-key choice,
  which is checked against a lookup table `PickPolicy` (`First`/`Last`).
  Lemmas pin down which post is used. A `FeedClient` object holds the feed
  responses and records, in a ghost field `requested`, every key a request was
  issued for.
- `completion.dfy`, module `Completion`: `checkWorkDone`, written as a method
  whose loop returns early. It is proved equal to a quantifier over the target
  names.
- `fanout.dfy`, module `FanOut`: `fetchAllImages`. The goroutines become a
  loop that visits the target names in any order and calls the client's
  `GetImage` once for each one.
- `pipeline.dfy`, module `Pipeline`: the gate in `main`. A failed check counts
  as "not done". No feed is requested on a day already done. The upload
  happens only when some entry is non-empty. Three client methods walk
  through concrete days.

The model takes these inputs:

- The decoded status response: `Result<CheckResponseData>`.
- Each feed's decoded response, as a function from source key to
  `Result<PostsData>`, held by the `FeedClient`.
- Today's midnight, in epoch milliseconds.

## Model

| member | source | states |
|---|---|---|
| `Feed.SelectUrl` | main.go:128-138 | The result is a URL exactly when the key is one of the three known sources. That URL is the large URL of the last media item for `_FxbaQC` and of the first item for `_CiVis` and `_vKxgdn`, as the policy table says. Any other key gives the "no image found" error. |
| `Feed.PickTodaysImage` | main.go:102-138 | A failed request or decode passes through as an error. The scan stops at the first post dated at or after midnight of type "image". The method returns the same value as the specification `FeedImage`: an empty feed is "no items", a missing candidate or an empty media list is "no image", otherwise the key's choice. |
| `Feed.FeedClient.GetImage` | main.go:82-139 | Exactly one request is recorded, for `key`'s feed. The result is `FeedImage` of that feed's response. |
| `Feed.TodayMediaIsFirstMatch` | main.go:116-122 | The media list the scan keeps is that of the first candidate post. It is empty when no post qualifies. |
| `Feed.TodaysImageAtFirstMatch` | main.go:116-138 | When post `i` is the first candidate, the result is "no image found" if its media list is empty, even if a later candidate has media. Otherwise it is the key's choice from post `i`'s media. |
| `Feed.TodaysImageWithoutMatch` | main.go:108-126 | If no post qualifies, the result is an error. An empty feed gives "no items found". A non-empty feed gives "no image found", however many older or non-image posts it holds. |
| `Feed.TodaysImageComesFromFirstMatch` | main.go:116-138 | A successful result comes from the first candidate post, that post's media list is non-empty, and the key is a known source. No post dated before midnight and no non-image post is ever the source. |
| `Feed.NonQualifyingPrefixIgnored` | main.go:117-121 | Putting any number of non-qualifying posts in front of a feed does not change the media list that is picked. |
| `Feed.LaterPostsIgnored` | main.go:116-126 | Once a feed holds a candidate, appending posts after it changes neither the picked media nor the result. |
| `Completion.CheckWorkDone` | main.go:51-80 | A failed request or decode gives an error. Otherwise the answer is true exactly when every target name is present in the status map with a non-empty value, whatever order the names are visited in. |
| `Completion.EmptyTargetIsDone` | main.go:73-79 | With no target names, the check passes for any status map. |
| `Completion.MissingNameIsNotDone` | main.go:73-79 | One target name that is missing or empty makes `AllReported` false. For a decoded response, `CheckWorkDone` then returns `Ok(false)`, an answer and not an error. |
| `FanOut.Entry` | main.go:153-157 | A source's entry is non-empty exactly when its fetch succeeded with a non-empty URL, and then it is that URL. |
| `FanOut.FetchAllImages` | main.go:141-162 | The result has exactly the target's names as keys. Each entry is the outcome of `getImage` on that name's feed, or `""` on error or an empty URL. Exactly one feed request is issued per target name, for that name's key, in some order, and no other request. |
| `FanOut.AggregateIsUnique` | main.go:145-160 | Any two maps that meet the aggregation's postcondition are equal, so the visiting order cannot change the result. |
| `FanOut.SomeEntryFoundIff` | main.go:145-161 | The aggregate has a non-empty entry exactly when some target source's feed yields a non-empty URL for today. |
| `Pipeline.SearchTargetSourcesKnown` | main.go:187-191 | The three tracked sources have distinct keys. Their keys are exactly the keys with a selection rule, so none hits the unknown-key error. |
| `Pipeline.Run` | main.go:198-227 | The run ends in `WorkDone` exactly when the check succeeded and reported every name. In that case no feed request is issued and nothing is uploaded. A failed check counts as not done. In every other case one request goes to each target's feed, the map is the full aggregate, and `uploadImage` is called exactly when some entry is non-empty. |

## Left out

- HTTP requests, status-code checks and body reading (main.go:53-65, 85-100, 170-179) are network I/O. Their outcomes are inputs: an `Err(Transport)`, `Err(BadStatus)` or `Err(Decode)` result.
- JSON decoding and encoding (main.go:67-71, 102-106, 165) are replaced by the decoded datatypes. A JSON `null` list or map is the empty `seq` or `map`.
- `uploadImage` (main.go:164-180) is not modelled beyond the decision to call it. Its failure is only logged by `main`.
- The clock and time-zone computation of today's midnight (main.go:49, 112-113) depends on the wall clock and the tz database. Midnight is a parameter. The model uses one value for the whole run, while each goroutine computes its own and so could straddle midnight.
- Goroutines, `sync.WaitGroup`, the mutex and the 15-second context deadline (main.go:142-160, 194) are about concurrency. They become a sequential loop in an unspecified order. A request cut off by the deadline is a failed feed response.
- The HTTP client configuration (main.go:19-28) and zerolog logging, including the log line in `getImage`, are left out. They have no effect on the decisions modelled.
- Go's `"no image found"` error is used both for an empty media list and for an unknown key. The model keeps this as a single `NoImage` error.
