/**
 * The feed client (`getImage`): given a source's decoded post list, pick the
 * media of the first image post created on or after today's midnight, then
 * pick one URL from it according to the source key.
 *
 * The HTTP request, the status check and the JSON decoding are not modelled;
 * their outcome is the `response` parameter. Today's midnight, which the
 * program derives from the wall clock in the Asia/Seoul zone, is the
 * `midnight` parameter (epoch milliseconds).
 */
module Feed {
  import opened Outcomes

  datatype MediaData = MediaData(mediaType: string, largeUrl: string)

  datatype ItemsData = ItemsData(createdAt: int64, media: seq<MediaData>, itemType: string)

  /** A decoded feed; a JSON `null` or missing list decodes to the empty sequence. */
  datatype PostsData = PostsData(items: seq<ItemsData>)

  /** Source keys of the three feeds the program knows. */
  const UncleKey := "_FxbaQC"
  const MouseKey := "_CiVis"
  const JundamKey := "_vKxgdn"

  /** Which media item a source's daily post carries its menu in. */
  datatype Pick = First | Last

  /** The per-source selection policy, as a table: the reference the
      if-chain of `SelectUrl` is checked against. */
  const PickPolicy: map<string, Pick> := map[UncleKey := Last, MouseKey := First, JundamKey := First]

  /** A post is a candidate when it is dated today (at or after midnight) and is an image post. */
  predicate Qualifies(item: ItemsData, midnight: int64) {
    item.createdAt >= midnight && item.itemType == "image"
  }

  /** `i` is the index of the first candidate post. */
  predicate IsFirstQualifying(items: seq<ItemsData>, midnight: int64, i: int) {
    && 0 <= i < |items|
    && Qualifies(items[i], midnight)
    && forall j :: 0 <= j < i ==> !Qualifies(items[j], midnight)
  }

  predicate NoneQualifies(items: seq<ItemsData>, midnight: int64) {
    forall j :: 0 <= j < |items| ==> !Qualifies(items[j], midnight)
  }

  /** The media list of the first candidate post, or the empty list when there is none. */
  function TodayMedia(items: seq<ItemsData>, midnight: int64): (m: seq<MediaData>) {
    if items == [] then []
    else if Qualifies(items[0], midnight) then items[0].media
    else TodayMedia(items[1..], midnight)
  }

  /** The per-key choice between the last and the first media item. */
  function SelectUrl(key: string, todayMedia: seq<MediaData>): (r: Result<string>)
    requires |todayMedia| > 0
    ensures r.Ok? <==> key in PickPolicy
    ensures key !in PickPolicy ==> r == Err(NoImage)
    ensures key in PickPolicy ==>
      r.value == todayMedia[if PickPolicy[key] == Last then |todayMedia| - 1 else 0].largeUrl
  {
    if key == UncleKey then Ok(todayMedia[|todayMedia| - 1].largeUrl)
    else if key == MouseKey then Ok(todayMedia[0].largeUrl)
    else if key == JundamKey then Ok(todayMedia[0].largeUrl)
    else Err(NoImage)
  }

  /** What `getImage` yields for a decoded, non-failing feed. */
  function TodaysImage(items: seq<ItemsData>, midnight: int64, key: string): (r: Result<string>) {
    if |items| == 0 then Err(NoItems)
    else
      var todayMedia := TodayMedia(items, midnight);
      if |todayMedia| == 0 then Err(NoImage) else SelectUrl(key, todayMedia)
  }

  /** What `getImage` yields, failures of the request and of decoding included. */
  function FeedImage(response: Result<PostsData>, midnight: int64, key: string): (r: Result<string>) {
    match response
    case Err(e) => Err(e)
    case Ok(data) => TodaysImage(data.items, midnight, key)
  }

  /** The part of `getImage` after the request: walk the posts in order, keep
      the media of the first candidate and stop; then choose the URL by source key. */
  method PickTodaysImage(response: Result<PostsData>, midnight: int64, key: string) returns (r: Result<string>)
    ensures r == FeedImage(response, midnight, key)
  {
    if response.Err? {
      return Err(response.error);
    }
    var items := response.value.items;
    if |items| == 0 {
      return Err(NoItems);
    }
    var todayMedia: seq<MediaData> := [];
    var i := 0;
    while i < |items|
      invariant 0 <= i <= |items|
      invariant todayMedia == []
      invariant forall j :: 0 <= j < i ==> !Qualifies(items[j], midnight)
    {
      if items[i].createdAt >= midnight && items[i].itemType == "image" {
        todayMedia := items[i].media;
        TodayMediaIsFirstMatch(items, midnight);
        assert IsFirstQualifying(items, midnight, i);
        break;
      }
      i := i + 1;
    }
    TodayMediaIsFirstMatch(items, midnight);
    assert todayMedia == TodayMedia(items, midnight);
    if |todayMedia| == 0 {
      return Err(NoImage);
    }
    r := SelectUrl(key, todayMedia);
  }

  /** The feed client. `feeds(key)` is the decoded outcome of the request for
      `key`'s posts; `requested` records, in order, every key a request was
      issued for, so that callers can state which feeds they touched. */
  class FeedClient {
    const feeds: string -> Result<PostsData>
    ghost var requested: seq<string>

    constructor (feeds: string -> Result<PostsData>)
      ensures this.feeds == feeds && requested == []
    {
      this.feeds := feeds;
      requested := [];
    }

    /** `getImage`: one request for `key`'s feed, then the selection. */
    method GetImage(midnight: int64, key: string) returns (r: Result<string>)
      modifies this
      ensures requested == old(requested) + [key]
      ensures r == FeedImage(feeds(key), midnight, key)
    {
      requested := requested + [key];
      r := PickTodaysImage(feeds(key), midnight, key);
    }
  }

  /** `TodayMedia` is the media of the first candidate post, and empty when no post qualifies. */
  lemma {:induction false} TodayMediaIsFirstMatch(items: seq<ItemsData>, midnight: int64)
    ensures forall i :: IsFirstQualifying(items, midnight, i) ==> TodayMedia(items, midnight) == items[i].media
    ensures NoneQualifies(items, midnight) ==> TodayMedia(items, midnight) == []
  {
    if items != [] && !Qualifies(items[0], midnight) {
      var rest := items[1..];
      TodayMediaIsFirstMatch(rest, midnight);
      forall i | IsFirstQualifying(items, midnight, i)
        ensures TodayMedia(items, midnight) == items[i].media
      {
        assert IsFirstQualifying(rest, midnight, i - 1);
      }
      if NoneQualifies(items, midnight) {
        assert NoneQualifies(rest, midnight) by {
          forall j | 0 <= j < |rest| ensures !Qualifies(rest[j], midnight) {
            assert rest[j] == items[j + 1];
          }
        }
      }
    }
  }

  /** Result of `getImage` when post `i` is the first candidate: the error for
      an empty media list, or the key's choice from that post's media. Nothing
      after post `i` plays a part. */
  lemma TodaysImageAtFirstMatch(items: seq<ItemsData>, midnight: int64, key: string, i: int)
    requires IsFirstQualifying(items, midnight, i)
    ensures |items[i].media| == 0 ==> TodaysImage(items, midnight, key) == Err(NoImage)
    ensures |items[i].media| > 0 ==> TodaysImage(items, midnight, key) == SelectUrl(key, items[i].media)
  {
    TodayMediaIsFirstMatch(items, midnight);
  }

  /** With no candidate post the result is an error, however many posts dated
      before midnight or of another type the feed holds. */
  lemma TodaysImageWithoutMatch(items: seq<ItemsData>, midnight: int64, key: string)
    requires NoneQualifies(items, midnight)
    ensures TodaysImage(items, midnight, key) == Err(if |items| == 0 then NoItems else NoImage)
  {
    TodayMediaIsFirstMatch(items, midnight);
  }

  /** A successful result is a URL taken from the media of the first candidate
      post; no earlier-dated or non-image post is ever the source. */
  lemma TodaysImageComesFromFirstMatch(items: seq<ItemsData>, midnight: int64, key: string)
    requires TodaysImage(items, midnight, key).Ok?
    ensures exists i ::
      && IsFirstQualifying(items, midnight, i)
      && |items[i].media| > 0
      && TodaysImage(items, midnight, key) == SelectUrl(key, items[i].media)
    ensures key in PickPolicy
  {
    if NoneQualifies(items, midnight) {
      TodaysImageWithoutMatch(items, midnight, key);
      assert false;
    }
    var i :| 0 <= i < |items| && Qualifies(items[i], midnight);
    var k := FirstQualifyingIndex(items, midnight, i);
    TodaysImageAtFirstMatch(items, midnight, key, k);
  }

  /** Some candidate exists at or before `i`; return the first one. */
  lemma {:induction false} FirstQualifyingIndex(items: seq<ItemsData>, midnight: int64, i: int) returns (k: int)
    requires 0 <= i < |items| && Qualifies(items[i], midnight)
    ensures IsFirstQualifying(items, midnight, k) && k <= i
    decreases i
  {
    if exists j :: 0 <= j < i && Qualifies(items[j], midnight) {
      var j :| 0 <= j < i && Qualifies(items[j], midnight);
      k := FirstQualifyingIndex(items, midnight, j);
    } else {
      k := i;
    }
  }

  /** Posts that do not qualify, placed before the feed, change nothing about
      which media list is picked. */
  lemma {:induction false} NonQualifyingPrefixIgnored(pre: seq<ItemsData>, items: seq<ItemsData>, midnight: int64)
    requires NoneQualifies(pre, midnight)
    ensures TodayMedia(pre + items, midnight) == TodayMedia(items, midnight)
  {
    if pre == [] {
      assert pre + items == items;
    } else {
      assert (pre + items)[0] == pre[0] && !Qualifies(pre[0], midnight);
      assert (pre + items)[1..] == pre[1..] + items;
      assert NoneQualifies(pre[1..], midnight) by {
        forall j | 0 <= j < |pre[1..]| ensures !Qualifies(pre[1..][j], midnight) {
          assert pre[1..][j] == pre[j + 1];
        }
      }
      NonQualifyingPrefixIgnored(pre[1..], items, midnight);
    }
  }

  /** Once a feed holds a candidate post, later posts never matter, even when
      the first candidate's media list is empty and a later one's is not. */
  lemma {:induction false} LaterPostsIgnored(items: seq<ItemsData>, later: seq<ItemsData>, midnight: int64, key: string)
    requires !NoneQualifies(items, midnight)
    ensures TodayMedia(items + later, midnight) == TodayMedia(items, midnight)
    ensures TodaysImage(items + later, midnight, key) == TodaysImage(items, midnight, key)
  {
    assert items != [];
    assert (items + later)[0] == items[0];
    if !Qualifies(items[0], midnight) {
      assert (items + later)[1..] == items[1..] + later;
      assert !NoneQualifies(items[1..], midnight) by {
        var j :| 0 <= j < |items| && Qualifies(items[j], midnight);
        assert j > 0 && items[1..][j - 1] == items[j];
      }
      LaterPostsIgnored(items[1..], later, midnight, key);
    }
  }
}
