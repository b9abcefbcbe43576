/**
 * The run performed by `main`: ask the status service whether today is done;
 * if not, fetch every source and upload the collected map when at least one
 * source produced an image.
 *
 * The upload request is not modelled: `Upload(data)` records that the map was
 * handed to `uploadImage`, whose own failure `main` only logs.
 */
module Pipeline {
  import opened Outcomes
  import opened Feed
  import opened Completion
  import opened FanOut

  datatype RunOutcome =
    | WorkDone                               // nothing fetched, nothing uploaded
    | NoImageFound(data: map<string, string>) // fetched, but nothing worth uploading
    | Upload(data: map<string, string>)       // `uploadImage(data)` is called

  /** The three sources the program tracks, by name. */
  const SearchTarget: map<string, string> := map["uncle" := UncleKey, "mouse" := MouseKey, "jundam" := JundamKey]

  /** Every tracked source has a selection rule, and no two names share a
      feed: in the deployed program `getImage` never fails for an unknown key. */
  lemma SearchTargetSourcesKnown()
    ensures SearchTarget.Values == PickPolicy.Keys
    ensures forall n1, n2 :: n1 in SearchTarget && n2 in SearchTarget && n1 != n2 ==> SearchTarget[n1] != SearchTarget[n2]
  {
    assert SearchTarget["uncle"] == UncleKey && SearchTarget["mouse"] == MouseKey && SearchTarget["jundam"] == JundamKey;
    assert SearchTarget.Values == {UncleKey, MouseKey, JundamKey};
  }

  /** `main` after its set-up: the gate, the fan-out and the upload decision. */
  method Run(
    client: FeedClient, searchTarget: map<string, string>, status: Result<CheckResponseData>, midnight: int64)
    returns (outcome: RunOutcome)
    modifies client
    ensures Done(searchTarget, status) <==> outcome == WorkDone
    ensures Done(searchTarget, status) ==> client.requested == old(client.requested)
    ensures !Done(searchTarget, status) ==> RequestedOncePerName(searchTarget, old(client.requested), client.requested)
    ensures !outcome.WorkDone? ==> IsAggregate(searchTarget, client.feeds, midnight, outcome.data)
    ensures outcome.Upload? <==>
      !Done(searchTarget, status) && exists name :: name in outcome.data && outcome.data[name] != ""
  {
    var check := CheckWorkDone(searchTarget, status);
    if check.Ok? && check.value {
      return WorkDone;
    }
    var data := FetchAllImages(client, searchTarget, midnight);
    if |data| == 0 {
      return NoImageFound(data);
    }
    var checkData := false;
    var unseen := data.Keys;
    while unseen != {}
      invariant unseen <= data.Keys
      invariant checkData <==> exists name :: name in data.Keys - unseen && data[name] != ""
      decreases unseen
    {
      var key :| key in unseen;
      if data[key] != "" {
        checkData := true;
      }
      unseen := unseen - {key};
    }
    if checkData {
      outcome := Upload(data);
    } else {
      outcome := NoImageFound(data);
    }
  }

  /** A day on which every feed request fails: nothing is uploaded, whether
      the status check failed or found today unreported. */
  method AllFeedsFailScenario(status: Result<CheckResponseData>, midnight: int64)
  {
    var client := new FeedClient((key: string) => Err(Transport));
    var outcome := Run(client, SearchTarget, status, midnight);
    assert !outcome.Upload?;
  }

  /** The status map is empty; the first source has one image post today with
      two media items, the second has only yesterday's post, the third fails.
      The first source contributes its LAST media URL and the map is uploaded. */
  method MixedDayScenario()
  {
    var midnight: int64 := 1_700_000_000_000;
    var today := ItemsData(midnight + 60_000, [MediaData("image", "m1"), MediaData("image", "m2")], "image");
    var yesterday := ItemsData(midnight - 60_000, [MediaData("image", "old")], "image");
    var feeds := (key: string) =>
      if key == UncleKey then Ok(PostsData([today]))
      else if key == MouseKey then Ok(PostsData([yesterday]))
      else Err(Transport);
    var client := new FeedClient(feeds);
    var outcome := Run(client, SearchTarget, Ok(CheckResponseData(map[])), midnight);
    assert !Done(SearchTarget, Ok(CheckResponseData(map[]))) by {
      MissingNameIsNotDone(SearchTarget, map[], "uncle");
    }
    assert outcome.data.Keys == SearchTarget.Keys;
    assert outcome.data["uncle"] == "m2";
    assert TodayMedia([yesterday], midnight) == [];
    assert outcome.data["mouse"] == "";
    assert outcome.data["jundam"] == "";
    assert outcome.data == map["uncle" := "m2", "mouse" := "", "jundam" := ""];
    assert outcome == Upload(map["uncle" := "m2", "mouse" := "", "jundam" := ""]);
  }

  /** The status service already holds a URL for every tracked name: the run
      stops at the gate and no feed is requested. */
  method DoneDayScenario(feeds: string -> Result<PostsData>, midnight: int64)
  {
    var client := new FeedClient(feeds);
    var reported := map["uncle" := "u", "mouse" := "m", "jundam" := "j"];
    var outcome := Run(client, SearchTarget, Ok(CheckResponseData(reported)), midnight);
    assert outcome == WorkDone && client.requested == [];
  }
}
