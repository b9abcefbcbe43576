/**
 * The fan-out aggregator (`fetchAllImages`): fetch today's image for every
 * target source and collect one entry per source name, the URL when the fetch
 * succeeded with a non-empty URL and "" otherwise.
 *
 * The program runs one goroutine per source and serialises the map writes
 * with a mutex; every source writes only its own entry, so the model runs the
 * sources one after another, in whatever order the target map yields them.
 * The feed client's `feeds(key)` is the decoded response of the request for
 * `key` (a request cut short by the deadline is a failed one).
 */
module FanOut {
  import opened Outcomes
  import opened Feed

  /** The map entry one source contributes. */
  function Entry(fetched: Result<string>): (url: string)
    ensures url != "" <==> fetched.Ok? && fetched.value != ""
    ensures url != "" ==> url == fetched.value
  {
    if fetched.Ok? && fetched.value != "" then fetched.value else ""
  }

  /** `data` holds exactly one entry per target name, each the outcome of fetching that name's feed. */
  predicate IsAggregate(
    searchTarget: map<string, string>, feeds: string -> Result<PostsData>, midnight: int64,
    data: map<string, string>)
  {
    && data.Keys == searchTarget.Keys
    && forall name :: name in data ==>
         data[name] == Entry(FeedImage(feeds(searchTarget[name]), midnight, searchTarget[name]))
  }

  /** `order` lists every target name exactly once. */
  predicate IsVisitOrder(searchTarget: map<string, string>, order: seq<string>) {
    && (forall i :: 0 <= i < |order| ==> order[i] in searchTarget)
    && (forall i, j :: 0 <= i < j < |order| ==> order[i] != order[j])
    && (forall name :: name in searchTarget ==> name in order)
  }

  /** The source keys of the names in `order`, in that order. */
  function KeysFor(searchTarget: map<string, string>, order: seq<string>): (keys: seq<string>)
    requires forall i :: 0 <= i < |order| ==> order[i] in searchTarget
    ensures |keys| == |order|
    ensures forall i :: 0 <= i < |order| ==> keys[i] == searchTarget[order[i]]
  {
    seq(|order|, i requires 0 <= i < |order| => searchTarget[order[i]])
  }

  /** Visiting one more name adds that name's key at the end. */
  lemma KeysForAppend(searchTarget: map<string, string>, order: seq<string>, name: string)
    requires forall i :: 0 <= i < |order| ==> order[i] in searchTarget
    requires name in searchTarget
    ensures KeysFor(searchTarget, order + [name]) == KeysFor(searchTarget, order) + [searchTarget[name]]
  {
  }

  /** `order` lists the names in `visited`, each once. */
  predicate VisitedSoFar(order: seq<string>, visited: set<string>) {
    && (forall i :: 0 <= i < |order| ==> order[i] in visited)
    && (forall i, j :: 0 <= i < j < |order| ==> order[i] != order[j])
    && (forall name :: name in visited ==> name in order)
  }

  /** Appending an unvisited name keeps the visit order duplicate-free and complete. */
  lemma VisitOneMore(order: seq<string>, visited: set<string>, name: string)
    requires VisitedSoFar(order, visited) && name !in visited
    ensures VisitedSoFar(order + [name], visited + {name})
  {
  }

  /** Going from `before` to `after`, one feed request was issued per target
      name (for that name's key) and no other request. */
  ghost predicate RequestedOncePerName(searchTarget: map<string, string>, before: seq<string>, after: seq<string>) {
    exists order :: IsVisitOrder(searchTarget, order) && after == before + KeysFor(searchTarget, order)
  }

  method FetchAllImages(client: FeedClient, searchTarget: map<string, string>, midnight: int64)
    returns (data: map<string, string>)
    modifies client
    ensures IsAggregate(searchTarget, client.feeds, midnight, data)
    ensures RequestedOncePerName(searchTarget, old(client.requested), client.requested)
  {
    data := map[];
    var pending := searchTarget.Keys;
    ghost var feeds := client.feeds;
    ghost var before := client.requested;
    ghost var order: seq<string> := [];
    while pending != {}
      invariant pending <= searchTarget.Keys
      invariant data.Keys == searchTarget.Keys - pending
      invariant forall name :: name in data ==>
        data[name] == Entry(FeedImage(feeds(searchTarget[name]), midnight, searchTarget[name]))
      invariant VisitedSoFar(order, data.Keys)
      invariant forall i :: 0 <= i < |order| ==> order[i] in searchTarget
      invariant client.requested == before + KeysFor(searchTarget, order)
      decreases pending
    {
      var name :| name in pending;
      ghost var visited := data.Keys;
      var key := searchTarget[name];
      ghost var done := KeysFor(searchTarget, order);
      var img := client.GetImage(midnight, key);
      assert client.requested == (before + done) + [key];
      assert (before + done) + [key] == before + (done + [key]);
      if img.Ok? && img.value != "" {
        data := data[name := img.value];
      } else {
        data := data[name := ""];
      }
      pending := pending - {name};
      KeysForAppend(searchTarget, order, name);
      VisitOneMore(order, visited, name);
      order := order + [name];
    }
    assert IsVisitOrder(searchTarget, order);
    assert client.requested == before + KeysFor(searchTarget, order);
  }

  /** The aggregate is determined by its inputs: the order in which the
      sources finish (here, are visited) cannot change it. */
  lemma AggregateIsUnique(
    searchTarget: map<string, string>, feeds: string -> Result<PostsData>, midnight: int64,
    data1: map<string, string>, data2: map<string, string>)
    requires IsAggregate(searchTarget, feeds, midnight, data1)
    requires IsAggregate(searchTarget, feeds, midnight, data2)
    ensures data1 == data2
  {
  }

  /** Some entry of the aggregate is non-empty exactly when some target
      source's feed yields a non-empty URL for today. */
  lemma SomeEntryFoundIff(
    searchTarget: map<string, string>, feeds: string -> Result<PostsData>, midnight: int64,
    data: map<string, string>)
    requires IsAggregate(searchTarget, feeds, midnight, data)
    ensures (exists name :: name in data && data[name] != "") <==>
      (exists name :: name in searchTarget && FeedImage(feeds(searchTarget[name]), midnight, searchTarget[name]).Ok? &&
         FeedImage(feeds(searchTarget[name]), midnight, searchTarget[name]).value != "")
  {
  }
}
