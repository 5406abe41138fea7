/**
  One run of `updateSources(withAnimation:)` (Shared/ContentView.swift), stated
  on values. The sources are taken in visiting order (pinned first, then
  unpinned) as records; the cycle visits them one at a time, keeps a trace of
  what happened to each, and threads the state the Swift code changes: the
  local `newFeeds`, the sources' titles, the cache, the published `feeds` and
  what the context save persisted. The imperative method in module
  ContentViews is proved to compute exactly `Refresh`; the lemmas below state
  what `Refresh` does.

  The sidebar's source-to-feed title match is stated here too, since it
  reads the cycle's results.
*/
module RefreshCycle {
  import opened Outcomes
  import opened FeedCache

  /** An entry of a decoded feed (`Moji.Item`), as far as this model reads it. */
  datatype Item = Item(title: Option<string>, description: Option<string>, content: Option<string>)

  /** A decoded feed (`Moji.RSS`). */
  datatype Snapshot = Snapshot(title: Option<string>, items: seq<Item>)

  /** Why the feed decoder throws. */
  datatype DecodeError = NetworkError | ParseError

  /** What ends a refresh cycle early: a thrown decode or a thrown cache save. */
  datatype Failure = Decode(error: DecodeError) | CacheWrite

  /** The stored fields of a `Source` at one moment. */
  datatype SourceRecord = SourceRecord(url: Option<string>, title: Option<string>, isPinned: bool)

  /**
    What the cycle consults outside the app: the clock (fixed for one cycle),
    whether `URL(string:)` accepts a string, the remote decoder keyed by URL,
    and whether the cache accepts a save under a name.
  */
  datatype Env = Env(
    now: int,
    parses: string -> bool,
    decode: string -> Result<Snapshot, DecodeError>,
    canSave: string -> bool)

  /** What happened to one visited source. */
  datatype Visit = Skipped | Hit(snapshot: Snapshot) | Loaded(snapshot: Snapshot) | Failed(failure: Failure)
  {
    /** The source contributed a feed to `newFeeds`. */
    predicate Resolved() { Hit? || Loaded? }
  }

  /**
    The state of a cycle: one visit per source reached so far, the local
    `newFeeds`, every source's current title (in visiting order), the cache,
    the published `feeds`, and the titles the last save persisted (None while
    the cycle has not saved).
  */
  datatype Cycle = Cycle(
    visits: seq<Visit>,
    newFeeds: seq<Snapshot>,
    titles: seq<Option<string>>,
    cache: Cache<Snapshot>,
    feeds: seq<Snapshot>,
    saved: Option<seq<Option<string>>>)

  /** The source has a URL string and `URL(string:)` accepts it. */
  predicate Loadable(r: SourceRecord, parses: string -> bool): (b: bool)
    ensures r.url.None? ==> !b
    ensures r.url.Some? ==> (b <==> parses(r.url.value))
  {
    r.url.Some? && parses(r.url.value)
  }

  /** Every source the cycle will look up has a title: the cycle force-unwraps it as the cache name. */
  predicate Ready(recs: seq<SourceRecord>, parses: string -> bool)
  {
    forall j :: 0 <= j < |recs| ==> Loadable(recs[j], parses) ==> recs[j].title.Some?
  }

  /** The titles of the records, in order. */
  function TitlesOf(recs: seq<SourceRecord>): (r: seq<Option<string>>)
    ensures |r| == |recs| && forall j :: 0 <= j < |recs| ==> r[j] == recs[j].title
  {
    seq(|recs|, j requires 0 <= j < |recs| => recs[j].title)
  }

  /** The records with their titles replaced by `titles`. */
  function WithTitles(recs: seq<SourceRecord>, titles: seq<Option<string>>): (r: seq<SourceRecord>)
    requires |titles| == |recs|
    ensures |r| == |recs|
    ensures forall j :: 0 <= j < |recs| ==> r[j] == recs[j].(title := titles[j])
  {
    seq(|recs|, j requires 0 <= j < |recs| => recs[j].(title := titles[j]))
  }

  /** The state before the first source is visited. */
  function Start(recs: seq<SourceRecord>, cache: Cache<Snapshot>, feeds: seq<Snapshot>): Cycle
  {
    Cycle([], [], TitlesOf(recs), cache, feeds, None)
  }

  /** The last visit failed: the `catch` has ended the cycle. */
  predicate Stopped(c: Cycle)
  {
    |c.visits| > 0 && c.visits[|c.visits| - 1].Failed?
  }

  /**
    The shape every cycle state keeps: one title per source (also in what
    was saved), and unvisited sources keep theirs.
  */
  predicate Consistent(recs: seq<SourceRecord>, c: Cycle)
  {
    |c.titles| == |recs| && |c.visits| <= |recs| &&
    (c.saved.Some? ==> |c.saved.value| == |recs|) &&
    forall j :: |c.visits| <= j < |recs| ==> c.titles[j] == recs[j].title
  }

  /**
    `newFeeds.append(s)` with its `didSet`: once the collected count reaches
    the number of sources, the collection is published as `feeds` and the
    context is saved with the titles as they are at that moment.
  */
  function Append(c: Cycle, s: Snapshot, total: nat): (r: Cycle)
    ensures r.newFeeds == c.newFeeds + [s]
    ensures r.visits == c.visits && r.titles == c.titles && r.cache == c.cache
    ensures |r.newFeeds| >= total ==> r.feeds == r.newFeeds && r.saved == Some(c.titles)
    ensures |r.newFeeds| < total ==> r.feeds == c.feeds && r.saved == c.saved
  {
    var collected := c.newFeeds + [s];
    if |collected| >= total then c.(newFeeds := collected, feeds := collected, saved := Some(c.titles))
    else c.(newFeeds := collected)
  }

  /** One iteration of the loop: visit the next source. */
  function Step(recs: seq<SourceRecord>, env: Env, c: Cycle): (r: Cycle)
    requires Consistent(recs, c) && |c.visits| < |recs| && Ready(recs, env.parses)
    ensures Consistent(recs, r) && |r.visits| == |c.visits| + 1
    ensures r.visits[..|c.visits|] == c.visits
  {
    var j := |c.visits|;
    var source := recs[j];
    if !Loadable(source, env.parses) then c.(visits := c.visits + [Skipped])
    else
      var name := c.titles[j].value;
      match Get(c.cache, name, env.now)
      case Some(cached) => Append(c.(visits := c.visits + [Hit(cached)]), cached, |recs|)
      case None =>
        match env.decode(source.url.value)
        case Err(e) => c.(visits := c.visits + [Failed(Decode(e))])
        case Ok(rss) =>
          if !env.canSave(name) then c.(visits := c.visits + [Failed(CacheWrite)])
          else Stored(recs, env, c, rss)
  }

  /**
    The success branch of a remote load: the decoded feed is saved under the
    source's title for five minutes, appended, and then the source takes the
    feed's title.
  */
  function Stored(recs: seq<SourceRecord>, env: Env, c: Cycle, rss: Snapshot): (r: Cycle)
    requires |c.visits| < |c.titles| && c.titles[|c.visits|].Some?
    ensures r.visits == c.visits + [Loaded(rss)] && r.newFeeds == c.newFeeds + [rss]
    ensures r.cache == Save(c.cache, c.titles[|c.visits|].value, rss, env.now + Lifetime)
    ensures r.titles == c.titles[|c.visits| := rss.title]
  {
    var i := |c.visits|;
    var stored := c.(visits := c.visits + [Loaded(rss)],
                     cache := Save(c.cache, c.titles[i].value, rss, env.now + Lifetime));
    var appended := Append(stored, rss, |recs|);
    appended.(titles := appended.titles[i := rss.title])
  }

  /** The rest of the cycle from `c`: visit sources until all are visited or one fails. */
  function Run(recs: seq<SourceRecord>, env: Env, c: Cycle): (r: Cycle)
    requires Consistent(recs, c) && Ready(recs, env.parses)
    ensures Consistent(recs, r)
    ensures |r.visits| == |recs| || Stopped(r)
    decreases |recs| - |c.visits|
  {
    if |c.visits| == |recs| || Stopped(c) then c else Run(recs, env, Step(recs, env, c))
  }

  /** A whole refresh cycle over `recs` (pinned then unpinned), from the given cache and published feeds. */
  function Refresh(recs: seq<SourceRecord>, env: Env, cache: Cache<Snapshot>, feeds: seq<Snapshot>): (r: Cycle)
    requires Ready(recs, env.parses)
    ensures |r.titles| == |recs| && |r.visits| <= |recs|
    ensures |r.visits| == |recs| || Stopped(r)
  {
    Run(recs, env, Start(recs, cache, feeds))
  }

  /** The snapshots the visits contributed, in visiting order: what `newFeeds` collects. */
  function Collected(visits: seq<Visit>): (r: seq<Snapshot>)
    ensures |r| <= |visits|
    ensures |r| == |visits| <==> forall j :: 0 <= j < |visits| ==> visits[j].Resolved()
  {
    if visits == [] then []
    else
      var last := visits[|visits| - 1];
      Collected(visits[..|visits| - 1]) + if last.Resolved() then [last.snapshot] else []
  }

  /** Every resolved visit's snapshot is among those collected. */
  lemma {:induction false} CollectedHas(visits: seq<Visit>, j: nat)
    requires j < |visits| && visits[j].Resolved()
    ensures visits[j].snapshot in Collected(visits)
  {
    if j < |visits| - 1 {
      CollectedHas(visits[..|visits| - 1], j);
    }
  }

  /** The names the visits so far have loaded remotely (and so written to the cache). */
  function LoadedNames(recs: seq<SourceRecord>, visits: seq<Visit>): set<string>
    requires |visits| <= |recs|
  {
    if visits == [] then {}
    else
      var j := |visits| - 1;
      LoadedNames(recs, visits[..j]) + if visits[j].Loaded? && recs[j].title.Some? then {recs[j].title.value} else {}
  }

  lemma {:induction false} LoadedNamesFrom(recs: seq<SourceRecord>, visits: seq<Visit>, name: string)
    requires |visits| <= |recs|
    ensures name in LoadedNames(recs, visits) <==>
      exists j :: 0 <= j < |visits| && visits[j].Loaded? && recs[j].title == Some(name)
  {
    if visits != [] {
      var j := |visits| - 1;
      LoadedNamesFrom(recs, visits[..j], name);
      if name in LoadedNames(recs, visits[..j]) {
        var i :| 0 <= i < j && visits[..j][i].Loaded? && recs[i].title == Some(name);
        assert visits[i] == visits[..j][i];
      }
      if exists i :: 0 <= i < |visits| && visits[i].Loaded? && recs[i].title == Some(name) {
        var i :| 0 <= i < |visits| && visits[i].Loaded? && recs[i].title == Some(name);
        if i < j {
          assert visits[..j][i] == visits[i];
        }
      }
    }
  }

  // ---------------------------------------------------------------------
  // What every state of a cycle satisfies

  /** A failed visit is only ever the last one. */
  ghost predicate FailsLast(c: Cycle)
  {
    forall j :: 0 <= j < |c.visits| - 1 ==> !c.visits[j].Failed?
  }

  /** A source is skipped exactly when it has no URL or its URL does not parse. */
  ghost predicate SkipsUnloadable(recs: seq<SourceRecord>, env: Env, c: Cycle)
    requires |c.visits| <= |recs|
  {
    forall j :: 0 <= j < |c.visits| ==> (c.visits[j].Skipped? <==> !Loadable(recs[j], env.parses))
  }

  /** A remotely loaded source carries the loaded title; every other source keeps its own. */
  ghost predicate TitlesReconciled(recs: seq<SourceRecord>, c: Cycle)
    requires |c.titles| == |recs| && |c.visits| <= |recs|
  {
    forall j :: 0 <= j < |recs| ==>
      c.titles[j] == if j < |c.visits| && c.visits[j].Loaded? then c.visits[j].snapshot.title else recs[j].title
  }

  /** Before every source has contributed nothing is published; from then on `feeds` is the collection. */
  ghost predicate PublishedOnlyWhenComplete(recs: seq<SourceRecord>, feeds: seq<Snapshot>, c: Cycle)
    requires |c.titles| == |recs|
  {
    if |recs| > 0 && |c.newFeeds| == |recs| then
      c.feeds == c.newFeeds && c.saved == Some(c.titles[|recs| - 1 := recs[|recs| - 1].title])
    else
      c.feeds == feeds && c.saved == None
  }

  /** Names nothing has loaded keep their entries; a loaded name holds its snapshot for one lifetime. */
  ghost predicate CacheWritten(recs: seq<SourceRecord>, env: Env, cache: Cache<Snapshot>, c: Cycle)
    requires |c.visits| <= |recs|
  {
    (forall name :: name !in LoadedNames(recs, c.visits) ==>
      (name in c.cache <==> name in cache) && (name in cache ==> c.cache[name] == cache[name])) &&
    (forall j :: 0 <= j < |c.visits| && c.visits[j].Loaded? ==>
      recs[j].title.Some? && recs[j].title.value in c.cache &&
      c.cache[recs[j].title.value] == Entry(c.visits[j].snapshot, env.now + Lifetime))
  }

  /** A later source with the same title as a remotely loaded one is served that snapshot from the cache. */
  ghost predicate SharedTitlesHit(recs: seq<SourceRecord>, env: Env, c: Cycle)
    requires |c.visits| <= |recs|
  {
    forall j, k :: 0 <= j < k < |c.visits| && c.visits[j].Loaded? &&
      Loadable(recs[k], env.parses) && recs[k].title == recs[j].title
      ==> c.visits[k] == Hit(c.visits[j].snapshot)
  }

  ghost predicate Inv(recs: seq<SourceRecord>, env: Env, cache: Cache<Snapshot>, feeds: seq<Snapshot>, c: Cycle)
  {
    Consistent(recs, c) && FailsLast(c) && c.newFeeds == Collected(c.visits) &&
    SkipsUnloadable(recs, env, c) && TitlesReconciled(recs, c) &&
    PublishedOnlyWhenComplete(recs, feeds, c) && CacheWritten(recs, env, cache, c) &&
    SharedTitlesHit(recs, env, c)
  }

  lemma StartInv(recs: seq<SourceRecord>, env: Env, cache: Cache<Snapshot>, feeds: seq<Snapshot>)
    ensures Inv(recs, env, cache, feeds, Start(recs, cache, feeds))
  {
  }

  /** What one step does, case by case, without the rest of the invariant. */
  lemma StepShape(recs: seq<SourceRecord>, env: Env, c: Cycle)
    requires Consistent(recs, c) && |c.visits| < |recs| && Ready(recs, env.parses)
    ensures var r, k := Step(recs, env, c), |c.visits|;
      r.visits == c.visits + [r.visits[k]] &&
      (r.visits[k].Skipped? <==> !Loadable(recs[k], env.parses)) &&
      (r.visits[k].Hit? ==>
        Get(c.cache, recs[k].title.value, env.now) == Some(r.visits[k].snapshot) &&
        r.cache == c.cache && r.titles == c.titles) &&
      (r.visits[k].Loaded? ==>
        Get(c.cache, recs[k].title.value, env.now) == None &&
        r.cache == Save(c.cache, recs[k].title.value, r.visits[k].snapshot, env.now + Lifetime) &&
        r.titles == c.titles[k := r.visits[k].snapshot.title]) &&
      (r.visits[k].Resolved() ==>
        r.newFeeds == c.newFeeds + [r.visits[k].snapshot] &&
        if |r.newFeeds| >= |recs| then r.feeds == r.newFeeds && r.saved == Some(c.titles)
        else r.feeds == c.feeds && r.saved == c.saved) &&
      (!r.visits[k].Resolved() ==> r == c.(visits := r.visits))
  {
  }

  /** Under the invariant, a loaded name is a cache hit for the rest of the cycle. */
  lemma LoadedNameHits(recs: seq<SourceRecord>, env: Env, cache: Cache<Snapshot>, c: Cycle, j: nat)
    requires |c.visits| <= |recs| && CacheWritten(recs, env, cache, c)
    requires j < |c.visits| && c.visits[j].Loaded?
    ensures recs[j].title.Some?
    ensures Get(c.cache, recs[j].title.value, env.now) == Some(c.visits[j].snapshot)
  {
  }

  lemma StepKeepsCache(recs: seq<SourceRecord>, env: Env, cache: Cache<Snapshot>, c: Cycle)
    requires Ready(recs, env.parses) && Consistent(recs, c) && |c.visits| < |recs|
    requires CacheWritten(recs, env, cache, c) && SharedTitlesHit(recs, env, c)
    ensures CacheWritten(recs, env, cache, Step(recs, env, c)) && SharedTitlesHit(recs, env, Step(recs, env, c))
  {
    StepKeepsShared(recs, env, cache, c);
    StepKeepsWritten(recs, env, cache, c);
  }

  /** A loadable source whose title an earlier source loaded hits the cache. */
  lemma StepHitsShared(recs: seq<SourceRecord>, env: Env, cache: Cache<Snapshot>, c: Cycle, j: nat)
    requires Ready(recs, env.parses) && Consistent(recs, c) && |c.visits| < |recs|
    requires CacheWritten(recs, env, cache, c)
    requires j < |c.visits| && c.visits[j].Loaded? && Loadable(recs[|c.visits|], env.parses)
    requires recs[j].title == recs[|c.visits|].title
    ensures Step(recs, env, c).visits[|c.visits|] == Hit(c.visits[j].snapshot)
  {
    StepShape(recs, env, c);
    LoadedNameHits(recs, env, cache, c, j);
  }

  lemma StepKeepsShared(recs: seq<SourceRecord>, env: Env, cache: Cache<Snapshot>, c: Cycle)
    requires Ready(recs, env.parses) && Consistent(recs, c) && |c.visits| < |recs|
    requires CacheWritten(recs, env, cache, c) && SharedTitlesHit(recs, env, c)
    ensures SharedTitlesHit(recs, env, Step(recs, env, c))
  {
    var r := Step(recs, env, c);
    var k := |c.visits|;
    StepShape(recs, env, c);
    forall j, k' | 0 <= j < k' < |r.visits| && r.visits[j].Loaded? &&
      Loadable(recs[k'], env.parses) && recs[k'].title == recs[j].title
      ensures r.visits[k'] == Hit(r.visits[j].snapshot)
    {
      if k' == k {
        StepHitsShared(recs, env, cache, c, j);
      }
    }
  }

  lemma StepKeepsWritten(recs: seq<SourceRecord>, env: Env, cache: Cache<Snapshot>, c: Cycle)
    requires Ready(recs, env.parses) && Consistent(recs, c) && |c.visits| < |recs|
    requires CacheWritten(recs, env, cache, c)
    ensures CacheWritten(recs, env, cache, Step(recs, env, c))
  {
    var r := Step(recs, env, c);
    var k := |c.visits|;
    StepShape(recs, env, c);
    if r.visits[k].Loaded? {
      var name := recs[k].title.value;
      forall j | 0 <= j < k && c.visits[j].Loaded?
        ensures recs[j].title.value != name
      {
        LoadedNameHits(recs, env, cache, c, j);
      }
      WrittenAfterLoad(recs, env, cache, c, r, name);
    } else {
      WrittenAfterOther(recs, env, cache, c, r);
    }
  }

  /** Storing a newly loaded name, which no earlier visit loaded, keeps the cache written. */
  lemma WrittenAfterLoad(recs: seq<SourceRecord>, env: Env, cache: Cache<Snapshot>, c: Cycle, r: Cycle, name: string)
    requires |c.visits| < |recs| && CacheWritten(recs, env, cache, c)
    requires |r.visits| == |c.visits| + 1 && r.visits[..|c.visits|] == c.visits
    requires r.visits[|c.visits|].Loaded? && recs[|c.visits|].title == Some(name)
    requires r.cache == Save(c.cache, name, r.visits[|c.visits|].snapshot, env.now + Lifetime)
    requires forall j :: 0 <= j < |c.visits| && c.visits[j].Loaded? ==> recs[j].title.value != name
    ensures CacheWritten(recs, env, cache, r)
  {
    assert LoadedNames(recs, r.visits) == LoadedNames(recs, c.visits) + {name};
  }

  /** A visit that loads nothing leaves the cache as it was, and so written. */
  lemma WrittenAfterOther(recs: seq<SourceRecord>, env: Env, cache: Cache<Snapshot>, c: Cycle, r: Cycle)
    requires |c.visits| < |recs| && CacheWritten(recs, env, cache, c)
    requires |r.visits| == |c.visits| + 1 && r.visits[..|c.visits|] == c.visits
    requires !r.visits[|c.visits|].Loaded? && r.cache == c.cache
    ensures CacheWritten(recs, env, cache, r)
  {
    assert LoadedNames(recs, r.visits) == LoadedNames(recs, c.visits);
  }

  lemma StepKeepsTrace(recs: seq<SourceRecord>, env: Env, c: Cycle)
    requires Ready(recs, env.parses) && Consistent(recs, c) && |c.visits| < |recs| && !Stopped(c)
    requires FailsLast(c) && c.newFeeds == Collected(c.visits)
    requires SkipsUnloadable(recs, env, c) && TitlesReconciled(recs, c)
    ensures FailsLast(Step(recs, env, c)) && Step(recs, env, c).newFeeds == Collected(Step(recs, env, c).visits)
    ensures SkipsUnloadable(recs, env, Step(recs, env, c)) && TitlesReconciled(recs, Step(recs, env, c))
  {
    StepKeepsFailsLast(recs, env, c);
    StepKeepsCollected(recs, env, c);
    StepKeepsSkips(recs, env, c);
    StepKeepsTitles(recs, env, c);
  }

  lemma StepKeepsFailsLast(recs: seq<SourceRecord>, env: Env, c: Cycle)
    requires Ready(recs, env.parses) && Consistent(recs, c) && |c.visits| < |recs| && !Stopped(c)
    requires FailsLast(c)
    ensures FailsLast(Step(recs, env, c))
  {
    StepShape(recs, env, c);
  }

  lemma StepKeepsCollected(recs: seq<SourceRecord>, env: Env, c: Cycle)
    requires Ready(recs, env.parses) && Consistent(recs, c) && |c.visits| < |recs|
    requires c.newFeeds == Collected(c.visits)
    ensures Step(recs, env, c).newFeeds == Collected(Step(recs, env, c).visits)
  {
    var r := Step(recs, env, c);
    StepShape(recs, env, c);
    assert r.visits[..|c.visits|] == c.visits;
  }

  lemma StepKeepsSkips(recs: seq<SourceRecord>, env: Env, c: Cycle)
    requires Ready(recs, env.parses) && Consistent(recs, c) && |c.visits| < |recs|
    requires SkipsUnloadable(recs, env, c)
    ensures SkipsUnloadable(recs, env, Step(recs, env, c))
  {
    StepShape(recs, env, c);
  }

  lemma StepKeepsTitles(recs: seq<SourceRecord>, env: Env, c: Cycle)
    requires Ready(recs, env.parses) && Consistent(recs, c) && |c.visits| < |recs|
    requires TitlesReconciled(recs, c)
    ensures TitlesReconciled(recs, Step(recs, env, c))
  {
    StepShape(recs, env, c);
  }

  lemma StepKeepsPublish(recs: seq<SourceRecord>, env: Env, feeds: seq<Snapshot>, c: Cycle)
    requires Ready(recs, env.parses) && Consistent(recs, c) && |c.visits| < |recs|
    requires c.newFeeds == Collected(c.visits) && PublishedOnlyWhenComplete(recs, feeds, c)
    ensures PublishedOnlyWhenComplete(recs, feeds, Step(recs, env, c))
  {
    var r := Step(recs, env, c);
    var k := |c.visits|;
    StepShape(recs, env, c);
    assert |c.newFeeds| <= k;
    if |recs| > 0 && |r.newFeeds| == |recs| {
      assert k == |recs| - 1;
      assert r.titles[k := recs[k].title] == c.titles;
    }
  }

  lemma StepInv(recs: seq<SourceRecord>, env: Env, cache: Cache<Snapshot>, feeds: seq<Snapshot>, c: Cycle)
    requires Ready(recs, env.parses) && Inv(recs, env, cache, feeds, c) && |c.visits| < |recs| && !Stopped(c)
    ensures Inv(recs, env, cache, feeds, Step(recs, env, c))
  {
    StepKeepsCache(recs, env, cache, c);
    StepKeepsTrace(recs, env, c);
    StepKeepsPublish(recs, env, feeds, c);
  }

  lemma {:induction false} RunInv(recs: seq<SourceRecord>, env: Env, cache: Cache<Snapshot>, feeds: seq<Snapshot>, c: Cycle)
    requires Ready(recs, env.parses) && Inv(recs, env, cache, feeds, c)
    ensures Inv(recs, env, cache, feeds, Run(recs, env, c))
    decreases |recs| - |c.visits|
  {
    if !(|c.visits| == |recs| || Stopped(c)) {
      StepInv(recs, env, cache, feeds, c);
      RunInv(recs, env, cache, feeds, Step(recs, env, c));
    }
  }

  lemma RefreshInv(recs: seq<SourceRecord>, env: Env, cache: Cache<Snapshot>, feeds: seq<Snapshot>)
    requires Ready(recs, env.parses)
    ensures Inv(recs, env, cache, feeds, Refresh(recs, env, cache, feeds))
  {
    StartInv(recs, env, cache, feeds);
    RunInv(recs, env, cache, feeds, Start(recs, cache, feeds));
  }

  // ---------------------------------------------------------------------
  // What a whole cycle does

  /**
    Sources are visited in order, each at most once; a source is skipped
    exactly when it has no URL or its URL does not parse; a failure can only
    be the last visit, and the cycle visits every source unless one failed.
    The collected feeds are the resolved visits' snapshots in visiting order,
    so they never outnumber the sources.
  */
  lemma VisitsInOrder(recs: seq<SourceRecord>, env: Env, cache: Cache<Snapshot>, feeds: seq<Snapshot>)
    requires Ready(recs, env.parses)
    ensures var r := Refresh(recs, env, cache, feeds);
      r.newFeeds == Collected(r.visits) && |r.newFeeds| <= |r.visits| <= |recs| &&
      (|r.visits| < |recs| ==> Stopped(r)) &&
      (forall j :: 0 <= j < |r.visits| - 1 ==> !r.visits[j].Failed?) &&
      (forall j :: 0 <= j < |r.visits| ==> (r.visits[j].Skipped? <==> !Loadable(recs[j], env.parses)))
  {
    RefreshInv(recs, env, cache, feeds);
  }

  /**
    After a cycle, a remotely loaded source's title is the loaded feed's
    title (possibly None); every other source, served from the cache,
    skipped, failed or never reached, keeps its title.
  */
  lemma TitlesReconciledAfterRefresh(recs: seq<SourceRecord>, env: Env, cache: Cache<Snapshot>, feeds: seq<Snapshot>)
    requires Ready(recs, env.parses)
    ensures var r := Refresh(recs, env, cache, feeds);
      forall j :: 0 <= j < |recs| ==>
        r.titles[j] == if j < |r.visits| && r.visits[j].Loaded? then r.visits[j].snapshot.title else recs[j].title
  {
    RefreshInv(recs, env, cache, feeds);
  }

  /**
    The published feeds are replaced, and the context saved, exactly when
    there is at least one source and every source contributed a feed; the
    feeds are then the whole collection, one per source. The save happens
    before the last source's title is reconciled, so it persists that
    source's old title. Otherwise the previous feeds stay and nothing is
    saved.
  */
  lemma PublishesOnlyWhenAllResolved(recs: seq<SourceRecord>, env: Env, cache: Cache<Snapshot>, feeds: seq<Snapshot>)
    requires Ready(recs, env.parses)
    ensures var r := Refresh(recs, env, cache, feeds);
      (r.saved.Some? <==> |recs| > 0 && |r.visits| == |recs| && forall j :: 0 <= j < |r.visits| ==> r.visits[j].Resolved()) &&
      (r.saved.Some? ==>
        r.feeds == r.newFeeds && |r.feeds| == |recs| &&
        r.saved.value == r.titles[|recs| - 1 := recs[|recs| - 1].title]) &&
      (r.saved.None? ==> r.feeds == feeds)
  {
    RefreshInv(recs, env, cache, feeds);
  }

  /**
    The first failure ends the cycle: no later source is visited or
    renamed, and neither the published feeds nor the store change.
  */
  lemma FailureEndsCycle(recs: seq<SourceRecord>, env: Env, cache: Cache<Snapshot>, feeds: seq<Snapshot>)
    requires Ready(recs, env.parses)
    ensures var r := Refresh(recs, env, cache, feeds);
      Stopped(r) ==>
        r.feeds == feeds && r.saved == None &&
        (forall j :: 0 <= j < |r.visits| - 1 ==> !r.visits[j].Failed?) &&
        (forall j :: |r.visits| <= j < |recs| ==> r.titles[j] == recs[j].title)
  {
    RefreshInv(recs, env, cache, feeds);
    PublishesOnlyWhenAllResolved(recs, env, cache, feeds);
  }

  /**
    The cache after a cycle: a name no source loaded remotely keeps its
    entry (or its absence); a remotely loaded source's snapshot is stored
    under the title it had when visited, for five minutes from now; and a
    later source with that same title is served that snapshot from the
    cache instead of being decoded.
  */
  lemma CacheAfterRefresh(recs: seq<SourceRecord>, env: Env, cache: Cache<Snapshot>, feeds: seq<Snapshot>)
    requires Ready(recs, env.parses)
    ensures var r := Refresh(recs, env, cache, feeds);
      (forall name :: (forall j :: 0 <= j < |r.visits| && r.visits[j].Loaded? ==> recs[j].title != Some(name)) ==>
        (name in r.cache <==> name in cache) && (name in cache ==> r.cache[name] == cache[name])) &&
      (forall j :: 0 <= j < |r.visits| && r.visits[j].Loaded? ==>
        recs[j].title.Some? && recs[j].title.value in r.cache &&
        r.cache[recs[j].title.value] == Entry(r.visits[j].snapshot, env.now + Lifetime)) &&
      (forall j, k :: 0 <= j < k < |r.visits| && r.visits[j].Loaded? &&
        Loadable(recs[k], env.parses) && recs[k].title == recs[j].title
        ==> r.visits[k] == Hit(r.visits[j].snapshot))
  {
    var r := Refresh(recs, env, cache, feeds);
    RefreshInv(recs, env, cache, feeds);
    forall name | (forall j :: 0 <= j < |r.visits| && r.visits[j].Loaded? ==> recs[j].title != Some(name))
      ensures name !in LoadedNames(recs, r.visits)
    {
      LoadedNamesFrom(recs, r.visits, name);
    }
  }

  /**
    A source whose title names a live cache entry is served from the cache:
    the step appends the cached snapshot and leaves cache and titles as they
    were, whatever the decoder would have answered.
  */
  lemma HitMakesNoDecode(recs: seq<SourceRecord>, env: Env, c: Cycle, decode: string -> Result<Snapshot, DecodeError>)
    requires Consistent(recs, c) && |c.visits| < |recs| && Ready(recs, env.parses)
    requires Loadable(recs[|c.visits|], env.parses)
    requires Get(c.cache, recs[|c.visits|].title.value, env.now).Some?
    ensures var r, s := Step(recs, env, c), Get(c.cache, recs[|c.visits|].title.value, env.now).value;
      r == Step(recs, env.(decode := decode), c) &&
      r.visits == c.visits + [Hit(s)] && r.newFeeds == c.newFeeds + [s] &&
      r.cache == c.cache && r.titles == c.titles
  {
  }

  /**
    A remotely loaded source: the decoded feed is saved in the cache under
    the source's title before reconciliation, for five minutes from now, then
    appended, and then the source takes the feed's title.
  */
  lemma MissLoadsAndSaves(recs: seq<SourceRecord>, env: Env, c: Cycle)
    requires Consistent(recs, c) && |c.visits| < |recs| && Ready(recs, env.parses)
    requires Loadable(recs[|c.visits|], env.parses)
    requires Get(c.cache, recs[|c.visits|].title.value, env.now).None?
    ensures var r, k := Step(recs, env, c), |c.visits|;
      var name := recs[k].title.value;
      match env.decode(recs[k].url.value)
      case Err(e) => r == c.(visits := c.visits + [Failed(Decode(e))])
      case Ok(rss) =>
        if env.canSave(name) then
          r.visits == c.visits + [Loaded(rss)] && r.newFeeds == c.newFeeds + [rss] &&
          r.cache == c.cache[name := Entry(rss, env.now + Lifetime)] &&
          r.titles == c.titles[k := rss.title]
        else
          r == c.(visits := c.visits + [Failed(CacheWrite)])
  {
  }

  /** The no-decode invariant of a cycle over a warm cache. */
  lemma {:induction false} WarmRun(recs: seq<SourceRecord>, env: Env, decode: string -> Result<Snapshot, DecodeError>,
                                    cache: Cache<Snapshot>, c: Cycle)
    requires Ready(recs, env.parses) && Consistent(recs, c)
    requires forall j :: 0 <= j < |recs| && Loadable(recs[j], env.parses) ==> Get(cache, recs[j].title.value, env.now).Some?
    requires c.cache == cache && c.titles == TitlesOf(recs)
    requires forall j :: 0 <= j < |c.visits| ==> c.visits[j].Hit? || c.visits[j].Skipped?
    ensures var r := Run(recs, env, c);
      r == Run(recs, env.(decode := decode), c) &&
      |r.visits| == |recs| && r.cache == cache && r.titles == TitlesOf(recs) &&
      forall j :: 0 <= j < |r.visits| ==> r.visits[j].Hit? || r.visits[j].Skipped?
    decreases |recs| - |c.visits|
  {
    if |c.visits| < |recs| {
      var k := |c.visits|;
      var next := Step(recs, env, c);
      assert !Stopped(c);
      assert next == Step(recs, env.(decode := decode), c);
      assert next.visits == c.visits + [next.visits[k]];
      WarmRun(recs, env, decode, cache, next);
    }
  }

  /**
    If every source with a parseable URL has a live cache entry under its
    title, a cycle decodes nothing: every source is served from the cache or
    skipped, the result does not depend on the decoder, and cache and titles
    are left as they were.
  */
  lemma WarmCacheMakesNoDecode(recs: seq<SourceRecord>, env: Env, cache: Cache<Snapshot>, feeds: seq<Snapshot>,
                               decode: string -> Result<Snapshot, DecodeError>)
    requires Ready(recs, env.parses)
    requires forall j :: 0 <= j < |recs| && Loadable(recs[j], env.parses) ==> Get(cache, recs[j].title.value, env.now).Some?
    ensures var r := Refresh(recs, env, cache, feeds);
      r == Refresh(recs, env.(decode := decode), cache, feeds) &&
      |r.visits| == |recs| && r.cache == cache && r.titles == TitlesOf(recs) &&
      forall j :: 0 <= j < |r.visits| ==> r.visits[j].Hit? || r.visits[j].Skipped?
  {
    WarmRun(recs, env, decode, cache, Start(recs, cache, feeds));
  }

  /**
    The next cycle can run (every loadable source still has a title) exactly
    when no source of this cycle was reconciled to a feed without a title.
  */
  lemma ReadyAfterRefresh(recs: seq<SourceRecord>, env: Env, cache: Cache<Snapshot>, feeds: seq<Snapshot>)
    requires Ready(recs, env.parses)
    ensures var r := Refresh(recs, env, cache, feeds);
      Ready(WithTitles(recs, r.titles), env.parses) <==>
      forall j :: 0 <= j < |r.visits| && r.visits[j].Loaded? ==> r.visits[j].snapshot.title.Some?
  {
    var r := Refresh(recs, env, cache, feeds);
    var after := WithTitles(recs, r.titles);
    RefreshInv(recs, env, cache, feeds);
    if Ready(after, env.parses) {
      forall j | 0 <= j < |r.visits| && r.visits[j].Loaded?
        ensures r.visits[j].snapshot.title.Some?
      {
        assert Loadable(after[j], env.parses);
      }
    }
  }

  // ---------------------------------------------------------------------
  // The sidebar

  /** A sidebar row: a source and the feed shown for it. */
  datatype Row = Row(source: SourceRecord, feed: Snapshot)

  /** What the sidebar list shows. */
  datatype Sidebar = Sections(pinned: seq<Row>, unpinned: seq<Row>) | AddSourcePrompt | Loading

  /** `feeds.first(where: { $0.title == title })`: two absent titles are equal too. */
  function FirstWithTitle(feeds: seq<Snapshot>, title: Option<string>): (r: Option<Snapshot>)
    ensures r.None? <==> forall k :: 0 <= k < |feeds| ==> feeds[k].title != title
    ensures r.Some? ==> exists k :: 0 <= k < |feeds| && feeds[k] == r.value && r.value.title == title &&
                          forall i :: 0 <= i < k ==> feeds[i].title != title
  {
    if feeds == [] then None
    else if feeds[0].title == title then Some(feeds[0])
    else
      var rest := FirstWithTitle(feeds[1..], title);
      assert forall k :: 1 <= k < |feeds| ==> feeds[k] == feeds[1..][k - 1];
      rest
  }

  /** One section's rows: each source with the first feed of its title; sources without one are not shown. */
  function Rows(recs: seq<SourceRecord>, feeds: seq<Snapshot>): (r: seq<Row>)
    ensures |r| <= |recs|
    ensures forall k :: 0 <= k < |r| ==> r[k].source in recs && Some(r[k].feed) == FirstWithTitle(feeds, r[k].source.title)
  {
    if recs == [] then []
    else
      (match FirstWithTitle(feeds, recs[0].title)
       case Some(f) => [Row(recs[0], f)]
       case None => []) + Rows(recs[1..], feeds)
  }

  /**
    The sidebar: while some feed is published, a pinned and an unpinned
    section of rows; otherwise a prompt when there are no sources and a
    progress indicator when there are.
  */
  function SidebarOf(pinned: seq<SourceRecord>, unpinned: seq<SourceRecord>, feeds: seq<Snapshot>): (r: Sidebar)
    ensures r.Sections? <==> feeds != []
    ensures r.AddSourcePrompt? <==> feeds == [] && pinned == [] && unpinned == []
    ensures r.Loading? <==> feeds == [] && (pinned != [] || unpinned != [])
    ensures r.Sections? ==> |r.pinned| <= |pinned| && |r.unpinned| <= |unpinned|
  {
    if feeds != [] then Sections(Rows(pinned, feeds), Rows(unpinned, feeds))
    else if pinned == [] && unpinned == [] then AddSourcePrompt
    else Loading
  }

  /** Rows of a concatenation are the concatenated rows: sources keep their order. */
  lemma {:induction false} RowsAppend(a: seq<SourceRecord>, b: seq<SourceRecord>, feeds: seq<Snapshot>)
    ensures Rows(a + b, feeds) == Rows(a, feeds) + Rows(b, feeds)
  {
    if a != [] {
      assert (a + b)[1..] == a[1..] + b;
      RowsAppend(a[1..], b, feeds);
    } else {
      assert a + b == b;
    }
  }

  /** Every source is shown exactly when every source's title matches some feed. */
  lemma {:induction false} AllRowsShown(recs: seq<SourceRecord>, feeds: seq<Snapshot>)
    ensures |Rows(recs, feeds)| == |recs| <==> forall j :: 0 <= j < |recs| ==> FirstWithTitle(feeds, recs[j].title).Some?
  {
    if recs != [] {
      AllRowsShown(recs[1..], feeds);
      assert forall j :: 1 <= j < |recs| ==> recs[j] == recs[1..][j - 1];
    }
  }

  /**
    After a cycle that published, every remotely loaded source has a row:
    its reconciled title is the title of a published feed.
  */
  lemma LoadedSourcesListed(recs: seq<SourceRecord>, env: Env, cache: Cache<Snapshot>, feeds: seq<Snapshot>)
    requires Ready(recs, env.parses)
    ensures var r := Refresh(recs, env, cache, feeds);
      r.saved.Some? ==>
        forall j :: 0 <= j < |r.visits| && r.visits[j].Loaded? ==> FirstWithTitle(r.feeds, r.titles[j]).Some?
  {
    var r := Refresh(recs, env, cache, feeds);
    PublishesOnlyWhenAllResolved(recs, env, cache, feeds);
    VisitsInOrder(recs, env, cache, feeds);
    TitlesReconciledAfterRefresh(recs, env, cache, feeds);
    if r.saved.Some? {
      forall j | 0 <= j < |r.visits| && r.visits[j].Loaded?
        ensures FirstWithTitle(r.feeds, r.titles[j]).Some?
      {
        CollectedHas(r.visits, j);
        var k :| 0 <= k < |r.feeds| && r.feeds[k] == r.visits[j].snapshot;
      }
    }
  }
}
