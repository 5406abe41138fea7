/**
  The state `ContentView` (Shared/ContentView.swift) works on and the
  operations that change it: the Core Data `Source` objects, what the last
  context save persisted, the feed cache and the published `feeds`.
  `UpdateSources` computes the visiting order and runs `RefreshLoop`, the
  refresh loop, proved to compute `RefreshCycle.Refresh`; `AddItem`, `TogglePin` and `Delete` are the add
  sheet's completion, the row's pin toggle and its delete action.
*/
module ContentViews {
  import opened Outcomes
  import opened FeedCache
  import opened RefreshCycle

  /** A Core Data `Source` object. */
  class Source {
    var url: Option<string>
    var title: Option<string>
    var isPinned: bool

    /** `Source(context:)`: a new object with no URL, no title, not pinned. */
    constructor ()
      ensures url == None && title == None && !isPinned
    {
      url := None;
      title := None;
      isPinned := false;
    }

    /** The stored fields, as a value. */
    function Record(): SourceRecord
      reads this
    {
      SourceRecord(url, title, isPinned)
    }
  }

  /** No object occurs twice. */
  predicate Distinct(ss: seq<Source>)
  {
    forall i, j :: 0 <= i < j < |ss| ==> ss[i] != ss[j]
  }

  /**
    The sources whose pin flag is `pinned`, in registry order: the
    `@FetchRequest` with predicate `isPinned == true` (or `false`). The
    requests have no sort descriptors; this model takes insertion order.
  */
  function Partition(ss: seq<Source>, pinned: bool): (r: seq<Source>)
    reads ss
    ensures |r| <= |ss|
    ensures forall s :: s in r ==> s in ss && s.isPinned == pinned
    ensures forall s :: s in ss && s.isPinned == pinned ==> s in r
    ensures forall k :: 0 <= k < |r| ==> r[k].isPinned == pinned
    ensures Distinct(ss) ==> Distinct(r)
  {
    if ss == [] then []
    else (if ss[0].isPinned == pinned then [ss[0]] else []) + Partition(ss[1..], pinned)
  }

  /** The two sections together hold every source exactly once. */
  lemma {:induction false} PartitionSplits(ss: seq<Source>)
    ensures multiset(Partition(ss, true)) + multiset(Partition(ss, false)) == multiset(ss)
  {
    if ss != [] {
      var head, rest := [ss[0]], ss[1..];
      PartitionSplits(rest);
      assert multiset(ss) == multiset(head) + multiset(rest) by {
        assert ss == head + rest;
      }
      var p, q := Partition(rest, true), Partition(rest, false);
      if ss[0].isPinned {
        assert multiset(Partition(ss, true)) == multiset(head) + multiset(p);
        assert Partition(ss, false) == q;
      } else {
        assert Partition(ss, true) == p;
        assert multiset(Partition(ss, false)) == multiset(head) + multiset(q);
      }
    }
  }

  /** Two sections hold as many sources as the registry. */
  lemma {:induction false} PartitionSizes(ss: seq<Source>)
    ensures |Partition(ss, true)| + |Partition(ss, false)| == |ss|
  {
    if ss != [] {
      PartitionSizes(ss[1..]);
    }
  }

  /** Concatenating sequences without common objects keeps them distinct. */
  lemma DistinctAppend(a: seq<Source>, b: seq<Source>)
    ensures Distinct(a) && Distinct(b) && (forall s :: s in a ==> s !in b) ==> Distinct(a + b)
  {
    if Distinct(a) && Distinct(b) && (forall s :: s in a ==> s !in b) {
      forall i, j | 0 <= i < j < |a + b|
        ensures (a + b)[i] != (a + b)[j]
      {
        if j < |a| {
          assert (a + b)[i] == a[i] && (a + b)[j] == a[j];
        } else if i >= |a| {
          assert (a + b)[i] == b[i - |a|] && (a + b)[j] == b[j - |a|];
        } else {
          assert (a + b)[i] == a[i] && (a + b)[j] == b[j - |a|];
          assert a[i] in a && b[j - |a|] in b;
        }
      }
    }
  }

  /** The order the refresh loop visits sources in: pinned first, then unpinned. */
  function Order(ss: seq<Source>): (r: seq<Source>)
    reads ss
    ensures |r| == |ss|
    ensures forall s :: s in r ==> s in ss
    ensures forall s :: s in ss ==> s in r
    ensures Distinct(ss) ==> Distinct(r)
    ensures forall i, j :: 0 <= i < j < |r| && r[j].isPinned ==> r[i].isPinned
  {
    var pinned, unpinned := Partition(ss, true), Partition(ss, false);
    PartitionSizes(ss);
    PinnedFirst(pinned, unpinned);
    DistinctAppend(pinned, unpinned);
    pinned + unpinned
  }

  /** Pinned sources followed by unpinned ones: no unpinned source precedes a pinned one. */
  lemma PinnedFirst(pinned: seq<Source>, unpinned: seq<Source>)
    requires forall k :: 0 <= k < |pinned| ==> pinned[k].isPinned
    requires forall k :: 0 <= k < |unpinned| ==> !unpinned[k].isPinned
    ensures forall i, j :: 0 <= i < j < |pinned + unpinned| && (pinned + unpinned)[j].isPinned ==> (pinned + unpinned)[i].isPinned
  {
    var r := pinned + unpinned;
    forall i, j | 0 <= i < j < |r|
      ensures r[j].isPinned ==> r[i].isPinned
    {
      if j < |pinned| {
        assert r[i] == pinned[i];
      } else {
        assert r[j] == unpinned[j - |pinned|];
      }
    }
  }

  /** Visiting order is a permutation of the registry. */
  lemma OrderIsPermutation(ss: seq<Source>)
    ensures multiset(Order(ss)) == multiset(ss)
  {
    PartitionSplits(ss);
  }

  /** The records of the objects, in order. */
  function RecordsOf(ss: seq<Source>): (r: seq<SourceRecord>)
    reads ss
    ensures |r| == |ss| && forall i :: 0 <= i < |ss| ==> r[i] == ss[i].Record()
  {
    if ss == [] then [] else [ss[0].Record()] + RecordsOf(ss[1..])
  }

  /** What a context save writes: every registered object's fields. */
  function Persisted(ss: seq<Source>): (r: map<Source, SourceRecord>)
    reads ss
    ensures r.Keys == set s | s in ss
    ensures forall s :: s in ss ==> r[s] == s.Record()
  {
    map s | s in ss :: s.Record()
  }

  /** The registry with one object deleted. */
  function Without(ss: seq<Source>, x: Source): (r: seq<Source>)
    ensures forall s :: s in r ==> s in ss && s != x
    ensures forall s :: s in ss && s != x ==> s in r
    ensures x !in ss ==> r == ss
    ensures Distinct(ss) ==> Distinct(r)
    ensures Distinct(ss) && x in ss ==> |r| == |ss| - 1
  {
    if ss == [] then []
    else
      var rest := Without(ss[1..], x);
      assert Distinct(ss) ==> ss[0] !in ss[1..];
      assert ss == [ss[0]] + ss[1..];
      if ss[0] == x then rest
      else
        DistinctAppend([ss[0]], rest);
        [ss[0]] + rest
  }

  /** Every loadable source has a title: the refresh loop force-unwraps it. */
  ghost predicate ReadyToRefresh(ss: seq<Source>, parses: string -> bool)
    reads ss
  {
    forall s :: s in ss ==> Loadable(s.Record(), parses) ==> s.title.Some?
  }

  /** Readiness does not depend on the visiting order. */
  lemma ReadyInOrder(ss: seq<Source>, parses: string -> bool)
    ensures ReadyToRefresh(ss, parses) <==> Ready(RecordsOf(Order(ss)), parses)
  {
    var order := Order(ss);
    var recs := RecordsOf(order);
    if Ready(recs, parses) {
      forall s | s in ss && Loadable(s.Record(), parses)
        ensures s.title.Some?
      {
        var j :| 0 <= j < |order| && order[j] == s;
        assert recs[j] == s.Record();
      }
    }
  }

  /** Why adding a source ended the app: `fatalError` or a nil force-unwrap. */
  datatype AddError = DecodeFailed(error: DecodeError) | MissingTitle

  /** How `addItem(url:)` ends. */
  datatype AddOutcome = Added | Fatal(reason: AddError)

  /** How the delete action ends: done, or the app ended at `source.title!`. */
  datatype DeleteOutcome = Deleted | TitleMissing

  /** The view's state together with the context and the cache it uses. */
  class ContentView {
    /** The context's `Source` objects, in insertion order. */
    var sources: seq<Source>
    /** What the last context save persisted, per object. */
    var saved: map<Source, SourceRecord>
    var cache: Cache<Snapshot>
    /** The published feeds the sidebar lists. */
    var feeds: seq<Snapshot>

    ghost predicate Valid()
      reads this
    {
      Distinct(sources)
    }

    constructor ()
      ensures Valid() && sources == [] && saved == map[] && cache == map[] && feeds == []
    {
      sources := [];
      saved := map[];
      cache := map[];
      feeds := [];
    }

    /** The sidebar list as the view body builds it. */
    function SidebarView(): (r: Sidebar)
      reads this, sources
      ensures r.Sections? <==> feeds != []
      ensures r.AddSourcePrompt? <==> feeds == [] && sources == []
      ensures r.Sections? ==> |r.pinned| + |r.unpinned| <= |sources|
    {
      var pinned, unpinned := Partition(sources, true), Partition(sources, false);
      PartitionSizes(sources);
      SidebarOf(RecordsOf(pinned), RecordsOf(unpinned), feeds)
    }

    /** `viewContext.save()`, which this model takes to succeed. */
    method SaveContext()
      modifies this`saved
      ensures saved == Persisted(sources)
    {
      saved := Persisted(sources);
    }

    /** The `didSet` observer of `newFeeds`: publish and save once every source has contributed. */
    method DidSetNewFeeds(newFeeds: seq<Snapshot>, total: nat)
      modifies this`feeds, this`saved
      ensures if |newFeeds| >= total then feeds == newFeeds && saved == Persisted(sources)
              else feeds == old(feeds) && saved == old(saved)
    {
      if |newFeeds| >= total {
        feeds := newFeeds;
        SaveContext();
      }
    }

    /**
      `updateSources(withAnimation:)`: one refresh cycle. The new feeds,
      cache and titles are those of `Refresh` over the records in visiting
      order; what the save persisted is those records with the titles
      `Refresh` saved; nothing else changes.
    */
    method UpdateSources(env: Env)
      requires Valid() && Ready(RecordsOf(Order(sources)), env.parses)
      modifies this`feeds, this`saved, this`cache, sources
      ensures Valid() && sources == old(sources)
      ensures var order, recs := old(Order(sources)), old(RecordsOf(Order(sources)));
        var c := Refresh(recs, env, old(cache), old(feeds));
        feeds == c.feeds && cache == c.cache &&
        (forall j :: 0 <= j < |order| ==>
          order[j].title == c.titles[j] && order[j].url == recs[j].url && order[j].isPinned == recs[j].isPinned) &&
        (c.saved.None? ==> saved == old(saved)) &&
        (c.saved.Some? ==> saved.Keys == (set s | s in sources) && forall j :: 0 <= j < |order| ==>
          order[j] in saved && saved[order[j]] == recs[j].(title := c.saved.value[j]))
    {
      var order := Order(sources);
      ghost var recs := RecordsOf(order);
      RefreshLoop(order, recs, env);
    }

    /** The loop of `updateSources`, over the sources in visiting order. */
    method RefreshLoop(order: seq<Source>, ghost recs: seq<SourceRecord>, env: Env)
      requires Distinct(order) && (forall j :: 0 <= j < |order| ==> order[j] in sources)
      requires recs == RecordsOf(order) && Ready(recs, env.parses)
      modifies this`feeds, this`saved, this`cache, order
      ensures var c := Refresh(recs, env, old(cache), old(feeds));
        feeds == c.feeds && cache == c.cache &&
        (forall j :: 0 <= j < |order| ==>
          order[j].title == c.titles[j] && order[j].url == recs[j].url && order[j].isPinned == recs[j].isPinned) &&
        (c.saved.None? ==> saved == old(saved)) &&
        (c.saved.Some? ==> saved.Keys == (set s | s in sources) && forall j :: 0 <= j < |order| ==>
          order[j] in saved && saved[order[j]] == recs[j].(title := c.saved.value[j]))
    {
      ghost var c := Start(recs, cache, feeds);
      var newFeeds: seq<Snapshot> := [];
      var i := 0;
      var failed := false;
      while i < |order| && !failed
        invariant 0 <= i <= |order| && |c.visits| == i
        invariant Consistent(recs, c) && (failed <==> Stopped(c))
        invariant Run(recs, env, c) == Refresh(recs, env, old(cache), old(feeds))
        invariant Mirrors(recs, c, order, newFeeds, old(saved))
      {
        ghost var next := Step(recs, env, c);
        assert Run(recs, env, next) == Run(recs, env, c);
        newFeeds, failed := VisitSource(recs, env, c, order, i, newFeeds, old(saved));
        c, i := next, i + 1;
      }
      assert Run(recs, env, c) == c;
    }

    /**
      The loop's state agrees with the cycle state `c`: the collected and
      published feeds, the cache, every source's fields in visiting order,
      and what was saved (`saved0` while the cycle has not saved).
    */
    ghost predicate Mirrors(recs: seq<SourceRecord>, c: Cycle, order: seq<Source>, newFeeds: seq<Snapshot>,
                            saved0: map<Source, SourceRecord>)
      reads this, order
    {
      Distinct(order) && |order| == |recs| == |c.titles| &&
      (forall j :: 0 <= j < |order| ==> order[j] in sources) &&
      newFeeds == c.newFeeds && feeds == c.feeds && cache == c.cache &&
      (forall j :: 0 <= j < |order| ==>
        order[j].title == c.titles[j] && order[j].url == recs[j].url && order[j].isPinned == recs[j].isPinned) &&
      (c.saved.None? ==> saved == saved0) &&
      (c.saved.Some? ==> |c.saved.value| == |recs| && saved.Keys == (set s | s in sources) && forall j :: 0 <= j < |order| ==>
        order[j] in saved && saved[order[j]] == recs[j].(title := c.saved.value[j]))
    }

    /**
      `newFeeds.append(s)` with its `didSet`: the loop's state moves with
      `Append`.
    */
    method Contribute(ghost recs: seq<SourceRecord>, ghost c: Cycle, order: seq<Source>, newFeeds: seq<Snapshot>,
                      s: Snapshot, ghost saved0: map<Source, SourceRecord>)
      returns (collected: seq<Snapshot>)
      requires Mirrors(recs, c, order, newFeeds, saved0)
      modifies this`feeds, this`saved
      ensures Mirrors(recs, Append(c, s, |recs|), order, collected, saved0)
    {
      collected := newFeeds + [s];
      DidSetNewFeeds(collected, |order|);
      if |collected| >= |order| {
        forall j | 0 <= j < |order|
          ensures order[j] in saved && saved[order[j]] == recs[j].(title := c.titles[j])
        {
          assert order[j] in sources;
        }
      }
    }

    /**
      One iteration of the refresh loop, on the `i`-th source in visiting
      order: it takes the loop's state from `c` to `Step(recs, env, c)`,
      changing no source but that one, and reports whether the `catch` ends
      the loop.
    */
    method VisitSource(ghost recs: seq<SourceRecord>, env: Env, ghost c: Cycle, order: seq<Source>, i: nat,
                       newFeeds: seq<Snapshot>, ghost saved0: map<Source, SourceRecord>)
      returns (collected: seq<Snapshot>, failed: bool)
      requires Ready(recs, env.parses) && Consistent(recs, c) && |c.visits| == i < |recs| && !Stopped(c)
      requires Mirrors(recs, c, order, newFeeds, saved0)
      modifies this`feeds, this`saved, this`cache, order[i]
      ensures Mirrors(recs, Step(recs, env, c), order, collected, saved0)
      ensures failed == Stopped(Step(recs, env, c))
      ensures order[i].url == old(order[i].url) && order[i].isPinned == old(order[i].isPinned)
    {
      collected, failed := newFeeds, false;
      var source := order[i];
      assert source.url == recs[i].url && source.title == c.titles[i];
      if source.url.Some? && env.parses(source.url.value) {
        var name := source.title.value;
        var cached := Get(cache, name, env.now);
        if cached.Some? {
          collected := Contribute(recs, c.(visits := c.visits + [Hit(cached.value)]), order, collected, cached.value, saved0);
          assert Step(recs, env, c) == Append(c.(visits := c.visits + [Hit(cached.value)]), cached.value, |recs|);
        } else {
          collected, failed := LoadSource(recs, env, c, order, i, newFeeds, saved0);
        }
      } else {
        assert Step(recs, env, c) == c.(visits := c.visits + [Skipped]);
      }
    }

    /** A loadable source the cache misses: decode its feed, store it, append it and retitle the source. */
    method LoadSource(ghost recs: seq<SourceRecord>, env: Env, ghost c: Cycle, order: seq<Source>, i: nat,
                      newFeeds: seq<Snapshot>, ghost saved0: map<Source, SourceRecord>)
      returns (collected: seq<Snapshot>, failed: bool)
      requires Ready(recs, env.parses) && Consistent(recs, c) && |c.visits| == i < |recs| && !Stopped(c)
      requires Mirrors(recs, c, order, newFeeds, saved0)
      requires Loadable(recs[i], env.parses) && Get(c.cache, c.titles[i].value, env.now).None?
      modifies this`feeds, this`saved, this`cache, order[i]
      ensures Mirrors(recs, Step(recs, env, c), order, collected, saved0)
      ensures failed == Stopped(Step(recs, env, c))
      ensures order[i].url == old(order[i].url) && order[i].isPinned == old(order[i].isPinned)
    {
      collected, failed := newFeeds, false;
      var source := order[i];
      assert source.url == recs[i].url && source.title == c.titles[i];
      var name := source.title.value;
      var rss := env.decode(source.url.value);
      if rss.Err? {
        failed := true;
        assert Step(recs, env, c) == c.(visits := c.visits + [Failed(Decode(rss.error))]);
      } else if !env.canSave(name) {
        failed := true;
        assert Step(recs, env, c) == c.(visits := c.visits + [Failed(CacheWrite)]);
      } else {
        collected := StoreSource(recs, env, c, order, i, newFeeds, saved0, rss.value);
        assert Step(recs, env, c) == Stored(recs, env, c, rss.value);
      }
    }

    /** The success path of a cache miss: store the feed under the source's title, append it, retitle the source. */
    method StoreSource(ghost recs: seq<SourceRecord>, env: Env, ghost c: Cycle, order: seq<Source>, i: nat,
                       newFeeds: seq<Snapshot>, ghost saved0: map<Source, SourceRecord>, rss: Snapshot)
      returns (collected: seq<Snapshot>)
      requires |c.visits| == i < |recs| && Mirrors(recs, c, order, newFeeds, saved0) && c.titles[i].Some?
      modifies this`feeds, this`saved, this`cache, order[i]
      ensures Mirrors(recs, Stored(recs, env, c, rss), order, collected, saved0)
      ensures order[i].url == old(order[i].url) && order[i].isPinned == old(order[i].isPinned)
    {
      var name := order[i].title.value;
      assert name == c.titles[i].value;
      ghost var stored := c.(visits := c.visits + [Loaded(rss)],
                             cache := Save(c.cache, c.titles[i].value, rss, env.now + Lifetime));
      SaveEntry(recs, c, order, newFeeds, saved0, stored, name, rss, env.now + Lifetime);
      collected := Contribute(recs, stored, order, newFeeds, rss, saved0);
      ghost var appended := Append(stored, rss, |recs|);
      assert Stored(recs, env, c, rss) == appended.(titles := appended.titles[i := rss.title]);
      Retitle(recs, appended, order, i, collected, rss.title, saved0, Stored(recs, env, c, rss));
    }

    /** `Sebu.save`: the cache takes the entry, and the cycle's cache with it. */
    method SaveEntry(ghost recs: seq<SourceRecord>, ghost c: Cycle, order: seq<Source>, newFeeds: seq<Snapshot>,
                     ghost saved0: map<Source, SourceRecord>, ghost next: Cycle, name: string, rss: Snapshot, expiry: int)
      requires Mirrors(recs, c, order, newFeeds, saved0)
      requires next.titles == c.titles && next.newFeeds == c.newFeeds && next.feeds == c.feeds && next.saved == c.saved
      requires next.cache == Save(c.cache, name, rss, expiry)
      modifies this`cache
      ensures Mirrors(recs, next, order, newFeeds, saved0)
    {
      cache := Save(cache, name, rss, expiry);
    }

    /**
      `if source.title != rss.title { source.title = rss.title }`: only the
      `i`-th source changes, and the cycle's titles with it, giving `next`.
    */
    method Retitle(ghost recs: seq<SourceRecord>, ghost c: Cycle, order: seq<Source>, i: nat,
                   newFeeds: seq<Snapshot>, title: Option<string>, ghost saved0: map<Source, SourceRecord>,
                   ghost next: Cycle)
      requires i < |order| && Mirrors(recs, c, order, newFeeds, saved0)
      requires next == c.(titles := c.titles[i := title])
      modifies order[i]
      ensures Mirrors(recs, next, order, newFeeds, saved0)
      ensures order[i].url == old(order[i].url) && order[i].isPinned == old(order[i].isPinned)
    {
      if order[i].title != title {
        order[i].title := title;
        forall j | 0 <= j < |order| && j != i
          ensures order[j].title == old(order[j].title)
        {
          assert order[j] != order[i];
        }
      } else {
        assert c.titles[i := title] == c.titles;
      }
    }

    /**
      `addItem(url:)`: a new unpinned source with the URL joins the registry
      at once; the feed is decoded; a thrown decode or a feed without a
      title ends the app. Otherwise the source takes the feed's title and
      the context is saved. Nothing checks for an existing source with the
      same URL or title.
    */
    method AddItem(url: string, decode: string -> Result<Snapshot, DecodeError>) returns (outcome: AddOutcome)
      requires Valid()
      modifies this`sources, this`saved
      ensures Valid()
      ensures |sources| == |old(sources)| + 1 && sources[..|old(sources)|] == old(sources)
      ensures fresh(sources[|old(sources)|])
      ensures sources[|old(sources)|].url == Some(url) && !sources[|old(sources)|].isPinned
      ensures outcome == match decode(url)
                         case Err(e) => Fatal(DecodeFailed(e))
                         case Ok(rss) => if rss.title.None? then Fatal(MissingTitle) else Added
      ensures outcome.Added? ==> sources[|old(sources)|].title == decode(url).value.title && saved == Persisted(sources)
      ensures outcome.Fatal? ==> sources[|old(sources)|].title == None && saved == old(saved)
      ensures forall parses :: outcome.Added? && old(ReadyToRefresh(sources, parses)) ==> ReadyToRefresh(sources, parses)
    {
      var newItem := new Source();
      sources := sources + [newItem];
      newItem.url := Some(url);
      var rss := decode(url);
      if rss.Err? {
        return Fatal(DecodeFailed(rss.error));
      }
      if rss.value.title.None? {
        return Fatal(MissingTitle);
      }
      newItem.title := rss.value.title;
      SaveContext();
      outcome := Added;
    }

    /** The row's pin toggle: flip the pin flag, moving the source to the other section, and save. */
    method TogglePin(source: Source)
      requires Valid() && source in sources
      modifies source`isPinned, this`saved
      ensures source.isPinned == !old(source.isPinned)
      ensures source.url == old(source.url) && source.title == old(source.title)
      ensures source in Partition(sources, source.isPinned) && source !in Partition(sources, !source.isPinned)
      ensures saved == Persisted(sources)
    {
      source.isPinned := !source.isPinned;
      SaveContext();
    }

    /**
      The row's delete action: remove the source from the registry, clear
      the cache entry named by its title, and save. The cache no longer
      answers under that title. A source without a title ends the app at
      the force-unwrap, after it left the registry and before the cache is
      touched or the context saved.
    */
    method Delete(source: Source) returns (outcome: DeleteOutcome)
      requires Valid() && source in sources
      modifies this`sources, this`cache, this`saved
      ensures Valid()
      ensures sources == Without(old(sources), source) && |sources| == |old(sources)| - 1 && source !in sources
      ensures outcome.Deleted? <==> source.title.Some?
      ensures outcome.Deleted? ==> cache == Clear(old(cache), source.title.value)
      ensures outcome.Deleted? ==> forall now :: Get(cache, source.title.value, now) == None
      ensures outcome.Deleted? ==> saved == Persisted(sources) && source !in saved
      ensures outcome.TitleMissing? ==> cache == old(cache) && saved == old(saved)
    {
      sources := Without(sources, source);
      if source.title.None? {
        return TitleMissing;
      }
      cache := Clear(cache, source.title.value);
      SaveContext();
      outcome := Deleted;
    }
  }
}
