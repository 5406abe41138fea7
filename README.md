# Yonda feed refresh and article rendering, modelled in Dafny

Yonda is a SwiftUI RSS reader. Its main view (`Shared/ContentView.swift`)
keeps a Core Data registry of `Source` objects (URL, title, pin flag). It
refreshes them through an on-disk cache of decoded feeds and lists them in a
sidebar with a pinned and an unpinned section. The article view
(`Shared/ItemDetailView.swift`) turns an item's HTML into a list of text
blocks. This project models that core:

- `outcomes.dfy`, module `Outcomes`: `Option` and `Result`.
- `feed_cache.dfy`, module `FeedCache`: the cache (the Sebu library) as the
  refresh uses it. It holds named entries with an expiry instant, and `get`
  answers while the current instant is before the expiry.
- `refresh_cycle.dfy`, module `RefreshCycle`: one run of
  `updateSources(withAnimation:)` stated on values.
  - The sources are visited as records, pinned first. Each visit is
    recorded as skipped, served from the cache, loaded remotely, or failed.
  - The state threaded through a run covers the local `newFeeds`, the
    titles, the cache, the published `feeds` and what the context save
    persisted.
  - The lemmas state what a whole run does.
  - This module also holds the sidebar's match of sources to feeds by title.
- `content_view.dfy`, module `ContentViews`: the objects and the operations
  that change them.
  - `Source` and `ContentView` are classes.
  - `UpdateSources` computes the visiting order and hands it to
    `RefreshLoop`, the loop itself. Both are proved to compute
    `RefreshCycle.Refresh` over the sources in visiting order, and to leave
    the objects' titles, the cache, the feeds and the save as `Refresh` says.
  - `AddItem`, `TogglePin` and `Delete` are the add sheet's completion, the
    row's pin toggle and its delete action.
- `item_detail.dfy`, module `ItemDetail`: the `.task` of the article view.
  - Parsed elements are values: a tag, the outcome of `text()`, and the
    child elements.
  - The `compactMap` over the body's children is `Blocks`. It is proved to
    be a filter on the tags `p`, `pre` and `code` followed by a one-for-one
    rendering.
  - `Lines` is proved to invert the `"\n"`-joining of a `pre` block.

The outside world comes in as parameters, in an `Env` for the refresh:
- the current instant, fixed for one run;
- whether `URL(string:)` accepts a string;
- the remote decoder, keyed by URL string, which answers a feed or an error;
- whether the cache accepts a save;
- the HTML parser, for the article view.

### Where descriptions of the app and its code differ

The model follows the code:
- Sources are resolved one after another, not concurrently.
- The first decode or cache-save error ends the whole run
  (`Shared/ContentView.swift:146-170`), rather than skipping that one source.
- Adding a source does not check for an existing source with the same URL or
  title.
- A failed decode during an add, or a decoded feed without a title, ends the
  app (`fatalError` and a force-unwrap at `Shared/ContentView.swift:179-186`).
  These are not reported errors.

## Model

| member | source | states |
|---|---|---|
| FeedCache.Get | Shared/ContentView.swift:149 | a name answers exactly while it is stored and the instant is before its expiry, and then answers the stored snapshot |
| FeedCache.Save | Shared/ContentView.swift:158 | storing a snapshot under a name adds that name and leaves every other entry as it was |
| FeedCache.Clear | Shared/ContentView.swift:285 | clearing a name removes exactly that name and keeps the other entries |
| FeedCache.GetAfterSave | Shared/ContentView.swift:149-158 | an entry saved with a lifetime is returned before the lifetime ends and not from then on |
| FeedCache.SaveKeepsOthers | Shared/ContentView.swift:158 | saving under one name does not change what any other name returns |
| FeedCache.GetAfterClear | Shared/ContentView.swift:285 | after a clear nothing is returned under that name at any instant |
| FeedCache.FreshEntryHits | Shared/ContentView.swift:149-158 | an entry saved for five minutes is returned at the instant it was saved |
| RefreshCycle.Loadable | Shared/ContentView.swift:148 | a source without a URL string is never loaded; one with a URL string is loaded exactly when `URL(string:)` accepts it |
| RefreshCycle.Append | Shared/ContentView.swift:136-144 | appending one feed to `newFeeds` publishes the collection and saves the titles exactly when it reaches the number of sources, and otherwise leaves feeds and save as they were |
| RefreshCycle.Step | Shared/ContentView.swift:148-165 | one visit keeps the state consistent with the sources and adds exactly one visit after the earlier ones |
| RefreshCycle.Stored | Shared/ContentView.swift:158-164 | a remote load records the loaded visit, appends the feed, saves it under the source's title for five minutes, and takes the feed's title for that source |
| RefreshCycle.Refresh | Shared/ContentView.swift:135-171 | a run keeps one title per source and visits either every source or stops at a failed visit |
| RefreshCycle.Run | Shared/ContentView.swift:146-170 | the loop visits every source unless a visit failed, and then the failed visit is the last one |
| RefreshCycle.Collected | Shared/ContentView.swift:147-167 | the collected feeds never outnumber the visits, and equal them in number exactly when every visit contributed a feed |
| RefreshCycle.CollectedHas | Shared/ContentView.swift:153-160 | every snapshot a visit contributed is among those collected |
| RefreshCycle.LoadedNamesFrom | Shared/ContentView.swift:158 | a name has been written to the cache during the run exactly when some remotely loaded source had that title |
| RefreshCycle.StepShape | Shared/ContentView.swift:148-165 | one visit, case by case: skip without a parseable URL; a cache hit appends the cached feed and changes neither cache nor titles; a remote load saves, appends and retitles; a failure changes nothing but the trace |
| RefreshCycle.VisitsInOrder | Shared/ContentView.swift:147-167 | sources are visited in order, at most once each; a source is skipped exactly when its URL is missing or unparseable; only the last visit can fail; the collected feeds are the contributed snapshots in visiting order and never outnumber the sources |
| RefreshCycle.TitlesReconciledAfterRefresh | Shared/ContentView.swift:162-164 | after a run a remotely loaded source carries the loaded feed's title, and every other source keeps its own |
| RefreshCycle.PublishesOnlyWhenAllResolved | Shared/ContentView.swift:136-145 | the feeds are published and the context saved exactly when there is a source and every source contributed a feed; the published feeds are then one per source; the save persists the last source's title from before its reconciliation; otherwise the previous feeds stay |
| RefreshCycle.FailureEndsCycle | Shared/ContentView.swift:146-170 | after a failure nothing is published or saved, and no later source is renamed |
| RefreshCycle.CacheAfterRefresh | Shared/ContentView.swift:149-158 | names no source loaded keep their entry or its absence; a loaded source's snapshot is stored under its title for five minutes from now; a later source with the same title is served that snapshot from the cache |
| RefreshCycle.HitMakesNoDecode | Shared/ContentView.swift:149-153 | a source whose title names a live entry is served from the cache, whatever the decoder would answer |
| RefreshCycle.MissLoadsAndSaves | Shared/ContentView.swift:154-165 | on a miss a decode error fails the visit; otherwise the feed is saved under the title for five minutes, unless the save throws, then appended, then its title is taken |
| RefreshCycle.WarmCacheMakesNoDecode | Shared/ContentView.swift:147-153 | when every loadable source has a live entry, a run decodes nothing, visits every source, and leaves cache and titles as they were |
| RefreshCycle.ReadyAfterRefresh | Shared/ContentView.swift:149-164 | the next run's force-unwraps of titles are safe exactly when no remotely loaded feed lacked a title |
| RefreshCycle.FirstWithTitle | Shared/ContentView.swift:54 | `first(where:)` on titles: None exactly when no feed has the title, otherwise the earliest feed that has it |
| RefreshCycle.Rows | Shared/ContentView.swift:53-67 | a section has at most one row per source, and each row shows the first feed with the source's title |
| RefreshCycle.SidebarOf | Shared/ContentView.swift:50-76 | sections exactly when some feed is published, the add-a-source prompt exactly when nothing is published and there are no sources, the progress view otherwise; a section never has more rows than sources |
| RefreshCycle.RowsAppend | Shared/ContentView.swift:53-67 | rows keep the order of the sources |
| RefreshCycle.AllRowsShown | Shared/ContentView.swift:53-67 | every source of a section has a row exactly when every source's title matches some feed |
| RefreshCycle.LoadedSourcesListed | Shared/ContentView.swift:136-164 | after a run that published, every remotely loaded source's reconciled title matches a published feed, so it has a row |
| ContentViews.Partition | Shared/ContentView.swift:16-26 | a section holds exactly the sources with that pin flag, each once |
| ContentViews.PartitionSplits | Shared/ContentView.swift:16-26 | the two sections together hold every source exactly once |
| ContentViews.PartitionSizes | Shared/ContentView.swift:16-26 | the two sections' sizes add up to the number of sources |
| ContentViews.Order | Shared/ContentView.swift:147 | the visiting order holds every source once and nothing else, and no unpinned source comes before a pinned one |
| ContentViews.PinnedFirst | Shared/ContentView.swift:147 | pinned sources followed by unpinned ones put no unpinned source before a pinned one |
| ContentViews.OrderIsPermutation | Shared/ContentView.swift:147 | the visiting order is a permutation of the registry |
| ContentViews.Persisted | Shared/ContentView.swift:141 | a save persists every registered object's fields and no other object |
| ContentViews.Without | Shared/ContentView.swift:283 | deleting an object removes it and keeps every other object, one fewer in all |
| ContentViews.ReadyInOrder | Shared/ContentView.swift:147-149 | every loadable source having a title is the same in registry and in visiting order |
| ContentViews.Source.constructor | Shared/ContentView.swift:174 | a new source has no URL, no title and is not pinned |
| ContentViews.ContentView.SidebarView | Shared/ContentView.swift:50-76 | sections are shown exactly when some feed is published; the prompt exactly when nothing is published and there are no sources; sections never list more rows than sources |
| ContentViews.ContentView.SaveContext | Shared/ContentView.swift:141 | the save persists the current fields of every registered object |
| ContentViews.ContentView.DidSetNewFeeds | Shared/ContentView.swift:136-145 | once the collection reaches the number of sources it is published and the context saved; before that nothing changes |
| ContentViews.ContentView.UpdateSources | Shared/ContentView.swift:135-171 | feeds, cache and every source's title end as `Refresh` computes them; URL and pin flags do not change; the save holds exactly the registered sources, with the records and titles `Refresh` saved, or nothing was saved |
| ContentViews.ContentView.RefreshLoop | Shared/ContentView.swift:146-170 | the loop over the visiting order computes `Refresh`, stopping at the first thrown error |
| ContentViews.ContentView.VisitSource | Shared/ContentView.swift:148-166 | one iteration moves the objects, cache, feeds and save from one cycle state to `Step` of it, and reports a throw exactly when the visit failed |
| ContentViews.ContentView.LoadSource | Shared/ContentView.swift:154-165 | a cache miss moves the state to `Step` of it: a decode or save error ends the loop, and success stores, appends and retitles |
| ContentViews.ContentView.StoreSource | Shared/ContentView.swift:158-164 | a decoded feed is stored under the source's title for five minutes, appended, and its title taken |
| ContentViews.ContentView.Contribute | Shared/ContentView.swift:136-160 | appending to `newFeeds` runs the observer as `Append` says |
| ContentViews.ContentView.SaveEntry | Shared/ContentView.swift:158 | `Sebu.save` puts the entry under the name with its expiry, and the loop's state moves with the cycle's cache and nothing else |
| ContentViews.ContentView.Retitle | Shared/ContentView.swift:162-164 | the source takes the feed's title and no other object changes |
| ContentViews.ContentView.AddItem | Shared/ContentView.swift:173-192 | a fresh unpinned source with the URL is registered at once; a decode error or a feed without a title ends the app with the source untitled and nothing saved; otherwise the source takes the title and everything is saved; a registry ready for a refresh stays ready |
| ContentViews.ContentView.TogglePin | Shared/ContentView.swift:256-259 | the pin flag flips, the source moves to the other section, URL and title stay, and the save persists the registry |
| ContentViews.ContentView.Delete | Shared/ContentView.swift:282-288 | the source leaves the registry; with a title, the cache no longer answers under it at any instant and the save no longer holds the source; without one the app ends at the force-unwrap with cache and save unchanged |
| ItemDetail.ChildTexts | Shared/ItemDetailView.swift:122-124 | the children's texts in order, or None exactly when one child's text throws |
| ItemDetail.Render | Shared/ItemDetailView.swift:111-150 | the closure throws exactly when `text()` throws for `p`, `code` or `a`, or for a child of `pre`; it yields a block exactly for `p`, `pre` and `code` when it does not throw; a paragraph or code block carries the element's text, a `pre` block its children's texts joined by `"\n"` |
| ItemDetail.Blocks | Shared/ItemDetailView.swift:110-151 | the `compactMap` throws exactly when the closure throws on some element, and otherwise yields no more blocks than elements |
| ItemDetail.Kept | Shared/ItemDetailView.swift:112-150 | the filter keeps exactly the `p`, `pre` and `code` elements |
| ItemDetail.TaskContents | Shared/ItemDetailView.swift:103-160 | without content, on a parse error or on a closure error `contents` stays as it was; a document without a body gives no blocks; any other change is the body's blocks |
| ItemDetail.BlocksAreKeptRendered | Shared/ItemDetailView.swift:110-151 | without a throw the blocks are the kept elements rendered one for one, in element order |
| ItemDetail.BlocksAppend | Shared/ItemDetailView.swift:110-151 | the blocks of two halves of a body are the blocks of each half in order, and a throw in either half aborts |
| ItemDetail.KeptAppend | Shared/ItemDetailView.swift:112-150 | filtering keeps the order of the two halves |
| ItemDetail.UndisplayedContributeNothing | Shared/ItemDetailView.swift:145-149 | removing every element other than `p`, `pre` and `code` does not change the blocks |
| ItemDetail.Join | Shared/ItemDetailView.swift:125 | no parts join to the empty text, one part to itself, and several to a text at least as long as the first part and the separator |
| ItemDetail.JoinPrefix | Shared/ItemDetailView.swift:125 | several parts joined start with the first part followed by the separator |
| ItemDetail.LinesOfJoin | Shared/ItemDetailView.swift:122-125 | the lines of one or more `"\n"`-joined texts are those texts when none of them spans lines (no texts join to `""`, whose lines are `[""]`) |
| ItemDetail.JoinOfLines | Shared/ItemDetailView.swift:125 | joining a text's lines with `"\n"` gives the text back |
| ItemDetail.PreShowsChildLines | Shared/ItemDetailView.swift:121-134 | a `pre` element with one or more single-line children shows exactly those children's texts as its lines |
| ItemDetail.TaskRendersBody | Shared/ItemDetailView.swift:104-151 | content that parses to a body whose children all render becomes the kept children's blocks, one for one |

## Left out

- Concurrency. The refresh triggers are left out: the view's `.task`, pull-to-refresh, the update notification, and the refresh started after an add or a delete (`Shared/ContentView.swift:79-81,125-132,189-191,288`). Each run is modelled alone. Overlapping runs, and their interleaving at the decoder's `await`, are not modelled.
- The clock. `Date()` is one instant per run (`Env.now`). Expiry is modelled as "before the instant plus five minutes", in whole seconds. `Calendar` arithmetic is not modelled.
- Sebu, Moji, SwiftSoup and Core Data are not part of this model. Each is replaced by a function given by the caller, or by a value:
  - the cache's `get`/`save`/`clear` by a map with expiry;
  - `Moji.decode` by `Env.decode`;
  - `URL(string:)` by `Env.parses`;
  - `SwiftSoup.parse` and `text()` by optional values;
  - a throwing `get` by a miss.
- RefreshCycle.Refresh: requires `Ready`, so the `source.title!` force-unwraps at `Shared/ContentView.swift:149` and `:158` never trap; the crash on a loadable untitled source is not modelled. `Ready` also excludes registries whose run would stop at a failure before it reaches the untitled source, and so would not crash. `ReadyAfterRefresh` says when a run leaves the registry `Ready`.
- ContentViews.ContentView.UpdateSources: requires `Ready` over the visiting order for the same reason; the crash at the `Shared/ContentView.swift:149` force-unwrap is not modelled, and runs that stop at a failure before an untitled source are excluded as well.
- ContentViews.ContentView.SaveContext: a context save is taken to succeed. The `try?` saves ignore errors, and a failing save in `addItem` would end the app; neither error path is modelled.
- `Sebu.clear` in the delete action is taken to succeed; its error is ignored by `try?` in the source as well.
- ContentViews.Source.constructor: the Core Data model file is not part of this model; a new source is taken to be unpinned (`isPinned` defaulting to `false`), so that it appears in the unpinned section.
- ContentViews.Partition: the fetch requests have no sort descriptors, so Core Data promises no order. The model takes insertion order.
- The progress indicator's fraction, the favicon, logging (`NSLog`, `print`), sharing, selection, navigation and all layout are left out. They are presentation only.
- `ContentItem` identity (`UUID()`) is left out; a block is its text and kind.
- The platform-specific modifiers in the article view (`#if os(macOS)`) only style the blocks and are left out.
