# A verified model of the dmem memory store

The system keeps a tenant's records in one SQLite file as rows that are never deleted. Every
row has a *valid* interval (when the fact holds in the world) and a *system* interval (when the
store believed it). Writes close rows and insert rows; reads take a slice of both axes, behind
two gates (audience scopes, agent trees); a graph of links between records is walked in two
bounded ways; a server shares the open store between threads and closes it at shutdown. This
project models that behaviour and proves what its code promises about it.

Files, from the bottom up:

- `Records.dfy` the record type, the names of kinds and interval arithmetic; a timestamp is a 64-bit integer.
- `Timeline.dfy` what one write does to the table, as a function of the table before and of the
  order in which the database happened to list the rows; disjointness and believed content.
- `Beliefs.dfy` what each write means point by point in valid time.
- `Runs.dfy` sequences of writes: system time, past slices, the work list, the graph cascade.
- `Store.dfy` the store as an object whose three tables the methods edit in place, each method
  tied to a transition of `Runs`; the keyword index mirrors the open rows after every one.
- `Visibility.dfy`, `Reads.dfy` the reader gates in both their forms; the queries; the scope
  fence; finality of answers about the past; which uris a traversal may pass.
- `Fences.dfy` what writes in one scope change about the graph of a reader fenced off from it.
- `Walks.dfy` distances over the link graph, as the reference for `Neighbors.dfy` (the plain
  traversal), `Scored.dfy` (the scored one), `Traversals.dfy` (the two compared) and
  `BestPaths.dfy` (for which seed weights the scores are those of best paths).
- `Connections.dfy` several connections interleaving the statements of their transactions.
- `Permits.dfy`, `Shutdown.dfy` the server's semaphore and its closing protocol as step systems.
- `Civil.dfy` epoch milliseconds from a civil date, against the calendar of RFC 3339.

`dafny verify dfyconfig.toml` checks the whole project.

Four readings decide what is true.

- Interval arithmetic reads a missing end as the largest timestamp, the SQL slices read it as
  unbounded. The two agree at every point below the largest timestamp; `PutBodies`,
  `InvalidateTruncates` and `LastPointLostIff` say exactly what holds at that one, and `CutsCompose`
  holds there too; other statements ask there that the write itself does not bring it in as a bound
  (`ExactFor`), or that no interval does (`ExactLog`).
- A write reads the clock before its transaction begins. Disjointness needs nothing of the clock.
  What the rest needs of the stamps of a run is exact: past slices stay unique when no stamp lies
  above both an earlier and a later one (`SlicesUniqueIff`), the past as of a time stays as it was
  when every stamp is later (`PastStaysIff`), "now" is the as-of slice when none is ahead of it
  (`CurrentIff`), and the work list is right when the cut parts the stamps (`WorkListIff`).
- `put` groups rows by key, `forget_in` and `invalidate_in` by uri. `StepEdgesIff` says exactly
  which writes leave no edge with a dead endpoint; keys equal to uris are enough.
- `put` suppresses a write when a covering segment has the same *body*. `PutPublishes` says
  exactly when that drops a changed title, tag list or importance.

## Model

| member | source | states |
|---|---|---|
| Timeline.PutDisjoint | src/sqlite.rs:635-680 | from a table whose open segments are pairwise disjoint per key and scope, a put leaves them so, whatever its stamp and whatever order the rows are listed in |
| Timeline.IntervalIsFree | src/sqlite.rs:656-677 | once overlapping segments are cut back, no open row of the record overlaps the asserted interval |
| Timeline.RewriteDisjoint | src/sqlite.rs:845-924 | forgetting and invalidating keep open segments disjoint |
| Timeline.RewriteContent | src/sqlite.rs:635-924 | at every point and for every record or uri, what a write erases of its selected rows is gone and everything else believed there is still believed, content unchanged |
| Beliefs.PutBodies | src/sqlite.rs:625-680 | put is a pointwise update: the body believed at a point of the asserted interval becomes the asserted one, and nowhere else does any body change; at every point below the largest timestamp, and at that one if and only if the end agrees (`EndAgrees`) |
| Beliefs.PutElsewhere | src/sqlite.rs:656-677 | off the asserted interval, and for every other record, the whole believed content is unchanged (left and right remainders) |
| Beliefs.PutHere | src/sqlite.rs:656-679 | when something is recorded, the content believed in the interval is the asserted content and no other |
| Beliefs.PutPublishes | src/sqlite.rs:647-655 | the asserted content is what is believed afterwards if and only if no covering segment with the same body has other content |
| Records.KindRoundTrip | src/entry.rs:43-98 | a kind written as text is read as the same kind |
| Records.RespelledIff | src/sqlite.rs:206-212 | a stored kind is written back as it is read if and only if it is the name of a kind: aliases of older versions and names of newer ones are not |
| Timeline.RewriteKinds | src/sqlite.rs:606-616 | after a write the rows it cut, and no others, are stored under their kind's name; every other stored kind is as it was |
| Beliefs.RemainderIsVerbatim | src/sqlite.rs:661-675 | a remainder repeats its row verbatim apart from the interval if and only if the row's kind is stored under the name of a kind; otherwise only that text differs |
| Beliefs.PutKeepsKind | src/sqlite.rs:656-677 | off the asserted interval a put leaves the stored kind of the record alone if and only if it records nothing or cuts no segment there stored under another text |
| Reads.RemainderChangesKind | src/sqlite.rs:738-755 | an instance: a query by kind misses a row stored as `incident`, and finds its remainder once a put elsewhere has cut it |
| Beliefs.PutTwice | src/sqlite.rs:647-655 | asserting the same entry again, at any later stamp, changes nothing |
| Beliefs.PutInsertsAtMostThree | src/sqlite.rs:656-677 | however many segments it overlaps, a put inserts at most three versions |
| Beliefs.PutGrowsByTwo | src/sqlite.rs:656-677 | and the open segments of the record grow by at most two |
| Beliefs.PutOrderIrrelevant | src/sqlite.rs:563-572 | the table after a put is the same multiset of rows in whatever order the query lists the current rows |
| Beliefs.RewriteOrderIrrelevant | src/sqlite.rs:576-585 | the same for forget and invalidate, and every row that existed ends up identical |
| Beliefs.RewriteConfined | src/sqlite.rs:574-585 | rows a write did not select are untouched and everything it inserts falls under its selection |
| Beliefs.InvalidateTruncates | src/sqlite.rs:892-912 | of the selected rows, every point below the cut keeps its content and every point from the cut on has none: at every point below the largest timestamp, and at that one if and only if the cut is earlier or no selected segment is endless |
| Beliefs.InvalidateTwice | src/sqlite.rs:899-912 | afterwards no selected row reaches past the cut, and repeating the call changes nothing |
| Beliefs.CutsCompose | src/sqlite.rs:892-924 | two cuts in sequence leave, at every point there is, what one cut at the earlier of the two leaves |
| Beliefs.ForgetRetracts | src/sqlite.rs:845-860 | a forget closes exactly the open rows it selects and inserts nothing |
| Beliefs.LastPointBodies | src/sqlite.rs:547-555 | what is believed at the largest timestamp after a put that records something: the endless segments it did not cut, or cut at an earlier end, and its own if it has no end |
| Beliefs.LastPointLostIff | src/sqlite.rs:547-555 | a put takes the last belief there away if and only if it is recorded, ends there, and overlaps every endless segment |
| Beliefs.LastPointIsLost | src/sqlite.rs:547-555 | an instance of the two rows above and of the exact condition of `PutBodies`: an interval ending there, asserted over an open-ended one |
| Beliefs.LastPointIsAmbiguous | src/sqlite.rs:547-555 | another instance: two intervals starting there do not overlap in arithmetic and are both believed in SQL |
| Runs.StepStamped | src/sqlite.rs:597-622 | a write removes no row, changes no field but an open row's system end, once, to its own stamp, and inserts open rows recorded at that stamp |
| Runs.StepFreezesPast | src/sqlite.rs:789-795 | a write leaves every slice before its own stamp as it was |
| Runs.RunDisjoint | src/sqlite.rs:625-634 | open segments stay disjoint in every sequence of writes, under any clock |
| Runs.RunExtends | src/sqlite.rs:597-603 | over every run rows keep their place and contents for ever, and the system end is set at most once, from none |
| Runs.RunFreezesPast | src/sqlite.rs:789-795 | no run of writes stamped after a time changes any slice as of that time |
| Runs.PastStaysIff | src/sqlite.rs:789-795 | runs with given stamps, from any table, leave every slice as of a time as it was if and only if every stamp is later |
| Runs.RunSliceUnique | src/sqlite.rs:789-795 | on every run whose stamps have no peak, from a table with settled rows, every as-of slice keeps at most one row per key and scope |
| Runs.StoreSliceUnique | src/sqlite.rs:789-795 | in particular from an empty store, at every pair of an as-of time and a point below the largest timestamp |
| Runs.SlicesUniqueIff | src/sqlite.rs:644-645 | every run with given stamps keeps every slice unique if and only if no stamp lies above both an earlier and a later one |
| Runs.PeakBreaksSlices | src/sqlite.rs:644-645 | wherever the stamps have a peak, three puts there and harmless writes elsewhere leave two bodies believed between |
| Runs.CurrentIsAsOfNow | src/sqlite.rs:18-23 | while no stamp lies ahead of `now`, the slice of an ordinary query is the as-of slice at (now, now) |
| Runs.CurrentIff | src/sqlite.rs:18-23 | for runs with given stamps it always is if and only if none of them lies ahead of `now` |
| Runs.ClockBackwards | src/sqlite.rs:644-645 | an instance: stamps 10, 20, 5 can leave two bodies believed as of 15, stamps 10, 5, 7 never do |
| Runs.WorkListExact | src/sqlite.rs:366-375 | cut a run at a time after the stamps before it and not after those behind it: the uris changed since are exactly those of the rows inserted or closed after the cut |
| Runs.WorkListIff | src/sqlite.rs:366-375 | for two runs with given stamps they always are if and only if the time parts the stamps |
| Runs.OnlyDeadEdgesGo | src/sqlite.rs:861-871 | an edge lost to a put, forget or invalidate had an endpoint with no open row left in any scope |
| Runs.PutKeepsLive | src/sqlite.rs:656-677 | with keys equal to uris, a put leaves every live uri live |
| Runs.PutLiveIff | src/sqlite.rs:656-677 | a uri is live after a put if and only if it is the put's own or has an open row whose whole interval the put does not assert (or, when nothing is recorded, was live) |
| Runs.StepEdgesIff | src/sqlite.rs:914-921 | from a table without dangling edges, a write leaves none if and only if it is no put or link, or a put every edge endpoint outlives, or a link of live records |
| Runs.RunEdgesIff | src/store.rs:86-92 | and a run has none in any of its tables if and only if each of its writes meets that condition |
| Runs.StepEdgesLive | src/sqlite.rs:914-921 | keys equal to uris, and links joining live records, meet it |
| Runs.RunEdgesLive | src/store.rs:86-92 | so over whole runs every edge endpoint has an open row |
| Runs.PruneSettles | src/sqlite.rs:1053-1063 | from any edge set, pruning removes exactly the edges with a dead endpoint, touches no row, and a second pruning finds nothing |
| Runs.KeysMatter | src/sqlite.rs:646-679 | an instance of the failing side: a put under a key that is not its uri ends another uri's last row and leaves its edges |
| Store.SqliteStore.constructor | src/sqlite.rs:76-117 | a fresh store has empty tables and an index that mirrors them |
| Store.SqliteStore.CurrentRows | src/sqlite.rs:563-585 | every open row the selection names, once, decoded |
| Store.SqliteStore.CloseVersion | src/sqlite.rs:597-603 | stamps the one row closed and takes exactly its row out of the index |
| Store.SqliteStore.InsertVersion | src/sqlite.rs:605-622 | appends the entry as an open row recorded now and indexes its text under the new id |
| Store.SqliteStore.HasLiveRow | src/sqlite.rs:587-595 | whether any scope holds an open row of the uri |
| Store.SqliteStore.AlreadyCovered | src/sqlite.rs:647-651 | the scan of the fetched rows finds exactly whether an open segment of the record covers the interval with the same body |
| Store.SqliteStore.SplitRow | src/sqlite.rs:656-676 | closing one overlapping row and re-inserting its remainders is one more step of the specified rewriting |
| Store.SqliteStore.CutRow | src/sqlite.rs:905-910 | closing one row that reaches past the cut and keeping the part before it is one more step of the truncation |
| Store.SqliteStore.Put | src/sqlite.rs:635-680 | refuses empty and inverted intervals, otherwise performs exactly the specified put, and leaves the index mirroring the open rows |
| Store.SqliteStore.ForgetIn | src/sqlite.rs:845-872 | performs the specified forget with its cascade and returns the number of open rows selected |
| Store.SqliteStore.InvalidateIn | src/sqlite.rs:892-924 | refuses a cut that is not positive, otherwise performs the specified truncation with its cascade and returns how many selected rows reached past the cut |
| Store.SqliteStore.Link | src/sqlite.rs:926-932 | adds the edge, a duplicate being no change |
| Store.SqliteStore.Unlink | src/sqlite.rs:934-939 | removes the edge and returns how many went, none or one |
| Store.SqliteStore.PruneDanglingEdges | src/sqlite.rs:1053-1063 | removes exactly the edges with a dead endpoint and returns how many |
| Store.VisitTouched | src/sqlite.rs:656-676 | editing one more selected row in place is appending it to the list of rows of the specified rewriting |
| Store.ReachingCounted | src/sqlite.rs:898-912 | the counter of an invalidation is the number of selected rows that reach past the cut |
| Visibility.GatesAgree | src/sqlite.rs:25-41 | the SQL substring gate and the row gate admit the same namespaces, for all of them, if and only if the agent label has no slash |
| Visibility.SplitIsTree | src/entry.rs:185-196 | a namespace has an owner exactly when its first seven characters spell the agents root in any ASCII case, and the owner is the next segment |
| Visibility.SqlIsRowGate | src/sqlite.rs:264-308 | for canonical labels the WHERE fragment admits exactly the rows the row gate admits |
| Reads.QueryIsTop | src/sqlite.rs:718-755 | every query returns, best first, the best `limit` of the rows it asks for among those the reader may see, and no fewer than there are |
| Reads.QueryOverAdmitted | src/sqlite.rs:281-308 | and equals the unrestricted query over only the rows the reader may see, LIMIT counting visible rows |
| Reads.LatestSaveIsNewest | src/sqlite.rs:874-890 | the latest save is the newest system time among the rows the reader may see, and none if there are none |
| Reads.RecallIsTop | src/sqlite.rs:789-825 | an as-of recall scans the best visible rows of its slice up to the cap, and returns the best `limit` of those that match |
| Reads.RecallOverAdmitted | src/sqlite.rs:796-807 | and, cap or no cap, equals the unrestricted recall over only the rows the reader may see |
| Reads.SortedIsOrdered | src/sqlite.rs:724-725 | a query's ordering is an ordering of exactly the filtered rows |
| Reads.StepConfined | src/store.rs:58-63 | a write confined to one scope leaves every row of other scopes identical and inserts only in its own |
| Reads.FencedReads | src/sqlite.rs:244-308 | no run of writes in a non-empty scope a reader lacks changes any of its queries or its latest save |
| Reads.FencedRecall | src/sqlite.rs:789-825 | nor any of its as-of recalls |
| Reads.RecallIsFinal | src/store.rs:43-46 | what the store answers as of a time it answers after every run of later-stamped writes: same rows, same order, apart from when they were closed |
| Reads.LiveUriVisible | src/sqlite.rs:1018-1031 | a live uri is on a reader's graph if and only if one of its open rows passes the row gate |
| Reads.DeadUriVisible | src/sqlite.rs:1032-1050 | a uri without open rows is on it if and only if the last row recorded for it passes, or there is none |
| Reads.FetchedIsVisible | src/sqlite.rs:310-331 | whatever `get` returns to a reader, the traversals may reach |
| Fences.ThroughFence | src/sqlite.rs:1014-1051 | a reader fenced off from a scope may walk through a uri if and only if it might without the scope's rows, and somebody outside holds the uri or the scope claims it neither by an open row nor by the last row recorded |
| Fences.FencedGraph | src/sqlite.rs:1014-1051 | a run confined to the scope changes that if and only if nobody outside holds the uri, the reader might walk through it otherwise, and the run starts or ends the claim |
| Fences.PutClaims | src/sqlite.rs:1026-1050 | after a put in the scope the reader may walk through its uri only if somebody outside holds it; a uri nobody had written leaves the reader's graph |
| Fences.FencedEdge | src/sqlite.rs:861-871 | a put, forget or invalidate confined to the scope changes whether the reader is served an edge only by changing whether its ends may be walked through: an edge its cascade removes was not served before |
| Fences.FencedEdges | src/sqlite.rs:941-967 | over every such run the edges between uris somebody outside holds are served as before |
| Walks.LevelIsDistance | src/sqlite.rs:969-1012 | the level at which a breadth-first walk first reaches a node is the length of the shortest walk to it, and conversely |
| Neighbors.Neighbors | src/sqlite.rs:969-1012 | no duplicates, no seeds, nondecreasing exact distances within `depth` through visible nodes, and every such node when fewer than `limit` come back |
| Scored.EdgesOf | src/sqlite.rs:941-967 | the edges of a uri the reader may see, to uris it may see, and none otherwise |
| Scored.Follow | src/store.rs:138-166 | following one edge in place does what the specified arrival does |
| Scored.ArriveKeeps | src/store.rs:146-166 | an arrival records a first visit, upgrades a worse score, is turned away by the limit or by a seed, and keeps everything already established |
| Scored.NeighborsScored | src/store.rs:120-183 | the answer in strict order of score, hop and uri, with all the properties the rows below draw from it |
| Scored.HopsAreDistances | src/store.rs:113-116 | each hop is the exact shortest distance from the visible seeds through visible nodes, even when the limit cuts the walk |
| Scored.AnswerIsComplete | src/store.rs:117-118 | below the limit the answer is every node within the depth |
| Scored.ScoreIsEarned | src/store.rs:151-166 | each score is a seed's weight decayed once per step of an actual walk to `via`, and once more over an edge labelled `rel` |
| Scored.ScoreIsBestArrival | src/store.rs:113-116 | each score is the best that any expanded node brought to the hit, and `via` brought it |
| Scored.SeedsCount | src/store.rs:151-159 | a neighbour of a visible seed scores at least that seed's weight decayed once |
| Scored.UniformScores | src/store.rs:113-116 | with one nonnegative weight and a decay between 0 and 1 the score is exactly the weight decayed once per hop, although no node is expanded twice |
| BestPaths.BestPathsIff | src/store.rs:111-117 | the documented best-path score: on every graph every hit scores at least the weight of every visible seed decayed along every walk to it within the depth, if and only if the weights suit the room: with a limit of two or more, seed uris taken once, they are listed falling and none is below the first decayed once; with a limit of one, in any order, no uri's greatest is below any weight decayed once; with none, or at depth one, any |
| BestPaths.OneHopKept | src/store.rs:111-117 | at depth one, the default of its caller, it holds for any weights |
| BestPaths.SteadySuffices | src/store.rs:111-117 | for such weights it holds for walks of any length, however the limit cuts the walk |
| BestPaths.EvenSuffices | src/store.rs:154-156 | with room for one hit, which is then joined to a seed, such weights bound walks of any length |
| BestPaths.UpgradeIsNotPassedOn | src/store.rs:115-117 | with a heavier seed listed after a lighter one, two seeds, a node and its neighbour make every answer fall short at that neighbour, which every answer lists |
| BestPaths.SeedIsNotRaised | src/store.rs:117 | with a seed below another decayed once, the two and a node make every answer fall short, however little room there is |
| BestPaths.SomeAnswer | src/store.rs:120-183 | every question has an answer that meets the traversal's contract |
| BestPaths.RankedSeeds | src/tools.rs:1945-1956 | for the weights 1, 1/2, 1/3, ... that recall gives its seeds, the promise is kept on every graph if and only if the last weight is at least the decay |
| BestPaths.TwoSeedsAtMost | src/config.rs:326-327 | at the default decay of one half: if and only if there are at most two seeds |
| Scored.SortHits | src/store.rs:174-181 | the hits in strict order, independent of the order the map yields them |
| Traversals.TraversalsAgree | src/store.rs:109-134 | for any seeds and depth, while the plain traversal is uncut, both list the same nodes if and only if what lies around all seeds within the depth lies around the visible seeds within the depth cut to 32 bits |
| Traversals.VisibleTraversalsAgree | src/store.rs:109-134 | with visible seeds, if and only if nothing lies between the two depths; so always below 2^32 |
| Traversals.HiddenSeedBridges | src/sqlite.rs:969-1012 | an instance: out of a seed the reader may not see, the plain traversal lists a node and the scored one does not |
| Traversals.ScoredIn | src/store.rs:141-145 | whatever seeds are visible, an uncut plain answer lists every scored hit |
| Traversals.PlainCounts | src/sqlite.rs:969-1012 | the plain answer has as many nodes as there are, or as the limit lets through, and below the limit is all of them |
| Traversals.ScoredCounts | src/store.rs:117-118 | so has the scored one |
| Traversals.CutAlike | src/store.rs:109-122 | the scored one is never cut alone; the plain one is if and only if the limit lies between what the two have to answer |
| Traversals.WrappedDepthFindsNothing | src/store.rs:134 | the scored walk returns nothing if and only if the limit is zero or its cut depth reaches no further than the seeds, as it does at every multiple of 2^32 |
| Traversals.ReachedIsVisible | src/store.rs:192-194 | a live uri reached by any walk has an open row that passes the reader's gates |
| Connections.StepIsWrite | src/sqlite.rs:60-67 | a step of any connection leaves the committed tables alone or performs one whole write on them |
| Connections.InterleavingIsRun | src/sqlite.rs:60-67 | every interleaving of the statements of puts, forgets and invalidates commits what a sequence of whole writes in commit order would, edges included |
| Connections.CommittedDisjoint | src/sqlite.rs:644-679 | so open segments are disjoint after every commit, whatever order the stamps come in |
| Permits.InvKept | src/server.rs:337-360 | free plus held permits are the total, and while a thread sleeps at least as many notifications and woken threads are under way as permits are free |
| Permits.PermitsAreSafe | src/server.rs:337-360 | both, and that at most the total is held, in every interleaving, spurious wake-ups and overtaking included |
| Permits.QuietMeansAllHeld | src/server.rs:344-351 | when nothing is under way and somebody sleeps, every permit is held |
| Permits.NeverStuck | src/server.rs:355-360 | while somebody sleeps beside a free permit, a thread that is not asleep can take a step of its own |
| Shutdown.InvKept | src/server.rs:1432-1476 | every step keeps the lock discipline, the flag-before-flush order, the seal on flushed handles and the ownership of scope contexts |
| Shutdown.FlushedIsFinal | src/server.rs:765-815 | in every interleaving of requests, first opens, heals and the closer, a flushed handle runs no request body again and holds nothing unflushed |
| Shutdown.OnlyStragglers | src/server.rs:1447-1454 | once the closing flag is up no body begins: those still running ran before, on the same handles |
| Shutdown.BodiesAreIsolated | src/server.rs:1455-1470 | at most one body runs on a handle, under its own request's scope context, and a handle no body panicked on carries no context between bodies |
| Shutdown.NothingLeftOut | src/server.rs:774-823 | when the closer's sweep ends, every handle with something unflushed, or on which a body still runs, was replaced by a heal or belongs to a tenant the report names as opening, busy or failed |
| Shutdown.RecheckMatters | src/server.rs:1447-1454 | a request can come to hold the lock of a flushed handle, so the second look at the flag is what stops it |
| Civil.DaysCountsCalendar | src/migrate.rs:38-44 | for every year from 1970 and every month 1 to 12 the closed form is the count by year and month lengths with the Gregorian leap rule |
| Civil.MonthsPastDecember | src/migrate.rs:35-44 | a month above 12 is not refused, and is read as the month so many later if and only if it is 13 or 14 |
| Civil.DaysOfCalendar | src/migrate.rs:38-44 | the date reached by turning n leaves from 1970-01-01 has day number n |
| Civil.CalendarOfDays | src/migrate.rs:38-44 | and turning as many leaves as a valid date's day number leads back to it |
| Civil.OrderKept | src/migrate.rs:28-45 | timestamps keep their order in epoch milliseconds; two different ones meet if and only if the first is a leap second and the other the next minute's start |
| Civil.StampOfInstant | src/migrate.rs:28-45 | with seconds 0 to 59 the instant determines date and time |
| Civil.LeapSecondCollides | src/migrate.rs:44 | a leap second and the second after it get the same instant |
| Civil.PastMonthEndRollsOver | src/migrate.rs:35-44 | a day number past the month's end is not refused and is read as a later valid date |

## Where code and documentation part

- src/store.rs:111-113 promises the score of the best-scoring arrival path. An upgrade is not
  passed on to nodes already expanded, as the same comment says, and seeds are never scored.
  `BestPaths.BestPathsIff` is exactly when the promise is kept all the same: recall's own weights
  keep it for two seeds at the default decay, and for no more.
- src/sqlite.rs:993-994 gives the plain traversal the scored one's rule for invisible nodes. It does
  not apply the rule to its seeds, which src/server.rs:1666-1670 takes from the client: from a seed
  the reader may not see it walks on (`HiddenSeedBridges`), the scored one does not.
- src/store.rs:134 counts hops in 32 bits, so a depth of 2^32 or more is cut to its low bits.
- src/sqlite.rs:4-6 presents past slices as fixed. They are as of times before every later stamp,
  and of no others; they hold one row per record exactly when the stamps do not fall after a rise.
- src/sqlite.rs:605-606 says remainders preserve the prior row. The kind is rewritten: one written
  by a newer version becomes a plain memory, and an older alias the name it stands for, which
  queries by kind tell apart (src/sqlite.rs:742).

## Left out

- SQLite itself: parsing, the journal, busy timeouts, I/O errors and rows that fail to decode. A transaction is atomic, except in `Connections`, where its statements are steps under the write lock.
- Row ids: they are positions in the table, numbered from 0, since rows are never deleted.
- Keyword recall (`recall_scored`), its tokenisation and ranking, the signals table and the vector index: only which rows are indexed, with which text, is modelled.
- Query: rows come back as stored; decoding the kind is modelled where rows are written back, not where they are returned.
- Entry: tags are a list; a tag text that is no list, which no version writes, reads back as none.
- SortedIsOrdered: rows equal in importance and creation time keep insertion order; the database leaves that order open.
- RecallAsOf: the keyword test is a parameter, a predicate on the row's text.
- EdgesOf: edges are a set, served in any order; the order by creation time is not modelled, so every statement holds for each order.
- ReaderNet: the traversals take the gate of a uri as a function fixed for the length of the walk.
- Scored: weights, decay and scores are real numbers, without rounding or NaN.
- RunEdgesLive: that keys are uris and links join live records is an assumption about callers; `RunEdgesIff` makes none.
- BestPathsIff: a decay above 0 and at most 1, all that src/config.rs:406-415 lets through.
- NothingLeftOut: a heal replaces only handles without a vector index, on which the code has nothing to flush; the model does not tell the two apart.
- FlushedIsFinal: the background re-embedding threads write vectors outside the tenant lock and are not part of this; deadlines are a free choice at every step.
- Poisoned locks are modelled as locks that go on being used, as the code does.
- EpochMs: takes the numeric fields; cutting them out of the text and the ignored offset and fraction are left out.
- `by_kind_for_agent`, `get_in_scope` and `all_edges` are variations of modelled queries; schema migration, access tokens, configuration, transport, command line and user interface are other matters.
