# Order books, depth, and the structures under them

This project models the parts of the repository whose correctness is hard to see from any one function,
and proves what they keep over every run:

- **`HashMap`** — open addressing with linear probing, growth by copying, and backward-shift deletion
  (`Word64`, `ProbeTable`, `HashMap`). The index arithmetic is the unsigned 64-bit arithmetic of the source.
- **`Referencer` over `MsgList`** — an actor mailbox whose size counter alone decides who may execute.
  `Mailbox` is its step system, with any number of threads; `MailboxSafety`, `MailboxRuns` and `MailboxOnce` prove its
  invariant and what follows over all interleavings, also after the right to execute is lost (`MailboxFrames`).
  `MsgList` has the same objects as classes, for one thread.
- **`Depth` and `DepthLevel`** — a fixed number of sorted slots a side, a spill map, and change stamps
  (`DepthSide` for one side as a value, `DepthRefinement`, `DepthOperations`, `DepthRuns`, `DepthShortRuns` for
  the search as written, `DepthChanges` and `DepthPublishing` for stamps and publications, and the classes in
  `Depth`).
- **Two order books for one feed** — `OrderBookType2` aggregates as messages come, `OrderBookImproved`
  when it prints (`AggregatedBook` and `MultimapBook` as values, one class each, `Simulation` between them,
  `Ladder` for what both show), and `OrderBookManagerType2`, which routes messages to books.
- **`FastBuffer`** and **`NonSyncFreeListBase`** — a ring of slots between two threads (`Ring`, `FastBuffer`),
  and a recycling chain between water marks (`FreeChain`, `FreeList`).

A class has the fields of the source and methods with its loops; each method is proved against functions on
values, and the properties of runs are lemmas about those functions. `dafny verify dfyconfig.toml` checks everything.

## Where the code does not keep what it promises

Each is kept as written, and the exact condition is proved:

- `findLevel` stops before the last slot. On live levels that makes no difference to changes and closings
  (`ShortSearchFindsLive`). With n slots, an added order keeps the side right if and only if the number of live
  prices ahead of its price is not n - 1, that is, if it does not belong to the last slot (`ShortAddRepIff` over what
  the search sees, `ServesIffNotLast` over live orders); a replacement if and only if that holds of its new price,
  or the price stays, or the n-th best price loses its only order to a better one (`ShortReplaceRepIff`,
  `LastIsRanked`). A whole run shows the ladder at every moment if and only if each of its operations meets its
  condition on the live orders (`EveryShortRunShowsLadderIff`). Ten bids into an empty book go wrong
  (`TenBidsHideTenth`). On a price without a level the search works on the last slot (`ShortSearchHitsLastSlot`);
  change tracking survives that unless the slot is empty (`CallTracksIff`, and `UnreachedChangeIsMissed` for a run
  on which a change is missed). The constant `scan` of `Depth` is the number of slots a search visits, and all
  contracts of the class hold for both values.
- `execute` leaves the loop without a pop when a functor returns END_BIT, or KEEP_BIT with DEL_BIT. Exactly then the
  right to execute is lost (`StepKeepsIff`, and `OwnedIffTokenKept` over runs), and no functor of that mailbox is ever
  called again (`StrandedForever`); `SomeRunDrops` is a run of one thread that gets there. Memory safety, the order of
  execution and the exclusion of functors do not depend on it.
- `getNext` returns the message it has just popped, not null, when the list is drained (`DrainedGetNextIsStale`).
- `modifyOrder` leaves the old order in the index, so levels and index disagree unless price and quantity stay
  (`ModifyLeavesIndexStale`), and it puts the new order on the side of the old one, which is right unless the side
  changes (`ModifyReplacesOrder`). A later cancel brings the two books together again if and only if nothing had
  changed, or the modification left an order that is alone at its price no larger (`ModifyThenCancelIff`); a price
  change is a case where it does not (`ModifyThenCancelParts`).
- `OrderBookImproved` files a duplicate new order before it refuses it; exactly then the index stops being a
  bijection, and for good (`StepBijective`, `RunBijective` over runs, `RefusedOrderStays` for one). It sums printed quantities in 32 bits, so the two books print the same if and only if the
  sums fit (`PrintsAgreeIff`); two orders that fit can have a sum that does not (`TwoOrdersOverflow`).
- `FastBuffer::length` is wrong between a slot's update and its index's update, unless both sides are there at once or
  the buffer has one slot (`LengthExactIff`; `LengthMidPush` is a run that gets there).

## Model

| member | source | states |
|---|---|---|
| Word64.AndMask | Common/include/HashMap.h:207-220 | masking with one less than a power of two is the remainder, so the bit masks wrap around |
| ProbeTable.KeyToIdxIsRemainder | Common/include/HashMap.h:207-210 | the ideal index is the hash modulo the number of buckets |
| ProbeTable.NextWraps | Common/include/HashMap.h:212-215 | probing goes to the next bucket and from the last one to the first |
| ProbeTable.DiffWraps | Common/include/HashMap.h:217-220 | the unsigned difference is the number of probe steps between two buckets, across the wrap-around |
| ProbeTable.FreeBucketExists | Common/include/HashMap.h:110-140 | a table that is not full has a free bucket, at which every probe loop ends |
| ProbeTable.InsertAtFree | Common/include/HashMap.h:113-118 | filling the free bucket that ends a probe adds the pair, keeps keys unique and every entry reachable from its ideal index |
| ProbeTable.VacateStarts | Common/include/HashMap.h:125-127 | taking the erased bucket as free leaves the map without its key and interrupts only probes that pass it |
| ProbeTable.VacateMoves | Common/include/HashMap.h:133-138 | moving back an entry that is closer to its ideal index there keeps all pairs and moves the hole, one step closer to the end of the loop |
| ProbeTable.VacateSkips | Common/include/HashMap.h:133-138 | an entry that is not closer there does not need the hole |
| ProbeTable.VacateEnds | Common/include/HashMap.h:128-132 | at a free bucket the hole can be freed: what is left is the map without the key, every entry reachable without a gap |
| HashMaps.HashMap.constructor | Common/include/HashMap.h:66-72 | an empty map over the next power of two |
| HashMaps.HashMap.Copy | Common/include/HashMap.h:74-79 | the copy holds the same pairs; if they fit half of it, it does not grow, which bounds reserve, copy and emplace calling each other |
| HashMaps.HashMap.Find | Common/include/HashMap.h:171-180 | the bucket of the key with its value if and only if the map has the key, the end otherwise; the loop ends |
| HashMaps.HashMap.Emplace | Common/include/HashMap.h:110-123 | adds the pair only if the key is absent, never overwrites, and grows exactly when half full |
| HashMaps.HashMap.Erase | Common/include/HashMap.h:125-140 | exactly the key at the iterator leaves the map; all invariants hold again |
| HashMaps.HashMap.Reserve | Common/include/HashMap.h:196-201 | the pairs are preserved, and the table doubles exactly when the count would exceed half of it |
| HashMaps.HashMap.Rehash | Common/include/HashMap.h:190-194 | the pairs are preserved in a table of the next power of two from the count asked for, or from twice the entries |
| HashMaps.HashMap.AdvancePastEmpty | Common/include/HashMap.h:50-55 | iteration stops at the first occupied bucket |
| HashMaps.HashMap.InsertAll | Common/include/HashMap.h:76-78 | walking one table and inserting into an empty one copies every pair once |
| MailboxRuns.StartHolds | Common/include/containers/msglist.hpp:49-56 | the empty list with its dummy node satisfies the invariant |
| MailboxRuns.StepKeepsIff | Common/include/containers/Referencer.hpp:210-314 | a step of any thread keeps the invariant if and only if it is not the end of a functor that returned END_BIT, or KEEP_BIT with DEL_BIT |
| MailboxRuns.EveryRunHasOneOwner | Common/include/containers/Referencer.hpp:183-314 | in every interleaving of any number of threads there is exactly one owner of the right to execute while the size is positive, none while it is zero, and no two functors run at once |
| MailboxRuns.OwnedIffTokenKept | Common/include/containers/Referencer.hpp:210-314 | a whole run leaves counted messages with an owner if and only if no functor of it drops the right to execute |
| MailboxRuns.NeverUsesReleasedNode | Common/include/containers/msglist.hpp:70-121 | on every run, those that drop the right to execute included, no step of put, get or peek goes through a pointer to a released node |
| MailboxRuns.FunctorsNeverOverlap | Common/include/containers/Referencer.hpp:227-313 | on every run, whatever functors return, no two of them run at once |
| MailboxFrames.StepFrames | Common/include/containers/Referencer.hpp:183-314 | a step does the same beside a thread that stands still |
| MailboxRuns.EveryRunExecutesInOrder | Common/include/containers/Referencer.hpp:227-313 | on every run, whatever functors return, they are called in link order, each for the message at its place, and nothing is popped without having been executed |
| MailboxOnce.EveryMessageExecutedOnce | Common/include/containers/Referencer.hpp:227-313 | on every run in which no functor returns KEEP_BIT, the k-th call is that of the k-th message linked, and at most one call is ahead of the pops: each message is executed exactly once |
| MailboxOnce.EveryPopYieldsNext | Common/include/containers/msglist.hpp:88-108 | on every run the i-th pop returns the i-th message linked |
| MailboxRuns.WorkIsFirst | Common/include/containers/Referencer.hpp:185-187 | what is posted, queued, or executed is the first counted message, and it is not deleted when its functor starts |
| MailboxRuns.PeekYieldsFirst | Common/include/containers/msglist.hpp:110-121 | after a positive count, peek finds the first message, and execute goes on with it or posts it, or getNext returns it, as the pop was meant |
| MailboxRuns.ExecuteGoesOn | Common/include/containers/Referencer.hpp:255-304 | after a functor, execute pops and goes on, pops and posts, goes round with the same message or posts it, exactly as KEEP_BIT, LAST_BIT and the priority say; DEL_BIT deletes the message |
| MailboxRuns.PopKeepsPurpose | Common/include/containers/Referencer.hpp:269-304 | what a pop is meant for stays up to the peek; without a further message execute is done |
| MailboxRuns.PutGoesOn | Common/include/containers/Referencer.hpp:183-200 | the producer that sees size 1 posts in put and keeps the message in add; any other is done |
| MailboxRuns.PostedIsTaken | Common/include/containers/Referencer.hpp:187 | a posted message joins the end of the queue, and whoever takes it executes it |
| MailboxRuns.CallReturns | Common/include/containers/Referencer.hpp:246-249 | a functor is called with the message in hand, and returns to the loop or to the caller of add |
| MailboxRuns.DrainedGetNextIsStale | Common/include/containers/Referencer.hpp:202-208 | after the last message getNext returns the message just popped |
| MailboxRuns.LocksAreReleased | Common/include/containers/msglist.hpp:79-105 | a busy thread can go on, or waits for a lock whose holder can |
| MailboxRuns.DropStrands | Common/include/containers/Referencer.hpp:247-249 | a dropped token leaves counted messages without an owner |
| MailboxRuns.SomeRunDrops | Common/include/containers/Referencer.hpp:194-249 | one thread that adds a message and executes a functor that returns END_BIT strands the message |
| MailboxRuns.StrandedForever | Common/include/containers/Referencer.hpp:183-200 | from then on no functor is called, whatever is put |
| MailboxSafety.TokenIsAlone | Common/include/containers/Referencer.hpp:185-199 | a thread with the right to execute is the only one, and nothing is queued |
| MailboxSafety.LinkKeeps | Common/include/containers/msglist.hpp:80 | linking at the tail finds the tail node in memory and keeps the invariant, although the list is not settled yet |
| MailboxSafety.IncrementKeeps | Common/include/containers/msglist.hpp:82 | the increment gives out the right to execute exactly when the size becomes one |
| MailboxSafety.DecrementKeeps | Common/include/containers/msglist.hpp:95-96 | the next pointer is never null for the owner, and the right to execute ends exactly when the size becomes zero |
| MailboxSafety.ReleaseKeeps | Common/include/containers/msglist.hpp:101-104 | the released node is neither in the chain, nor the tail, nor one that a producer prepares |
| MailboxSafety.PeekFindsFirst | Common/include/containers/msglist.hpp:114-118 | without the head lock, peek by the owner reads a node in memory and its first message |
| MsgLists.MsgList.Put | Common/include/containers/msglist.hpp:70-86 | appends the message and returns the new size, or -1 for null |
| MsgLists.MsgList.Get | Common/include/containers/msglist.hpp:88-108 | takes the oldest message and returns what is left |
| MsgLists.MsgList.Peek | Common/include/containers/msglist.hpp:110-121 | the oldest message and the size |
| MsgLists.Referencer.Put | Common/include/containers/Referencer.hpp:183-192 | posts exactly the message that makes the list non-empty |
| MsgLists.Referencer.Add | Common/include/containers/Referencer.hpp:194-200 | gives the message back exactly if it is to be executed by its sender |
| MsgLists.Referencer.GetNext | Common/include/containers/Referencer.hpp:202-208 | the message after the one popped; after the last one, that one again |
| Ladder.LadderIsComplete | OrderBookStore/include/OrderBookType2.hpp:275-303 | the ladder is strictly best first, shows every price with orders and no other |
| Ladder.EqualLevelsEqualLadders | OrderBookStore/src/OrderBookImproved.cpp:141-183 | order collections with equal levels at every price have equal ladders |
| Ladder.TopTenIsTen | OrderBookStore/include/OrderBookType2.hpp:281-287 | there is one level for each live price, and the first ten of them are shown |
| AggregatedBook.EveryRunAggregates | OrderBookStore/include/OrderBookType2.hpp:96-138 | after every run of new, cancel, and modify messages of unknown ids, each level is the sum and number of the indexed orders at its price, and none is empty |
| AggregatedBook.ModifiedSide | OrderBookStore/include/OrderBookType2.hpp:201-240 | through all its branches and for any new order, a modification takes the old order out of its level and puts the new one in, on the old one's side |
| AggregatedBook.ModifyReplacesOrder | OrderBookStore/include/OrderBookType2.hpp:201-240 | the levels are then those of the order set with the old order replaced, if and only if the side stays |
| AggregatedBook.ModifyLeavesIndexStale | OrderBookStore/include/OrderBookType2.hpp:111-117 | levels and index agree after a modification, of any side and quantity, if and only if price and quantity stay |
| OrderBookType2s.OrderBookType2.ProcessOrder | OrderBookStore/include/OrderBookType2.hpp:96-138 | over the hash map index, a message does what it does to the book's value, and it throws exactly for a new order whose id is in the index |
| OrderBookType2s.OrderBookType2.AddNewOrder | OrderBookStore/include/OrderBookType2.hpp:191-199 | the order joins the level of its price, which is created if needed; the other side stays |
| OrderBookType2s.OrderBookType2.ModifyOrder | OrderBookStore/include/OrderBookType2.hpp:201-240 | price change, quantity change or nothing, on the side of the old order |
| OrderBookType2s.OrderBookType2.CancelOrder | OrderBookStore/include/OrderBookType2.hpp:242-256 | the order leaves its level, which is erased when its quantity is gone |
| OrderBookType2s.OrderBookType2.GetBestPrice | OrderBookStore/include/OrderBookType2.hpp:259-272 | the levels of the smallest keys, in any state; they are the highest bid and the lowest ask, with their totals, of any orders that the levels aggregate |
| OrderBookType2s.OrderBookType2.PrintSide | OrderBookStore/include/OrderBookType2.hpp:275-303 | the first ten levels by key, in any state; they are the ten best of any orders that the side aggregates |
| OrderBookType2s.AnswersAfterModify | OrderBookStore/include/OrderBookType2.hpp:201-303 | after a modification on its own side the best prices and the printed levels are those of the orders with the old one replaced |
| OrderBookType2s.LeastIsBest | OrderBookStore/include/OrderBookType2.hpp:259-272 | the level of the smallest priority has the best price of all orders of the side, and the total quantity there |
| MultimapBook.IndexNeverDangles | OrderBookStore/src/OrderBookImproved.cpp:15-139 | on all runs, throwing ones included, an index entry points at a live element of its id, filed under its price |
| MultimapBook.StepBijective | OrderBookStore/src/OrderBookImproved.cpp:15-139 | one message keeps index and multimap in bijection if and only if it is not a duplicate new order |
| MultimapBook.RunBijective | OrderBookStore/src/OrderBookImproved.cpp:15-139 | after a run the index is a bijection if and only if no new order of the run had an id in use |
| MultimapBook.RefusedOrderStays | OrderBookStore/src/OrderBookImproved.cpp:20-24 | a witness: the second of two new orders of one id throws and stays in the multimap |
| MultimapBook.TradeOutcome | OrderBookStore/src/OrderBookImproved.cpp:105-139 | each leg reduces the order it names, takes it out when nothing is left, or changes nothing for id 0 or an unknown id; a trade throws exactly if it exceeds an order it names, with nothing done for the bid leg, and the bid leg done for the ask leg |
| MultimapBook.RunConserves | OrderBookStore/src/OrderBookImproved.cpp:12-139 | over runs without a throw a side holds the quantity added, plus modify differences, minus what was cancelled and traded |
| MultimapBook.NothingEmptyRests | OrderBookStore/src/OrderBookImproved.cpp:105-139 | with positive quantities in new orders and modifications no order of quantity zero ever rests |
| OrderBookImproveds.OrderBookImproved.ProcessOrder | OrderBookStore/src/OrderBookImproved.cpp:12-103 | a message does to multimaps and indexes what it does to the book's value, what came before an exception included |
| OrderBookImproveds.OrderBookImproved.ProcessTrade | OrderBookStore/src/OrderBookImproved.cpp:105-139 | both legs on multimaps and indexes; throws exactly if a leg exceeds the resting order it names |
| OrderBookImproveds.OrderBookImproved.PrintSide | OrderBookStore/src/OrderBookImproved.cpp:141-183 | the nested loops print the ten best aggregated levels, with quantities in 32 bits |
| OrderBookImproveds.OrderBookImproved.Aggregate | OrderBookStore/src/OrderBookImproved.cpp:150-156 | the wrapping sum and the number of all orders at one price |
| Simulation.StepSameIff | OrderBookStore/include/OrderBookType2.hpp:96-138 | one plain message keeps the levels of both books equal if and only if a new order's id is not live on either side and a cancel names the resting side |
| Simulation.BooksStayTogetherIff | OrderBookStore/include/OrderBookType2.hpp:96-138 | on a plain run the books have the same levels at every moment if and only if every message of it is such |
| Simulation.BooksShowTheSame | OrderBookStore/include/OrderBookType2.hpp:96-138 | on every run of such messages both books show the same ten best levels |
| Simulation.PrintsAgreeIff | OrderBookStore/src/OrderBookImproved.cpp:141-183 | what the books print is equal if and only if the shown totals fit 32 bits |
| Simulation.ModifyAgreesOnce | OrderBookStore/include/OrderBookType2.hpp:201-240 | one modification of a live order moves both books to the same levels |
| AggregatedBook.ModifyThenCancelIff | OrderBookStore/include/OrderBookType2.hpp:111-132 | after a modification, of any side and quantity, and a cancel the levels are right if and only if price and quantity had stayed, or the order is alone at its place and did not grow |
| Simulation.ModifyThenCancelIff | OrderBookStore/include/OrderBookType2.hpp:111-132 | when the side stays, under that condition and no other the levels are those of the orders in the multimap book fed the same messages |
| Simulation.ModifyThenCancelParts | OrderBookStore/include/OrderBookType2.hpp:111-132 | a witness: after a price change and a cancel one book keeps a level and the other is empty |
| Simulation.TwoOrdersOverflow | OrderBookStore/src/OrderBookImproved.cpp:150-157 | a witness: two orders of 32 bits whose printed sum is negative in one book |
| BookRouting.EachBookSeesItsOwnFeed | OrderBookStore/include/OrderBookManager.hpp:127-165 | after any run a token's book is that of a fresh book fed only its messages |
| BookRouting.LaterSubscriptionsYield | OrderBookStore/include/OrderBookManager.hpp:127-143 | once a subscription of a token has succeeded, every later one yields its book and changes nothing |
| BookRouting.BooksStayOpen | OrderBookStore/include/OrderBookManager.hpp:127-165 | a run closes no book, and opens at most 32767 |
| OrderBookManagers.LimitFits16 | OrderBookStore/include/OrderBookManager.hpp:160-161 | positions survive the 16 bits in which they are read exactly below 32768, so the limit on subscriptions is safe |
| OrderBookManagers.OrderBookManager.Subscribe | OrderBookStore/include/OrderBookManager.hpp:127-143 | the very book of the token if it has one, otherwise a new empty one at a position of its own, or an exception exactly if there are 32767 |
| OrderBookManagers.OrderBookManager.AddOrder | OrderBookStore/include/OrderBookManager.hpp:145-165 | the message reaches the book of its token and no other, through the 16-bit index; it throws exactly for a token without a book, or for a new order whose id that book knows |
| DepthRefinement.InsertRep | OrderBookStore/include/Depth.hpp:194-221 | shifting down and spilling adds one empty level to the refined map, slots sorted, the rest in the excess map |
| DepthRefinement.EraseRep | OrderBookStore/include/Depth.hpp:223-268 | shifting up and refilling removes one level from the refined map |
| DepthOperations.AddRep | OrderBookStore/include/Depth.hpp:64-76 | with the full search, adding an order adds it to the level of its price in the refined map |
| DepthOperations.ChangeRep | OrderBookStore/include/Depth.hpp:91-101 | a quantity change reaches the level of its price wherever it is kept |
| DepthOperations.CloseRep | OrderBookStore/include/Depth.hpp:103-115 | closing removes the level exactly with its last order, and does not throw on live orders |
| DepthOperations.ReplaceRep | OrderBookStore/include/Depth.hpp:78-89 | a replacement is a quantity change, or an addition and a closing |
| DepthOperations.ShortSearchFindsLive | OrderBookStore/include/Depth.hpp:141-191 | the search as written finds every live level that the full search finds |
| DepthOperations.ShortAddRepIff | OrderBookStore/include/Depth.hpp:141-191 | with the search as written, an added order keeps the refinement if and only if the search stops, or its price is in the excess map or worse than a filled last slot |
| DepthOperations.ShortReplaceRepIff | OrderBookStore/include/Depth.hpp:78-89 | with the search as written, a replacement of a live order keeps the refinement if and only if the price stays, the search serves the new price, or the last slot loses its only order to a better price |
| DepthOperations.ShortSearchHitsLastSlot | OrderBookStore/include/Depth.hpp:166-190 | on a price without a level, the search as written makes changes and closings work on the last slot |
| DepthOperations.TenthLevelIsHidden | OrderBookStore/include/Depth.hpp:146 | a concrete side of nine bids hides the tenth |
| DepthRuns.RunRefines | OrderBookStore/include/Depth.hpp:64-115 | every run over live orders refines the map from price to total quantity and order count |
| DepthRuns.RefinedShowsLadder | OrderBookStore/include/Depth.hpp:194-268 | a refined side shows the best prices in strict order, then empty slots; the excess map holds exactly the rest, and the excess flag is set exactly there |
| DepthRuns.EveryRunShowsLadder | OrderBookStore/include/Depth.hpp:64-268 | both, from the empty book, for every run of additions, replacements, quantity changes, closings and publications |
| DepthShortRuns.ServesIffNotLast | OrderBookStore/include/Depth.hpp:141-191 | what the search as written sees of a new price comes to whether exactly n - 1 live prices are ahead of it |
| DepthShortRuns.LastIsRanked | OrderBookStore/include/Depth.hpp:141-191 | the last slot holds the only order of its level if and only if that order is alone at a live price that n - 1 others are ahead of |
| DepthShortRuns.TenBidsHideTenth | OrderBookStore/include/Depth.hpp:141-191 | ten bids into an empty book leave the last slot empty and the tenth in the excess map |
| DepthShortRuns.ShortStepRefinesIff | OrderBookStore/include/Depth.hpp:64-115 | with the search as written, one operation keeps both sides refined if and only if it meets its condition on the live orders |
| DepthShortRuns.LadderIsRefined | OrderBookStore/include/Depth.hpp:194-268 | a side that shows the ladder of its live orders refines them: what is shown leaves nothing open |
| DepthShortRuns.EveryShortRunShowsLadderIff | OrderBookStore/include/Depth.hpp:64-268 | with the search as written, a run from the empty book shows the best prices, and has the rest in excess, at every moment if and only if each of its operations meets its condition on the live orders |
| DepthChanges.EveryChangeIsSeen | OrderBookStore/include/Depth.hpp:119-133 | over every run of valid prices a slot that differs from what was last published carries a later stamp, no stamp is ahead of the counter, and changed() is true, provided that with the search as written no quantity change of a price without a level meets an empty last slot |
| DepthChanges.CallTracksIff | OrderBookStore/include/Depth.hpp:64-115 | one call keeps the tracking invariant if and only if it is not such a quantity change |
| DepthChanges.UnreachedChangeIsMissed | OrderBookStore/include/Depth.hpp:91-101 | a witness: such a change is published, and taken back without a stamp |
| DepthPublishing.EveryRunChangedIff | OrderBookStore/include/Depth.hpp:119-133 | on every run from an empty book changed() is true if and only if some call since the last publication was a change: not an order behind all slots, a zero change, or the last order of an excess level |
| DepthPublishing.PublishedIsUnchanged | OrderBookStore/include/Depth.hpp:119-133 | changed() is false for a new book and right after a publication, which alters no level |
| DepthPublishing.CallCounts | OrderBookStore/include/Depth.hpp:64-115 | a call moves the change counter if and only if it is a change, and a publication only catches up with it |
| DepthPublishing.AddLeavesBetter | OrderBookStore/include/Depth.hpp:194-221 | an added order leaves the slots of better prices as they are, stamps included |
| DepthPublishing.ChangeLeavesOthers | OrderBookStore/include/Depth.hpp:91-101 | a change of quantity leaves the slots of all other prices as they are |
| DepthPublishing.CloseLeavesBetter | OrderBookStore/include/Depth.hpp:223-268 | a closing leaves the slots of better prices as they are |
| DepthPublishing.EraseLeavesEmpty | OrderBookStore/include/Depth.hpp:235-241 | erasing leaves empty slots as they are, stamps included |
| DepthPublishing.InsertKeepsExcess | OrderBookStore/include/Depth.hpp:197-206 | inserting overwrites no excess level, and spills the last slot with its totals and stamp |
| DepthChanges.EraseAdvances | OrderBookStore/include/Depth.hpp:232-266 | erasing a level stamps every slot whose display it changes |
| DepthChanges.InsertAlmostAdvances | OrderBookStore/include/Depth.hpp:208-220 | inserting stamps every slot it shifts, all but the new one |
| Depths.DepthLevel.Assign | OrderBookStore/include/DepthLevel.hpp:29-38 | the excess flag stays, and an empty source leaves the stamp alone |
| Depths.DepthLevel.CloseOrder | OrderBookStore/include/DepthLevel.hpp:71-91 | throws without orders, reports the last one, and does not deduct more than the total |
| Depths.Depth.constructor | OrderBookStore/include/DepthLevel.hpp:25-27 | all slots empty, nothing in excess, counters at zero |
| Depths.Depth.AddOrder | OrderBookStore/include/Depth.hpp:64-76 | does to the slot objects and the excess map what it does to the side as a value; the other side stays |
| Depths.Depth.ReplaceOrder | OrderBookStore/include/Depth.hpp:78-89 | the same for a replacement, and when it throws or reports an erased level |
| Depths.Depth.ChangeQtyOrder | OrderBookStore/include/Depth.hpp:91-101 | the same for a quantity change |
| Depths.Depth.CloseOrder | OrderBookStore/include/Depth.hpp:103-115 | the same for a closing |
| Depths.Depth.FindLevel | OrderBookStore/include/Depth.hpp:141-191 | the slot or excess object that the search comes to, and what it creates on the way |
| Depths.Depth.InsertLevelBefore | OrderBookStore/include/Depth.hpp:194-221 | the in-place loop shifts the slot objects down and copies the last one out |
| Depths.Depth.EraseLevel | OrderBookStore/include/Depth.hpp:223-268 | the in-place loop shifts the slot objects up and refills the last one |
| Depths.Depth.Published | OrderBookStore/include/Depth.hpp:131-133 | the publication catches up with the change counter, so that nothing is pending, and alters no level |
| Ring.AdvanceWraps | Common/include/FastBuffer.hpp:86 | adding 1 - size in unsigned arithmetic goes from the last slot to the first |
| Ring.StepKeeps | Common/include/FastBuffer.hpp:79-101 | in every interleaving each side's index, slots and local values stand where the numbers of pushed and popped items say |
| Ring.EveryRunIsFifo | Common/include/FastBuffer.hpp:79-101 | in every interleaving of one producer and one consumer the popped items are a prefix of the pushed ones, and at most the size are outstanding |
| Ring.RefusedIffFull | Common/include/FastBuffer.hpp:71-77 | push refuses exactly when the buffer is full as it looks, pop exactly when it is empty |
| Ring.LengthExactIff | Common/include/FastBuffer.hpp:55-65 | length is the number of items if and only if both or neither of the sides are between slot and index, or there is one slot |
| Ring.LengthMidPush | Common/include/FastBuffer.hpp:84-86 | a witness: one item in an empty buffer of two slots, before the index moves, makes a length of two |
| Ring.PushCompletes | Common/include/FastBuffer.hpp:79-90 | with the producer at rest a push appends its item, unless the buffer is full |
| Ring.PopCompletes | Common/include/FastBuffer.hpp:92-101 | with the consumer at rest a pop takes out exactly the oldest item, unless the buffer is empty |
| FastBuffers.FastBuffer.PushSp | Common/include/FastBuffer.hpp:79-90 | appends unless the item is null or the buffer full |
| FastBuffers.FastBuffer.PopSc | Common/include/FastBuffer.hpp:92-101 | takes the oldest item unless the buffer is empty |
| FastBuffers.FastBuffer.Length | Common/include/FastBuffer.hpp:55-65 | the number of items, wrapped, empty and full cases included |
| FastBuffers.FastBuffer.IsEmpty | Common/include/FastBuffer.hpp:71-73 | a null slot at the read index means exactly that there are no items |
| FastBuffers.FastBuffer.IsAvailable | Common/include/FastBuffer.hpp:75-77 | a null slot at the write index means exactly that there is room |
| FastBuffers.FastBuffer.Reset | Common/include/FastBuffer.hpp:130-133 | empties the buffer |
| FreeChain.RunSound | Common/include/containers/allocator.hpp:620-642 | over every run the number of free elements stays between the marks, and none is both free and handed out |
| FreeChain.RunIsFifo | Common/include/containers/allocator.hpp:620-642 | what was free or kept is what was handed out again followed by what is still free, in the same order |
| FreeChain.ReissuedInOrder | Common/include/containers/allocator.hpp:620-642 | elements are issued again in the order of their release |
| FreeLists.NonSyncFreeListBase.Init | Common/include/containers/allocator.hpp:607-618 | a chain of one element more than the high mark, without cycles, ending at the tail |
| FreeLists.NonSyncFreeListBase.GetElement | Common/include/containers/allocator.hpp:620-631 | the first free element above the low mark, a new one otherwise, never one that is handed out; the chain stays linked |
| FreeLists.NonSyncFreeListBase.ReleaseElement | Common/include/containers/allocator.hpp:633-642 | below the high mark the element becomes the tail; otherwise it leaves the list for good |
| FreeLists.NonSyncFreeListBase.Destroy | Common/include/containers/allocator.hpp:597-605 | the walk meets each free element once and ends |

## Left out

- HashMaps.HashMap.Emplace: the key differs from the empty key, as the source demands without checking, and there are fewer than 2^61 entries, more than fit in memory.
- `HashMap::clear` leaves `size_` stale; `erase(key)`, `at`, const `find` and `count` do not type-check or call themselves when instantiated.
- Mailbox.Step: memory is sequentially consistent, `++_size` and `--_size` are atomic (the source has the atomic commented out), and `post` succeeds.
- Mailbox.Step: the priority and status tests of `execute` are free choices, so the number of messages executed in one call is not bounded; aspects and time stamps are left out.
- Mailbox.Step: each operation is a row of steps on a state value, because other threads act between them; `execute` is not also a method, since its functors may call back into the list.
- MsgLists.Referencer.Put: the dispatch queue is a sequence to which posting succeeds.
- OrderBookType2s.OrderBookType2.AddNewOrder: the boolean result, as below.
- OrderBookType2s.OrderBookType2.ModifyOrder: the boolean result, as below.
- OrderBookType2s.OrderBookType2.CancelOrder: the boolean result, as below.
- OrderBookType2s.OrderBookType2.ProcessOrder: the boolean results, which compare with `begin()`, the worst level, sometimes after an erase; orders are values, so a message object that changes later is not captured; id -1 is reserved for the empty key.
- AggregatedBook.EveryRunAggregates: sums are unbounded integers; in the source they are 64 bits wide, and order counts 32.
- AggregatedBook.EveryRunAggregates: runs leave out modifications of known ids, after which the property is false (`ModifyLeavesIndexStale`).
- `OrderBookType2::processTrade`: its sell leg looks up the buy id, and partial fills leave the stored order as it was.
- OrderBookImproveds.OrderBookImproved.ProcessOrder: multimap iterators are handles, and equal prices are not ordered among themselves, on which nothing printed depends.
- OrderBookImproveds.OrderBookImproved.ProcessTrade: the ask index is compared with the end of the bid index in the source; the comparison with its own end is modelled.
- OrderBookImproveds.OrderBookImproved.PrintSide: only the levels, not the separators and headings.
- OrderBookManagers.OrderBookManager.AddOrder: tokens are not zero, the empty key; trades, callbacks and the user data of a book are left out.
- DepthRuns.RunRefines: is about the search over all slots; `ShortStepRefinesIff` is its counterpart for the search as written.
- DepthRuns.EveryRunShowsLadder: is about the search over all slots; for the search as written it holds exactly under the condition of `EveryShortRunShowsLadderIff`.
- DepthOperations.ReplaceRep: is about the search over all slots; `ShortReplaceRepIff` is its counterpart for the search as written.
- Depths.Depth.constructor: no constructor of the source sets the two change counters; they start at zero here, and are not bounded.
- Depths.DepthLevel.Assign: the vector of order pointers, which nothing in `Depth` reads, and the widths of quantities and counts.
- FastBuffers.FastBuffer.constructor: the source's constructor sets the size to zero and always throws; the model starts from the state that `reset()` leaves, for any positive size.
- Ring.EveryRunIsFifo: memory is sequentially consistent, which the source's write barrier alone does not ensure.
- Ring.LengthExactIff: evaluates `length()` on one state; the source reads both indices and a slot one after another, and what moves in between is not captured.
- `FastBuffer::push_mp`, `pop_mp`: the same operations under a spin lock.
- FreeLists.NonSyncFreeListBase.ReleaseElement: demands an element that is handed out; storage and its header pointers, `alloc` and `release` are left out.
- `FreeListBase` and its owner variants (`releaseElement` always throws), the `void` and `shared_ptr` specialisations.
- `LocklessQ`, `locklessQ_New.hpp`, `LocklessStack`, `MsgQ`: their compare-and-swap acts on a shared temporary or is a comment.
- `OrderBook.hpp` and `OrderStateKeeper.hpp`: an ask cancel erases from the bid map, and quantity differences have the wrong sign.
- `FlowControl.hpp` (does not compile), `ByteConverter.hpp` (converts wide values through 16 bits) and the `BaseOrderManager` pool (copied handles give one order back twice).
- Sockets, sessions, publishers, logging, clocks, file input, market-data structures and factories: input and output, or data holders only.
