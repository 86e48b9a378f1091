# Proofs about the rendering engine and the reliability protocols

This project models, in Dafny, the parts of the repository whose correctness is hardest to
see by reading, and proves what they are for. `dafny verify dfyconfig.toml` checks all of it.

**The rendering engine** (`frontend/js/vue.js`, Vue 2.5.16)

- *Patching.* `Dom` is the document (a heap of nodes with ordered child lists), `VNodes` the
  virtual nodes and `sameVnode`, `Mirror` what it means that a part of the document shows a
  virtual tree, `Matching` which old child each new child is patched into, `Patch` the patcher
  itself, editing the document in place, and `Display` the result: patching ends where building
  from scratch ends.
- *Reactivity.* `Getters` are pure programs that read data and computed properties;
  `Reactivity` is `Dep`, `Watcher`, reactive setters and computed getters; `Caching` is what they
  do to cached values in whole sessions, with the result when caching is observable, and
  `Teardowns` which computed properties may be torn down while they are still read.
- *Scheduler.* `Scheduler` is `queueWatcher` and `flushSchedulerQueue`.
- *Template compiler.* `ParseHtml` is the tokenizer with `parse`'s stack; `Template` is the
  parsed tree and its direct meaning; `Optimizer` is the marking passes; `Codegen` the
  generator and the meaning of its code; `Rendering` relates the two; `StaticTrees` is
  `renderStatic` and its cache; `Nesting` and `Normalize` are about flat children lists, with
  `Decimal` for the numbers in default keys.

**The back end**

- *Flash-sale orders.* `Orders` holds the state of one voucher in Redis, the broker and MySQL
  and what each handler does to it; `OrderPipeline` the handlers as methods on live state;
  `OrderSafety` the invariant of all runs; `OrderGuarantees` the results; `RetryCount` reads
  the number of rejections from a message header.
- *Cache invalidation.* `Outbox`, `OutboxGuarantees` and `OutboxTask` are the event table and
  its possibly stale workers; `ShopCache` and `ShopCacheService` the read and invalidation path
  through Caffeine, Redis and MySQL.
- *RESP.* `Resp` is the Redis client of the load tests.

Where code and promise differ, the code is modelled and the difference is stated exactly:

- An element that is patched to the empty text gets no text node, one that is created with it
  has an empty one. A reader sees no difference; the documents are equal exactly if the condition
  `Matching.FullAfter` on old and new tree holds (`Display.PatchThenBuild`).
- A computed property that is torn down, as `$destroy` does, goes on answering with an old value
  (`Teardowns.StoppedPropertyLies`). This shows exactly when a value is read that rests on
  something that no longer holds (`Caching.ShowsExactlyWhenOutdated`), never if what stopped
  properties rest on is not written to (`Caching.HeededIsNotOutdated`), and in no session exactly
  if the properties that may be stopped are constants (`Teardowns.NeverShowsExactlyIfConstant`).
- For a single looping child the generator asks for no normalization, although the child may
  render to a list (`Nesting.FlatExactlyWhenSound`, `Nesting.ShortcutLeavesNesting`).
- Parsing ends with a TypeError exactly if comments are kept and the template has one while no
  element is open (`ParseHtml.Parser.ParseHtml`, `ParseHtml.EmptyCommentIsStray`).
- A republishing task that dies between its two effects can lose an order, in two ways
  (`OrderGuarantees.DeathAfterRestoreLoses`, `OrderGuarantees.DeathBeforeSendLoses`); an order
  survives a run exactly if it is spared both (`OrderGuarantees.SurvivesExactlyIfSpared`).
- A stale outbox worker can shorten the delay of the double delete exactly when the delay is
  longer than the lease or than the first backoff (`OutboxGuarantees.DelayHoldsExactly`), and
  never below the smallest of the three (`OutboxGuarantees.CompletedAfterBoth`).
- A read that carries an old value past the second deletion makes the caches incoherent
  (`ShopCache.RestoresExactlyWhenFresh`).

## Model

| member | source | states |
|---|---|---|
| Dom.Document.InsertBefore | frontend/js/vue.js:5324-5326 | a node leaves its old parent and stands in front of the reference child, or last |
| Dom.Document.AppendChild | frontend/js/vue.js:5332-5334 | the node leaves its old parent and becomes the last child |
| Dom.Document.RemoveNode | frontend/js/vue.js:5497-5503 | the node leaves its parent's child list, if it has a parent |
| Dom.Document.SetTextContent | frontend/js/vue.js:5348-5350 | an element loses all children and gets one text node unless the text is empty; other nodes change their data |
| Dom.WithoutAt | frontend/js/vue.js:5328-5330 | removing a child takes out exactly its position |
| Dom.BeforeAt | frontend/js/vue.js:5324-5326 | inserting before a child puts the node at exactly its position |
| Dom.AfterAt | frontend/js/vue.js:5340-5342 | the next sibling of child k is child k+1, or none for the last |
| Patch.Insert | frontend/js/vue.js:5651-5661 | a new node is inserted only under a given parent, and before a reference only if that is still its child |
| Patch.CreateElm | frontend/js/vue.js:5523-5588 | the new document subtree shows the virtual tree, consists of new nodes only, and is inserted where asked |
| Patch.CreateChildren | frontend/js/vue.js:5663-5674 | an element's new children show its virtual children in order, or its text |
| Patch.AddVnodes | frontend/js/vue.js:5720-5725 | new live children for a range of virtual nodes stand at the reference, in order |
| Patch.CreateKeyToOldIdx | frontend/js/vue.js:5457-5465 | the index holds exactly the key names of the range, each with a slot of that key |
| Patch.FindIdxInOld | frontend/js/vue.js:5873-5878 | the first waiting slot before the end that is the same vnode, or none if there is none |
| Patch.RemoveVnodes | frontend/js/vue.js:5740-5752 | exactly the remaining old children leave the parent, the others stay |
| Patch.IndexedSlotIsWaiting | frontend/js/vue.js:5827-5842 | with unique keys the key index never yields a slot that was already consumed |
| Patch.MatchEnds | frontend/js/vue.js:5808-5825 | the end comparisons keep the invariant of the walk and make progress when one of them applies |
| Patch.MatchByKey | frontend/js/vue.js:5826-5844 | the keyed branch keeps the invariant: the old child with the key, or the first that fits, is patched and moved, or a new node created where none fits |
| Patch.AddOrRemoveRest | frontend/js/vue.js:5847-5852 | after the walk the children are exactly the new ones |
| Patch.UpdateChildren | frontend/js/vue.js:5783-5853 | from exactly the old children in order to exactly the new ones in order; each old element is reused by one same vnode or has left the document; with unique keys a keyed new child has the element of the old child that is the same vnode, and any child is created only where all old children that fit have gone to others |
| Matching.NoneLeftOver | frontend/js/vue.js:5827-5842 | no two new children share an old one, one without a partner leaves nothing over that fits it, and a keyed one has the old child with its key |
| VNodes.SameVnodeExactly | frontend/js/vue.js:5432-5455 | when two vnodes are the same: key, tag, comment flag, presence of data, and for inputs the type or both text types |
| Patch.PatchVnode | frontend/js/vue.js:5880-5938 | the element of the old vnode shows the new one; nothing outside its subtree changes; for all shapes and every text and children combination; at any depth keyed nodes keep their elements; unchanged text changes nothing; no empty text lacks its node exactly if `FullAfter` holds of old and new tree |
| Display.MirrorsShowsBuilt | frontend/js/vue.js:5880-5938 | a part of the document that shows a virtual tree looks like what building the tree from scratch gives, and is exactly that if and only if no element lacks the text node of its empty text |
| Display.NoEmptyTextIsFull | frontend/js/vue.js:5906-5936 | a new tree without empty element texts is patched exactly, whatever the old tree was |
| Display.EmptiedTextIsNotFull | frontend/js/vue.js:5931-5933 | an element whose text becomes the empty one, or that had children before, gets no text node |
| Display.PatchThenBuild | frontend/js/vue.js:5880-5938 | the patched tree and a freshly built one beside it show the same; they are equal if and only if every new element with the empty text is created, or is patched from one that had that text and a text node for it |
| Getters.UnreadDataIsIrrelevant | frontend/js/vue.js:3135-3160 | a write to data that an evaluation did not read changes neither its value nor what it reads |
| Reactivity.Runtime.PushTarget | frontend/js/vue.js:713-716 | the old target, if any, goes on the stack |
| Reactivity.Runtime.PopTarget | frontend/js/vue.js:718-720 | the last stacked target is back, or none |
| Reactivity.Runtime.AddDep | frontend/js/vue.js:3162-3171 | the dep is collected once and the subscription index stays consistent |
| Reactivity.Runtime.CleanupDeps | frontend/js/vue.js:3176-3194 | the watcher leaves the deps it no longer read; subscribers and deps agree again |
| Reactivity.Runtime.Teardown | frontend/js/vue.js:3266-3282 | any watcher, computed or not, becomes inactive, is subscribed nowhere and keeps what it knows; everything else stays consistent |
| Reactivity.Runtime.ComputedGetter | frontend/js/vue.js:3498-3511 | the reader depends on all that the value rests on, at any nesting; the value is the recomputed one when nothing cached is outdated |
| Reactivity.Runtime.Evaluate | frontend/js/vue.js:3246-3249 | a computed watcher becomes clean with its new value, the recomputed one when nothing cached is outdated; others above its rank are untouched |
| Reactivity.Runtime.Get | frontend/js/vue.js:3135-3160 | evaluation restores target and stack and leaves exactly what was read as dependencies; value and dependencies are those of recomputation when nothing cached is outdated |
| Reactivity.Runtime.Run | frontend/js/vue.js:3215-3240 | an active watcher ends with the current value and its sources as dependencies when nothing cached is outdated, an inactive one does nothing |
| Reactivity.Runtime.Notify | frontend/js/vue.js:699-705 | exactly the subscribed computed watchers become dirty and the other subscribers queued |
| Reactivity.Runtime.Set | frontend/js/vue.js:993-1020 | active dependents become dirty or are queued; nothing cached becomes outdated by a write that all clean computed properties resting on it hear |
| Reactivity.Runtime.Session | frontend/js/vue.js:3498-3511 | any sequence of writes, reads, runs and teardowns of any watchers answers as the cache model says, and as if nothing were cached if no outdated value is read, in particular if no computed property is torn down |
| Caching.RightUnlessOutdated | frontend/js/vue.js:3498-3511 | a session in which each value read rests on what still holds answers as if nothing were cached |
| Caching.ShowsExactlyWhenOutdated | frontend/js/vue.js:2695-2714 | for getters whose results tell what they read, and any session with any teardowns, this is exact |
| Caching.HeededIsNotOutdated | frontend/js/vue.js:699-705 | a session that writes to nothing that a clean computed property rests on without hearing it reads nothing outdated |
| Caching.UnstoppedIsHeeded | frontend/js/vue.js:3162-3171 | without teardowns of computed properties every watcher hears all that it rests on |
| Teardowns.NeverShowsExactlyIfConstant | frontend/js/vue.js:2695-2714 | tearing down certain computed properties never shows in any session, for any getters, if and only if each has the same value on all data |
| Teardowns.StoppedPropertyLies | frontend/js/vue.js:3266-3282 | a session in which a torn down property answers with an old value |
| Scheduler.Queue.QueueWatcher | frontend/js/vue.js:3050-3071 | a flagged id is ignored; otherwise appended, or inserted in order among those that have not run; a flush is asked for once |
| Scheduler.SplicedIn | frontend/js/vue.js:3058-3063 | the insertion keeps what has run and keeps the rest strictly increasing |
| Scheduler.SortedSorts | frontend/js/vue.js:2973-2973 | sorting the queue by id keeps its ids and makes it strictly increasing |
| Scheduler.Queue.Flush | frontend/js/vue.js:2961-3014 | each turn runs the least pending id; the flush ends with nothing pending, or stops exactly when a watcher has requeued itself 101 times |
| Scheduler.NoneDropped | frontend/js/vue.js:2977-2997 | what was pending at some turn runs later or is pending when the flush stops |
| ParseHtml.Parser.ParseEndTag | frontend/js/vue.js:8984-9036 | exactly the elements from the closest open one of that name inwards are closed, with their calls in that order; with none only `</br>` and `</p>` make calls; the two stacks stay equal |
| ParseHtml.Parser.ParseStartTag | frontend/js/vue.js:8916-8937 | it finds the complete start tag there is, behind all attributes, and only moves forward, also when the tag is not complete |
| ParseHtml.AttributesAreRead | frontend/js/vue.js:8925-8928 | attributes are read up to the first end of the tag, or as long as there are any |
| ParseHtml.Parser.HandleStartTag | frontend/js/vue.js:8939-8982 | the calls are the implied ends, then the start of the element, unary or not; calls stay nested and the stacks equal |
| ParseHtml.OpenedExactly | frontend/js/vue.js:8939-8982 | which at most two elements a start tag ends, which calls it makes and what is open then |
| ParseHtml.Parser.ParseHtml | frontend/js/vue.js:8785-8910 | ends for every input with exactly the calls that its turns ask for; throws if and only if comments are kept and the input has one while no element is open; otherwise start and end calls balance and both stacks end empty |
| ParseHtml.TurnCases | frontend/js/vue.js:8793-8899 | the calls, the position and the open elements of one turn: of markup, of text if there is any, of a plain-text element |
| ParseHtml.PlainExactly | frontend/js/vue.js:8875-8898 | a plain-text element ends with its text, without its first newline, if its end tag is there, and then its end call |
| ParseHtml.StartsAreStarted | frontend/js/vue.js:8915-8982 | the start calls of a whole run are one for every complete start tag come to, with its name and unary flag, and one for each `</br>` or `</p>` with nothing to close |
| ParseHtml.TextEndsAt | frontend/js/vue.js:8846-8866 | text ends only at what looks like markup or after the last bracket |
| ParseHtml.EmptyCommentIsStray | frontend/js/vue.js:9300-9306 | a template that is nothing but a comment is such an input |
| ParseHtml.PrefixesNest | frontend/js/vue.js:9234-9253 | no call ever closes an element that is not open, so `parse`'s stack never underflows |
| Optimizer.MarkStatic | frontend/js/vue.js:9850-9880 | every node the pass gets to has the flag that `isStatic` and its contents determine, no other node has one |
| Optimizer.MarkStaticRoots | frontend/js/vue.js:9882-9910 | exactly the outermost static elements whose children are not just one text are roots, and know whether they are in a loop |
| Optimizer.GetNormalizationType | frontend/js/vue.js:10462-10483 | 2 if some child or branch loops or is a template, else 1 if some may be a component, else 0 |
| Codegen.NormalizationExactly | frontend/js/vue.js:10462-10487 | the same over all children and whatever may stand in their place |
| Rendering.StaticExactly | frontend/js/vue.js:9912-9927 | a tree is static if and only if it depends on no data and nothing in it makes the optimizer doubt it |
| Rendering.RootExactly | frontend/js/vue.js:9882-9910 | which trees are static roots |
| Rendering.RootsAreHoisted | frontend/js/vue.js:10139-10176 | the generator refers to a static render function exactly for static roots, and that function is the code of the element |
| Rendering.ElementCode | frontend/js/vue.js:10152-10165 | the code of an element that neither loops nor depends on a condition nor is hoisted: its tag, its data, and the normalization its children need |
| Codegen.InsideALoop | frontend/js/vue.js:9929-9940 | direct children of a looping template are not static |
| Template.BindBinds | frontend/js/vue.js:10257-10272 | the loop's names stand for value, key and index of the item |
| Template.DataExactly | frontend/js/vue.js:10161-10161 | every attribute has its name, in order, and its literal or current value; a plain element has no data |
| Rendering.StaticIsFixed | frontend/js/vue.js:9912-9927 | a node marked static contains no loop, condition, binding or expression |
| Rendering.FixedGivesClosed | frontend/js/vue.js:10172-10176 | the code of a static tree mentions no data and no other static tree |
| Rendering.ClosedValue | frontend/js/vue.js:3869-3888 | such code has one value on all data |
| Rendering.NormalizeKeepsNodes | frontend/js/vue.js:2189-2208 | neither kind of normalization loses, adds or reorders a node |
| Rendering.LoopRenders | frontend/js/vue.js:10242-10272 | the generated loop renders the items one after the other with their aliases bound |
| Rendering.BranchesRender | frontend/js/vue.js:10215-10240 | the generated conditional renders the first branch that applies, or the empty comment |
| Rendering.ChildrenRender | frontend/js/vue.js:10432-10456 | the generated children, also for a single looping child, render all children in order |
| Rendering.GeneratedCodeRenders | frontend/js/vue.js:10127-10170 | on all data the generated code gives the nodes that the direct interpreter gives for the template |
| StaticTrees.HoistedAreClosed | frontend/js/vue.js:10172-10176 | every static render function of a generated program is closed |
| StaticTrees.Instance.RenderStatic | frontend/js/vue.js:3869-3888 | cached or not, the tree is the one its function renders now; the function does not run again exactly for a cached tree outside loops |
| StaticTrees.Instance.Render | frontend/js/vue.js:3869-3888 | rendering with the cache gives the value of rendering without it |
| StaticTrees.RenderAgain | frontend/js/vue.js:10127-10170 | an instance rendered on any sequence of data states gives each time what the template means on that state |
| Nesting.FlatExactlyWhenSound | frontend/js/vue.js:10432-10483 | every createElement call gets a flat list of nodes if and only if each single looping child renders one node per item |
| Nesting.SafeIsSound | frontend/js/vue.js:10462-10487 | if no single looping child is or has a component, loop or template in its chain, this holds on all data |
| Nesting.ShortcutLeavesNesting | frontend/js/vue.js:10441-10449 | a template for which it fails |
| Nesting.ItemsShape | frontend/js/vue.js:10462-10483 | where less than full normalization is asked for, each child gives a node or at worst one list of nodes |
| Normalize.NormalizeArrayChildren | frontend/js/vue.js:2214-2260 | the result is flat, has no adjacent texts, and shows the nodes of the input in order with the same texts between them; a node is unchanged but for a default key, which exactly elements without key in nested v-for lists get |
| Normalize.NewKeysDiffer | frontend/js/vue.js:2247-2252 | the default keys of one result are different |
| Normalize.DefaultKeysDiffer | frontend/js/vue.js:2247-2252 | elements at different places of nested lists get different default keys |
| Decimal.ValueOfNumeral | frontend/js/vue.js:2251-2251 | decimal numerals determine their number |
| OrderPipeline.Backend.MarkSendSuccess | hm-dianping/src/main/java/com/hmdp/mq/PendingOrderService.java:43-58 | guarded statuses stay; otherwise the order is SENT and no longer pending |
| OrderPipeline.Backend.MarkSendFailed | hm-dianping/src/main/java/com/hmdp/mq/PendingOrderService.java:60-71 | the order is BROKER_NACK and pending |
| OrderPipeline.Backend.MarkRouteFailed | hm-dianping/src/main/java/com/hmdp/mq/PendingOrderService.java:73-90 | the order is ROUTE_FAILED and pending, with its user |
| OrderPipeline.Backend.BeforeRepublishing | hm-dianping/src/main/java/com/hmdp/mq/PendingOrderService.java:92-99 | the order is REPUBLISHING with one more retry |
| OrderPipeline.Backend.MarkFailed | hm-dianping/src/main/java/com/hmdp/mq/PendingOrderService.java:101-110 | the order is FAILED, in the failed set and not pending |
| OrderPipeline.Backend.RestorePreDeduct | hm-dianping/src/main/resources/seckill_restore.lua:13-33 | a unit is returned only with the reservation of this very order, or an old-style one when there is none |
| OrderPipeline.Backend.MarkConsuming | hm-dianping/src/main/java/com/hmdp/mq/PendingOrderService.java:126-136 | ORDER_CREATED and FAILED stay, other statuses become CONSUMING |
| OrderPipeline.Backend.RemovePending | hm-dianping/src/main/java/com/hmdp/mq/PendingOrderService.java:138-160 | the order is ORDER_CREATED and not pending |
| OrderPipeline.Backend.Reserve | hm-dianping/src/main/resources/seckill.lua:24-79 | accepted is exactly a request of a user without reservation or earlier order, between begin and end of the activity, with stock left; every other reply has its exact condition and changes nothing |
| OrderPipeline.Backend.SeckillVoucher | hm-dianping/src/main/java/com/hmdp/service/impl/VoucherOrderServiceImpl.java:83-123 | exactly such a request goes on to send |
| OrderPipeline.Backend.SendFirst | hm-dianping/src/main/java/com/hmdp/service/impl/VoucherOrderServiceImpl.java:125-141 | the send leaves for the broker, or throws, having left or not, and the order is marked for republishing |
| OrderPipeline.Backend.CreateVouchOrder | hm-dianping/src/main/java/com/hmdp/service/impl/VoucherOrderServiceImpl.java:193-255 | row and decrement together or neither; a second order of a user is a duplicate |
| OrderPipeline.Backend.QueryOrderStatus | hm-dianping/src/main/java/com/hmdp/service/impl/VoucherOrderServiceImpl.java:167-186 | what a client is told in each state; COMPLETED only if the user has a row |
| OrderPipeline.Backend.Confirm | hm-dianping/src/main/java/com/hmdp/mq/VoucherOrderProducer.java:87-123 | an acknowledged order is SENT and not pending unless its status is guarded, a refused one is BROKER_NACK and pending |
| OrderPipeline.Backend.ReturnedMessage | hm-dianping/src/main/java/com/hmdp/mq/VoucherOrderProducer.java:129-159 | the returned order is ROUTE_FAILED and pending, with its user |
| OrderPipeline.Backend.ListenVoucherOrder | hm-dianping/src/main/java/com/hmdp/mq/VoucherOrderConsumer.java:54-187 | every way a delivery can end: acknowledged, to the retry queue, to the failed queue, or back |
| OrderPipeline.Backend.ListenFailedOrder | hm-dianping/src/main/java/com/hmdp/mq/VoucherOrderFailedConsumer.java:47-91 | existing orders are cleaned up, others restored and marked; a failing listener keeps or parks the message |
| OrderPipeline.Backend.RepublishGuarded | hm-dianping/src/main/java/com/hmdp/mq/PendingOrderRepublishTask.java:46-99 | every way republishing can end, with the task's own exception handler |
| OrderPipeline.Backend.RepublishHalf | hm-dianping/src/main/java/com/hmdp/mq/PendingOrderRepublishTask.java:62-99 | what a task that dies between its two effects leaves behind |
| OrderPipeline.Backend.RepublishPendingOrders | hm-dianping/src/main/java/com/hmdp/mq/PendingOrderRepublishTask.java:36-60 | each due order is republished once, in turn, whatever becomes of each, and no order is lost |
| RetryCount.GetRetryCount | hm-dianping/src/main/java/com/hmdp/mq/VoucherOrderConsumer.java:235-273 | the count of the first rejection entry of the order queue, else 0 |
| RetryCount.RetryCountCountsRejections | hm-dianping/src/main/java/com/hmdp/mq/VoucherOrderConsumer.java:235-273 | with the broker's bookkeeping each rejection counts once and waiting in the retry queue not at all |
| OrderPipeline.Backend.Execute | hm-dianping/src/main/java/com/hmdp/mq/PendingOrderService.java:43-160 | any sequence of handler calls, with any deaths, is a run of steps and loses no order that it spares |
| OrderSafety.StepKeepsInvariant | hm-dianping/src/main/java/com/hmdp/mq/PendingOrderService.java:43-160 | what the status of each order says about where the order is, is kept by every handler and by every death |
| OrderSafety.AckKeeps | hm-dianping/src/main/java/com/hmdp/mq/PendingOrderService.java:43-58 | an acknowledgement loses its order exactly if that is being republished and nothing else covers it; other orders fare no worse |
| OrderSafety.DeathKeeps | hm-dianping/src/main/java/com/hmdp/mq/PendingOrderRepublishTask.java:78-96 | a death of the republisher loses its order at once exactly if nothing covers it and the half that was done removed it from the pending set or wrote over the mark of its failure |
| OrderSafety.ConsumeKeeps | hm-dianping/src/main/java/com/hmdp/mq/VoucherOrderConsumer.java:88-187 | a delivery gives up its copy only for a row or for a copy elsewhere, and no order fares worse |
| OrderSafety.FailedKeeps | hm-dianping/src/main/java/com/hmdp/mq/VoucherOrderFailedConsumer.java:53-90 | the failed-order listener gives up its copy only for a row or for the FAILED mark, and no order fares worse |
| OrderSafety.RepublishKeeps | hm-dianping/src/main/java/com/hmdp/mq/PendingOrderRepublishTask.java:62-99 | republishing a possibly stale entry keeps the invariant, and no order fares worse |
| OrderGuarantees.NoAcceptedOrderIsLost | hm-dianping/src/main/java/com/hmdp/mq/PendingOrderRepublishTask.java:107-124 | in every interleaving in which no republishing task dies on it, an accepted order has a row for its user, or is FAILED, pending, or has a copy in a queue or on the wire |
| OrderGuarantees.SurvivesExactlyIfSpared | hm-dianping/src/main/java/com/hmdp/mq/PendingOrderRepublishTask.java:62-99 | in every interleaving with any deaths, this holds of an order at all times if and only if no task dies on it with nothing else to keep it, and no older send is acknowledged after a death before its send and before anything covers it |
| OrderGuarantees.AcceptedOnlyWhenOpen | hm-dianping/src/main/resources/seckill.lua:24-79 | in every run an order is known only after a request during the activity, with stock left, of a user with neither a reservation nor an earlier order |
| OrderGuarantees.CompletedHasRow | hm-dianping/src/main/java/com/hmdp/service/impl/VoucherOrderServiceImpl.java:257-279 | after every run, who is told COMPLETED has an order row |
| OrderGuarantees.MySqlSells | hm-dianping/src/main/java/com/hmdp/service/impl/VoucherOrderServiceImpl.java:193-255 | orders plus remaining stock stay the same, stock is never negative, each user has at most one order |
| OrderGuarantees.RedisConserves | hm-dianping/src/main/resources/seckill_restore.lua:13-33 | free stock plus held units stay the same over every run, and the stock is never negative |
| OrderGuarantees.StocksAgreeInTheEnd | hm-dianping/docs/jmeter/http-capacity/HttpCapacitySupport.java:119-128 | in a quiescent state of a fresh sale without lost orders and released reservations, rows and reservations are of the same users and both stocks are equal |
| OrderGuarantees.DeathAfterRestoreLoses | hm-dianping/src/main/java/com/hmdp/mq/PendingOrderRepublishTask.java:78-92 | a run in which dying between the restore and the FAILED mark loses the order |
| OrderGuarantees.DeathBeforeSendLoses | hm-dianping/src/main/java/com/hmdp/mq/PendingOrderRepublishTask.java:94-96 | a run in which dying between the REPUBLISHING mark and the send, and then the acknowledgement of a returned send, lose the order |
| OutboxTask.Task.RecordShopInvalidation | hm-dianping/src/main/java/com/hmdp/mq/CacheInvalidationOutboxService.java:21-34 | a waiting first-stage row is inserted, or an exception leaves the table as it was |
| OutboxTask.ShopService.Update | hm-dianping/src/main/java/com/hmdp/service/impl/ShopServiceImpl.java:248-264 | the shop's row and its event change together or not at all, in each of the ways an update ends |
| OutboxTask.Task.FindDue | hm-dianping/src/main/java/com/hmdp/mapper/CacheInvalidationOutboxMapper.java:14-21 | the due events with the least ids, in order, up to the limit |
| OutboxTask.Task.ClaimRow | hm-dianping/src/main/java/com/hmdp/mapper/CacheInvalidationOutboxMapper.java:23-28 | a waiting row becomes processing until the lease ends, and the count says so |
| OutboxTask.Task.ScheduleDelayedStage | hm-dianping/src/main/java/com/hmdp/mapper/CacheInvalidationOutboxMapper.java:30-36 | a processing row waits for its second stage with no retries used |
| OutboxTask.Task.MarkCompleted | hm-dianping/src/main/java/com/hmdp/mapper/CacheInvalidationOutboxMapper.java:38-41 | a processing row is completed |
| OutboxTask.Task.MarkRetry | hm-dianping/src/main/java/com/hmdp/mapper/CacheInvalidationOutboxMapper.java:43-51 | a processing row waits for its next try |
| OutboxTask.Task.MarkDead | hm-dianping/src/main/java/com/hmdp/mapper/CacheInvalidationOutboxMapper.java:53-59 | a processing row is dead |
| OutboxTask.Task.RecoverExpiredClaims | hm-dianping/src/main/java/com/hmdp/mapper/CacheInvalidationOutboxMapper.java:61-64 | exactly the processing rows with expired leases wait again |
| OutboxTask.Task.ProcessOne | hm-dianping/src/main/java/com/hmdp/mq/CacheInvalidationOutboxTask.java:57-84 | a row taken by another worker is left alone; any other is invalidated once and then waits for its second stage after the delay, is completed, waits for its next try or is dead, as its outcome demands |
| OutboxTask.Task.HandleFailure | hm-dianping/src/main/java/com/hmdp/mq/CacheInvalidationOutboxTask.java:86-102 | one more retry with its backoff, or dead when they are used up |
| OutboxTask.Task.ProcessDueEvents | hm-dianping/src/main/java/com/hmdp/mq/CacheInvalidationOutboxTask.java:44-55 | expired claims are recovered, then each of the first due events, up to the batch size, is attempted exactly once with its outcome, and no other row changes |
| OutboxTask.Task.RepeatScans | hm-dianping/src/main/java/com/hmdp/mq/CacheInvalidationOutboxTask.java:44-102 | scans repeated, whatever their outcomes, complete an event or give it up within twice the allowed retries, if each reaches all due events |
| OutboxTask.BackoffDoubles | hm-dianping/src/main/java/com/hmdp/mq/CacheInvalidationOutboxTask.java:94-97 | backoff starts at a second, doubles twenty times and is capped |
| OutboxGuarantees.StepKeepsInvariant | hm-dianping/src/main/java/com/hmdp/mq/CacheInvalidationOutboxTask.java:57-102 | what row and snapshot say about past invalidations is kept by every step of every worker |
| OutboxGuarantees.CompletedAfterBoth | hm-dianping/src/main/java/com/hmdp/mq/CacheInvalidationOutboxTask.java:57-84 | a completed event had a successful first invalidation, then the second was scheduled, then after the gap a second one succeeded, for any workers, deaths, expired leases and stale snapshots |
| OutboxGuarantees.OpenRowsHaveRetries | hm-dianping/src/main/java/com/hmdp/mq/CacheInvalidationOutboxTask.java:86-99 | a row that is neither completed nor dead has used fewer retries than allowed |
| OutboxGuarantees.RowsGoForward | hm-dianping/src/main/java/com/hmdp/mapper/CacheInvalidationOutboxMapper.java:23-64 | the stage never goes back and completed and dead rows never change |
| OutboxGuarantees.AttemptIsSteps | hm-dianping/src/main/java/com/hmdp/mq/CacheInvalidationOutboxTask.java:57-84 | an undisturbed attempt is what the steps of one worker make of the row |
| OutboxGuarantees.EventEnds | hm-dianping/src/main/java/com/hmdp/mq/CacheInvalidationOutboxTask.java:57-102 | the run of one undisturbed worker that visits a new event when it is due, or later, ends with it completed or given up within twice the allowed retries |
| OutboxGuarantees.EventMayNeedThatMany | hm-dianping/src/main/java/com/hmdp/mq/CacheInvalidationOutboxTask.java:57-102 | a run of one visit less after which the event is still open |
| OutboxGuarantees.DelayHoldsExactly | hm-dianping/src/main/java/com/hmdp/mapper/CacheInvalidationOutboxMapper.java:23-64 | every completed event has had its full delay in every run of any workers, exactly when the delay is no longer than the lease and, if failures are retried, the first backoff |
| ShopCacheService.Cluster.QueryRedisAndDb | hm-dianping/src/main/java/com/hmdp/cache/ShopCacheService.java:90-149 | what is found behind the local cache and left in Redis, for every failing call |
| ShopCacheService.Cluster.QueryShopById | hm-dianping/src/main/java/com/hmdp/cache/ShopCacheService.java:35-88 | a local value is returned; after a local miss exactly what Redis holds or, if it is absent, corrupt or failing, what is committed; from coherent caches that is the committed value, whatever cache calls fail, and they stay coherent |
| ShopCacheService.Cluster.InvalidateShop | hm-dianping/src/main/java/com/hmdp/mq/CacheInvalidatePublisher.java:27-62 | all three steps are tried and have their effects; without failures Redis and the local cache are empty and every instance has one more broadcast |
| ShopCacheService.Cluster.OnCacheInvalidate | hm-dianping/src/main/java/com/hmdp/mq/CacheInvalidateConsumer.java:29-60 | a delivery is done with only if both deletions succeed |
| ShopCache.UndisturbedRead | hm-dianping/src/main/java/com/hmdp/cache/ShopCacheService.java:35-149 | the steps of a read, run without interruption, have the effect of the call |
| ShopCache.RestoresExactlyWhenFresh | hm-dianping/src/main/java/com/hmdp/mq/CacheInvalidatePublisher.java:27-62 | a deletion leads to coherent caches in every run that then cleans all instances, if and only if no read carries another than the committed value past it |
| ShopCache.ProcessedBroadcastRestores | hm-dianping/src/main/java/com/hmdp/mq/CacheInvalidateConsumer.java:29-60 | after a deletion past which only fresh reads go, with no commit since and the broadcast processed by every instance, Redis and every Caffeine cache hold nothing or the committed value |
| ShopCache.QuietDeletionRestores | hm-dianping/src/main/java/com/hmdp/mq/CacheInvalidateConsumer.java:29-60 | in particular when no read is under way at the deletion |
| Resp.Connection.Send | hm-dianping/docs/jmeter/capacity/CapacitySampler.java:340-343 | a command is written as the RESP array of its bulk strings |
| Resp.Connection.Line | hm-dianping/docs/jmeter/capacity/CapacitySampler.java:351-351 | the bytes up to CR LF, which are consumed, or why there is no line |
| Resp.Connection.Body | hm-dianping/docs/jmeter/capacity/CapacitySampler.java:348-348 | in whatever pieces the stream delivers, exactly the announced bytes and their terminator |
| Resp.Connection.ReceiveReply | hm-dianping/docs/jmeter/capacity/CapacitySampler.java:345-350 | one reply as the format prescribes, nested arrays included, and its bytes consumed |
| Resp.RoundTrip | hm-dianping/docs/jmeter/capacity/CapacitySampler.java:340-350 | reading what was written gives the value back and leaves what follows, for any bytes |
| Resp.ErrorReply | hm-dianping/docs/jmeter/capacity/CapacitySampler.java:347-347 | an error reply is a failure with its line |
| Resp.BadReply | hm-dianping/docs/jmeter/capacity/CapacitySampler.java:345-350 | unknown types and numbers that are not digits are refused |
| Resp.BrokenReply | hm-dianping/docs/jmeter/capacity/CapacitySampler.java:348-348 | input that ends early and a bulk string without its terminator are refused |
| Resp.ParseExactly | hm-dianping/docs/jmeter/capacity/CapacitySampler.java:347-349 | a number is digits with or without a sign, and in range |
| Resp.NegativeArray | hm-dianping/docs/jmeter/capacity/CapacitySampler.java:348-349 | a negative length stands for an empty array, or for the null string |
| Resp.WireForms | hm-dianping/docs/jmeter/capacity/CapacitySampler.java:340-343 | the bytes of a command and of replies |
| Resp.PipelinedCommands | hm-dianping/docs/jmeter/http-capacity/HttpCapacitySupport.java:177-180 | commands written one after the other are read in order, each with its own byte strings |

## Left out

- Patch.PatchVnode: virtual nodes are values, so reuse of the same node object (`oldVnode === vnode`, static and once nodes, `cloneVNode`) is not modelled; nor are components, hydration, transitions, directives, the attribute, style and event modules, namespaces, async placeholders and `removeOnly`.
- Mirror.MirrorsFrame: the mark `bare` of a live node, which says that the document has no text node for an empty text, is part of the model only.
- Patch.UpdateChildren: new siblings have unique keys, which the source only warns about; no vnode has both text and children, as `createElement` and `createTextVNode` build them; keys that are names of `Object.prototype` members are not modelled.
- Patch.CreateKeyToOldIdx: keys are strings or numbers.
- Reactivity.Runtime.Session: deps and watchers are rows of tables indexed by id; one dep per data property; `sync`, `deep` and user watchers, callbacks, nested reactive objects and arrays, and the empty brackets of `callHook` and `getData` are not modelled; getters make a bounded number of reads, whose bound is arbitrary.
- Caching.ShowsExactlyWhenOutdated: that an outdated value is a wrong one is claimed for getters whose results tell what they read; for any other getter it may be right by coincidence.
- Scheduler.Queue.Flush: what each run queues is given as a finite list, so only the turns up to its end are unrestricted; `nextTick`, the updated and activated hooks and `watcher.before` are not modelled.
- ParseHtml.Parser.ParseHtml: regular expressions are given by what they match; attributes, positions of start and end calls, warnings and the tree that `parse` builds are not modelled.
- Optimizer.MarkStatic: flags are returned as a tree of the same shape instead of being stored in the nodes; `cached` lookups of static keys and `inline-template` are not modelled.
- Rendering.GeneratedCodeRenders: code is an expression tree instead of text; slots, dynamic components, `v-once`, `v-model`, refs, keys, events and module data are not modelled; expressions and components are arbitrary functions of the data they see.
- Nesting.FlatExactlyWhenSound: the merging of adjacent texts by full normalization is modelled in `Normalize` only.
- StaticTrees.Instance.RenderStatic: the key and flags that `markStatic` writes on a static tree are not modelled.
- Normalize.NormalizeArrayChildren: the default key is given to a copy of the node, the source writes it into the node; `ns` and symbol values are not modelled.
- OrderGuarantees.SurvivesExactlyIfSpared: each service method is one atomic effect and so is a handler, apart from the deaths of consumers, requests and the republishing task between their effects; the Redis writes of exception handlers do not fail; a send that throws is recorded as failed in the same step; a send is resolved by the broker at some time and is not silently lost; a return comes before its confirm.
- OrderPipeline.Backend.Execute: one voucher, order ids never repeat, expiry of the pending data after a day, retry delays and due times, time stamps, error texts and the `OrderCreatedEvent` are not modelled; the synchronous path is not part of the model.
- OrderGuarantees.StocksAgreeInTheEnd: stock equality is not claimed for sales in which a reservation was released, because a released order's copy may still be delivered.
- OutboxTask.Task.FindDue: SQL statements are single steps on a table of rows; error texts and null columns are not modelled.
- OutboxGuarantees.CompletedAfterBoth: one logical clock.
- ShopCache.ProcessedBroadcastRestores: the caches and the outbox are separate models; that a completed event has had the two deletions is `OutboxGuarantees.CompletedAfterBoth`, what a deletion restores is stated here.
- ShopCache.RestoresExactlyWhenFresh: one shop; expiry and eviction may happen at any time; Caffeine's treatment of an invalidation during a load is left open, as its contract does; a commit and its outbox row are one step.
- Resp.Connection.Line: a line stays bytes, the source decodes it as UTF-8.
- Resp.Connection.ReceiveReply: lines stay bytes (the source decodes UTF-8), non-ASCII digits and array allocation limits are not modelled.
- Rate limiting, SMS, controllers, interceptors, page scripts, plan generation and reporting of the load tests: thin wrappers or input and output.
