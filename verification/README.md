# Verified models of the OpenSIPS core

Seven parts of the core, modelled in Dafny in the form the C code has, with proofs of what each is for.

**Ordered map** (`StrOrder`, `AvlTree`, `AvlRotate`, `AvlGrow`, `AvlShrink`, `AvlMap`, `AvlIter`; `src/core/map.c`).
Nodes are heap objects with child, parent and balance fields that the methods overwrite in the order the C code does. A ghost tree
says which nodes hang where, and a ghost path (a tree with a hole) says what is above the place being worked on, so that each
rotation, climb and splice is proved on its own subtree and plugged back. The pseudo-root of the deletion is the empty path. Keys are
arbitrary byte strings; the abstract map is keyed by what `str_cmp` can see of them. Main results: `AvlMap.Run` (any run of
operations has the replies of a finite map), `AvlMap.Map.DeleteNode`, `AvlMap.Map.Insert`, `AvlMap.Map.Find`,
`AvlIter.Ascend`, `AvlIter.Destroy`.

**Fragment allocator** (`Fm*`, `FMalloc`; `src/core/mem/f_malloc.c`, with STATISTICS and ATTEMPT_DEFRAG, on a 64-bit machine).
Addresses are integers. The arena is a class with its headers, hash table, counters and payload bytes; ghost fields hold the fragments
in address order and the bucket lists. A store to a header makes the bytes under it unknown, so that "no other payload changes" is
a statement about where headers lie. The fragments tile up to the end of the arena; the last one runs past `last_frag`, which is
only an address bound. Main results: `FMalloc.Arena.Malloc`, `FMalloc.Arena.Defrag`, `FMalloc.Arena.Realloc`, `FMalloc.Arena.Run`.

**Boundary-tag allocator** (`Qm*`, `QMalloc`; `src/core/mem/q_malloc.c`, with QM_JOIN_FREE). Heads, end tags and circular lists
through the bucket heads are separate memory. `QmBlocks` proves each primitive once with a set of fragments whose link is stale,
because the code leaves a detached fragment pointing into the list it left and reads that field as `is_free`. A store to a head or an
end tag makes the bytes under it unknown, as above. The structure and the counters are separate, since a shrink keeps the one and not the
other. Main results: `QMalloc.Arena.Malloc`, `QMalloc.Arena.Free`, `QMalloc.Arena.Realloc`, `QMalloc.Arena.Run`.

**SIP URI parser** (`SipUri*`; `src/core/parser/parse_uri.c`, for section 19.1.1 of RFC 3261). One step function with the states of the
automaton, and the loop that iterates it. The language accepted and the slices returned are given exactly, by a layout of the text, and so
are the parameters recorded, by what the text says between ';' and '?'. Main results: `SipUriAccepts.AcceptsExactly`,
`SipUriRecords.RecordsLastOnes`, `SipUriLayout.Reassembles`, `SipUriLayout.PortNumber`, `SipUriRoundTrip.RoundTrip`,
`SipUriPhone.RoundTripTyped`, `SipUriQuirks.NeverRecordsR2`.

**Connection pools and database workers** (`Db*`; `src/core/db/db_core.c`, `src/core/db/db_to_user.c`). A step system: each step is
one access to shared memory by one thread, and any thread may step next. Drivers are nondeterministic outcomes; a send succeeds; each
result handed out is finalized at most once. Three histories are part of the state: the connections a query was sent on, the driver's last
answer, and the results handed out. Main results: `DbSafety.RunSafe`, `DbAnswers.RunAnswered`, `DbProgress.NoDeadlock`,
`DbProgress.NothingLost`.

**Dispatcher** (`TaskHeap`, `Dispatcher`, `DispatcherRuns`; `src/core/dispatcher/dispatcher.c`). The heap in its array, operation by
operation, and the interleaving of producers and workers with every turn of a sift loop a step of its own, for fewer than MAX_TASKS
tasks; four histories say what was asked for, stored, taken and returned. Main result: `DispatcherRuns.RunSafe`.

**IP addresses as text** (`Ip*`; `src/core/net/ip_addr.h`). The parsers with their two buffers and the printer, against a definition of
the text forms by splitting at the separators, with digits given by their place among the digits. Main results: `IpAddr.Str2Ip6`, `IpRoundTrip.RoundTripV6`, `IpRoundTrip.FormTwo`.

`dafny verify dfyconfig.toml` checks everything.

## What the code does that one would not expect

The models follow the code. Where a lemma or method is named, its contract proves the point.

- `map_put` returns NULL when the item is the one already stored, as if there had been none (`AvlMap.Map.Put`).
- Keys are compared only up to the first NUL byte, then by length (`StrOrder.StrCmpIdentifies`, `StrOrder.CanonHides`).
- ROUNDUP wraps to 0 for sizes above 2^64 - 8 (`FmHash.RoundUpExact`), so such a request is one for 0 bytes.
- `fm_malloc` refuses a request that joined fragments would fit exactly (`FmSweep.ExactFitIsRefused`, `FmReached.ExactFitReached`,
  `FMalloc.Arena.Defrag`).
- In `f_malloc` the counter `used` already contains the headers, and `real_used` contains them twice
  (`FMalloc.Arena.HeadersCountedTwice`). After initialization `max_real_used` is below `real_used`, until the first success
  (`FMalloc.Arena.Layout`).
- A failing `fm_malloc` leaves two free neighbours exactly if the arena ended in an empty free fragment, at `last_frag`, behind a free
  one: the loop joins only below `last_frag` (`FMalloc.Arena.Malloc`, `FmSweep.SweepEnd`). Three requests get there
  (`FmReached.LastPairReached`); without requests that round to 0 there is no such fragment (`FmSweep.NoFreeNeighbours`).
- `qm_realloc` corrects its counters when a shrink did not split, and not when it did (`QMalloc.Arena.ReallocShrink`). The structure stays
  sound (`QMalloc.Arena.Run`), but the early test of `qm_malloc` then refuses requests that a free fragment could serve
  (`QmReached.RefusedAfterShrink`).
- `parse_uri` refuses a URI that ends in a parameter "ma", "mad", "madd", "maddr" or "maddr=", since the final switch
  (`src/core/parser/parse_uri.c:861-948`) does not list those states (`SipUriFinds.FindsLayout`, `SipUriQuirks.MaddrRefused`).
- `parse_uri` does not look for marks in the first character, so "sip:;" is accepted with the host ";". In front of a user a host may contain
  "&" but no brackets, behind one it may contain brackets but no "&" (`SipUriAccepts.AcceptsExactly`).
- "lr=" is recorded at the end of the text but not in front of ";" or "?", and a value that starts with ":" is never recorded
  (`SipUriRecords.RecordsLastOnes`).
- Digits behind a bracketed host that turns out to be a user part are kept in front of the port (`SipUriRoundTrip.StalePort`).
- The scheme is compared after setting bit 5 of each of its four bytes, so the byte 0x1A is accepted for ":"
  (`SipUriQuirks.SchemeBytes`).
- `case 'r'` falls through (`src/core/parser/parse_uri.c:573-578`), so no text has an r2 parameter recorded
  (`SipUriQuirks.NeverRecordsR2`).
- `str2ip` takes an empty piece for 0 and each piece modulo 256 (`IpAddr.Str2Ip`). `str2ip6` takes each group modulo 65536, accepts a
  single trailing colon behind a gap, and refuses "::" forms with eight colons (`IpRoundTrip.FormTwo`).
- In `db_submit_active_query` the test `cap | DB_CAP_SYNC_PREP_STMT` is always true, so every query with a `ps_idx` goes to a
  worker (`src/core/db/db_core.c:175-212`); the model does the same.

## Model

| member | source | states |
|---|---|---|
| StrOrder.StrCmpAntisymmetric | src/core/map.c:50-61 | Swapping the two keys negates the result: the comparison never calls each of two keys the smaller one. |
| StrOrder.StrCmpTransitive | src/core/map.c:50-61 | For any byte strings the comparison is transitive, and strict if either part is strict; with antisymmetry this makes it a total preorder, which every descent in the tree relies on. |
| StrOrder.StrCmpAlphabetical | src/core/map.c:50-61 | On keys without NUL bytes the comparison is the dictionary order, stated independently by the first difference, and zero means equal keys. |
| StrOrder.StrCmpZero | src/core/map.c:50-61 | For all keys, NUL bytes or not: zero exactly when the keys agree once everything behind their first NUL is blanked. |
| StrOrder.StrCmpIdentifies | src/core/map.c:50-61 | The exact condition under which a key is told apart from every other key: no NUL byte before its last position. |
| StrOrder.CanonHides | src/core/map.c:50-61 | The failing family: two keys of one length that share a NUL byte and everything before it are the same key to the map. |
| AvlTree.HeightBound | src/core/map.c:164-431 | A balanced tree of height h holds at least Fib(h+2) - 1 entries. |
| AvlRotate.SingleLeft | src/core/map.c:208-215 | The left rotation, as stores to child and parent links, turns the tree into its rotation with every child and parent link right and the same nodes in the same order. |
| AvlRotate.SingleRight | src/core/map.c:176-183 | The mirror image: right links everywhere, same nodes, same order. |
| AvlRotate.DoubleRightLeft | src/core/map.c:216-236 | The double rotation over a right child that leans left gives a balanced tree one lower, with the stored balances of all three nodes right for each balance of the middle one. |
| AvlRotate.DoubleLeftRight | src/core/map.c:184-204 | The mirror image of the double rotation, with the same guarantee. |
| AvlRotate.GrowRightHigh | src/core/map.c:205-236 | On insertion a node two too high on the right whose child leans is rotated into a balanced tree one lower, which is the height from before the insertion. |
| AvlRotate.GrowLeftHigh | src/core/map.c:173-204 | The mirror image on insertion. |
| AvlRotate.ShrinkRightHigh | src/core/map.c:342-383 | On deletion a node two too high on the right is rotated into a balanced tree; the flag that ends the upward loop is raised exactly when the height did not drop, which is the case of an even child. |
| AvlRotate.ShrinkLeftHigh | src/core/map.c:389-429 | The mirror image on deletion. |
| AvlMap.Map.constructor | src/core/map.c:69-84 | A new map is a valid empty tree and stands for the empty finite map. |
| AvlMap.Map.Search | src/core/map.c:88-104 | The descent ends at the node whose key compares equal, or at the empty place where the key belongs between its neighbours; it makes at most as many steps as the tree is high. |
| AvlMap.Map.Find | src/core/map.c:88-104 | Finds a node exactly if the key is in the abstract map, and its value is the abstract value; the number of comparisons h satisfies Fib(h+2) - 1 <= avl_count. |
| AvlMap.Map.Descend | src/core/map.c:112-141 | Besides the place to insert, the descent returns the last ancestor with a balance other than zero: every node between it and the new place is even. |
| AvlMap.Map.Attach | src/core/map.c:142-163 | The new node is hung where the descent ended: a fresh leaf with the key, a NULL value and balance zero, the tree with it planted and counted. |
| AvlGrow.Climb | src/core/map.c:164-171 | Touching only the balances between the new leaf and y makes every stored balance on that path right again; above y all subtree heights are unchanged. |
| AvlGrow.RotateAt | src/core/map.c:173-238 | Neither assert on the balance of the child can fail; the tree at y becomes balanced again, with the same nodes in order, and has the height it had before the insertion, so nothing above y needs a change. |
| AvlMap.Map.Raise | src/core/map.c:164-242 | From a planted leaf to a well-formed tree with right links and balances and the same nodes in order. |
| AvlMap.Map.Insert | src/core/map.c:142-245 | Inserting an absent key keeps the whole invariant and yields the old map with the key bound to NULL, one node more. |
| AvlMap.Map.Get | src/core/map.c:112-245 | Returns the node of the key. A present key changes nothing; an absent one is added with the value NULL; the full invariant holds afterwards. |
| AvlMap.Map.Put | src/core/map.c:252-265 | The map becomes the old one with the key bound to the item. The result is the replaced value, or NULL if there was none or the item is the one already stored. |
| AvlShrink.Leftmost | src/core/map.c:304-307 | The loop to the left ends at the in-order successor: a node without left child, reached by left links only. |
| AvlMap.Map.SpliceLeft | src/core/map.c:288-291 | A node without right child is replaced by its left child; what remains to repair is one subtree that is one lower than the balances above say. |
| AvlMap.Map.SpliceRight | src/core/map.c:293-302 | A node whose right child has no left child is replaced by that child, which takes over its place, left subtree and balance. |
| AvlMap.Map.SpliceMin | src/core/map.c:303-321 | Otherwise the leftmost node of the right subtree takes its place: all links right, the entries are those before without the deleted one, in order. |
| AvlMap.Map.Splice | src/core/map.c:275-322 | The three cases together: the tree loses exactly the deleted node, keeps its order, and a single subtree sits one too low, also when the pseudo-root is the parent. |
| AvlShrink.SettleLeft | src/core/map.c:337-383 | One turn of the upward loop out of a left subtree: the subtree at y is balanced again and either the loop may stop or the tree at y itself is one lower. |
| AvlShrink.SettleRight | src/core/map.c:384-430 | The mirror image of the turn. |
| AvlMap.Map.Sink | src/core/map.c:329-431 | The upward loop ends for every tree, with all links and balances right and the entries unchanged. |
| AvlMap.Map.DeleteNode | src/core/map.c:267-436 | Deleting any node of a well-formed tree keeps the full invariant (key order, links, stored balances in -1..1 that are the height differences, the count) and removes exactly that node and its entry; the value is returned. |
| AvlMap.Map.Remove | src/core/map.c:440-462 | The key is gone from the map and everything else stays; the result is the value it had, NULL if it was absent. |
| AvlMap.Map.Size | src/core/map.c:490-493 | The counter is the number of entries of the abstract map. |
| AvlMap.Perform | src/core/map.c:88-265 | One operation on the tree has the reply and the effect that the same operation has on a finite map. |
| AvlMap.Run | src/core/map.c:69-493 | Refinement over whole runs: any sequence of get, put, find, remove and size gives exactly the replies of a finite map, and ends with a valid tree that stands for it. |
| AvlIter.Iterator.First | src/core/map.c:524-540 | Stands at the smallest key, or is invalid on an empty map; -1 and no change for a NULL map. |
| AvlIter.Iterator.Last | src/core/map.c:543-559 | Stands at the greatest key, or is invalid on an empty map; -1 and no change for a NULL map. |
| AvlIter.Iterator.Next | src/core/map.c:585-612 | Moves from the i-th entry in key order to the (i+1)-th, and becomes invalid behind the last; an invalid iterator stays put with -1. |
| AvlIter.Iterator.Prev | src/core/map.c:615-642 | Moves from the i-th entry to the (i-1)-th, and becomes invalid before the first. |
| AvlIter.DeleteAt | src/core/map.c:644-656 | Removes exactly the entry the iterator stands at, returns its value, keeps the map valid and leaves the iterator invalid. |
| AvlIter.Ascend | src/core/map.c:524-612 | From map_first, repeated iterator_next visits every entry once in strictly ascending key order and then stops. |
| AvlIter.Descending | src/core/map.c:543-642 | From map_last, repeated iterator_prev visits the same entries in the reverse order. |
| AvlIter.NextThenPrev | src/core/map.c:585-642 | Wherever next leaves the iterator valid, prev brings it back. |
| AvlIter.RotateStep | src/core/map.c:481-485 | The measure of the destroy loop: a rotation lengthens the right spine, which never exceeds the number of nodes, and keeps the entries in order. |
| AvlIter.Destroy | src/core/map.c:469-488 | Ends for every tree, frees every node once in ascending key order, and hands every non-NULL value to the destructor once, in that order. |
| FmHash.RoundUpExact | src/core/mem/f_malloc.c:57 | Rounding up gives the next multiple of 8, exactly for sizes up to 2^64 - 8; above that it wraps to 0. |
| FmHash.BigHashIdx | src/core/mem/f_malloc.c:113-123 | The shifting loop computes the binary logarithm. |
| FmHash.HashRange | src/core/mem/f_malloc.c:68-71 | Every bucket index is inside the table, and small and large sizes never share a bucket. |
| FmHash.HashMonotone | src/core/mem/f_malloc.c:68-71 | A larger size never hashes to an earlier bucket: the reason a search may start at the bucket of the request. |
| FmHash.SmallBucket | src/core/mem/f_malloc.c:68-71 | A bucket for sizes up to the optimization limit holds fragments of one size only. |
| FmLists.LinkInOk | src/core/mem/f_malloc.c:134-159 | Linking a fragment in at the place its size belongs keeps the bucket: forward links, back pointers with *(f->prev) == f, ascending sizes and the count. |
| FmLists.LinkOutOk | src/core/mem/f_malloc.c:161-180 | Unlinking keeps the same for the shortened list, and the fragment is no longer on it. |
| FmBlocks.AttachStep | src/core/mem/f_malloc.c:134-159 | The same for the whole arena: tiling, headers, all other buckets, and each free fragment on exactly the bucket of its size. |
| FmBlocks.DetachStep | src/core/mem/f_malloc.c:161-180 | The inverse step keeps the whole arena sound. |
| FmBlocks.CutStep | src/core/mem/f_malloc.c:193-228 | Cutting a fragment in two leaves an arena that is tiled without gap or overlap, all sizes multiples of 8. |
| FmBlocks.MergeStep | src/core/mem/f_malloc.c:347-352 | Absorbing the right neighbour leaves a tiled arena in which the absorbed header is on no list. |
| FMalloc.Arena.FindSlot | src/core/mem/f_malloc.c:139-148 | The walk stops at the one place that keeps the bucket sorted: every fragment before is smaller, the one there is not. |
| FMalloc.Arena.InsertFree | src/core/mem/f_malloc.c:134-159 | The fragment is free afterwards, nothing else changes, all counters and lists are right, and no live payload byte is touched. |
| FMalloc.Arena.RemoveFree | src/core/mem/f_malloc.c:161-180 | The fragment is taken off its list, nothing else changes; invariant and live payloads are kept. |
| FMalloc.Arena.SplitFrag | src/core/mem/f_malloc.c:185-228 | Splits off a free rest if it is worth a fragment of its own and otherwise changes nothing; invariant, counters and live payloads are kept either way. |
| FmJoin.SplitWorth | src/core/mem/f_malloc.c:198-201 | What the guard means: a fragment is left whole only if it wastes less than the request and a header and at most 16384 bytes and a header, and what is split off could serve the request again or is larger than 16384 bytes. |
| FMalloc.Arena.Layout | src/core/mem/f_malloc.c:250-300 | The initialized block: one free fragment over the whole arena, all other buckets empty, the counters of the invariant right; real_used starts at twice the initial overhead, max_real_used at once. |
| FMalloc.Arena.Init | src/core/mem/f_malloc.c:232-300 | For any address and size: NULL exactly if too little is left after alignment, otherwise a valid arena inside the memory given that misses less than 8 bytes of it at either end, all of it one free fragment behind the control structures. |
| FMalloc.Arena.FindFree | src/core/mem/f_malloc.c:319-330 | The search over buckets returns a best fit, a free fragment of the smallest sufficient size in the whole arena, and fails only if no free fragment is large enough. |
| FmSearch.FirstIsBest | src/core/mem/f_malloc.c:319-330 | Why the first fit met is a best fit: earlier buckets hold only smaller sizes, this bucket is sorted, later buckets hold only larger ones. |
| FMalloc.Arena.Coalesce | src/core/mem/f_malloc.c:345-360 | The inner loop absorbs free right neighbours until the fragment is strictly larger than the request or no free neighbour is left. |
| FMalloc.Arena.Defrag | src/core/mem/f_malloc.c:336-367 | Succeeds exactly if joining adjacent free fragments yields one strictly larger than the request. When it fails no free fragment is larger than the request, the live fragments are those before, and two free neighbours are left exactly if the arena ended, before the call, in an empty free fragment at last_frag behind a free one. |
| FmSweep.SweepEnd | src/core/mem/f_malloc.c:336-367 | The sweep that reaches the end has merged every joinable run: nothing was joinable into a larger fragment, and two free neighbours are left exactly if the original arena ended in an empty free fragment behind a free one. |
| FmSweep.SweepPair | src/core/mem/f_malloc.c:345-360 | Why exactly there: the loop joins only fragments below last_frag, and everything before the last one it has joined. |
| FmSweep.SweepFound | src/core/mem/f_malloc.c:336-367 | Conversely, a sweep that stops early had a joinable run in the original arena. |
| FmSweep.NoFreeNeighbours | src/core/mem/f_malloc.c:336-367 | The condition never holds in an arena without an empty fragment, so there a failing sweep leaves no two free neighbours. |
| FmSweep.LastPairStays | src/core/mem/f_malloc.c:345 | A concrete arena, two empty free fragments, in which a request for 8 bytes cannot be served and the condition holds. |
| FmReached.LastPairReached | src/core/mem/f_malloc.c:308-457 | And it is reached: malloc(0), free and malloc(8) on a fresh arena of 24 bytes end in a failure that leaves two free neighbours. |
| FmSweep.ExactFitIsRefused | src/core/mem/f_malloc.c:354-355 | A concrete arena in which two free neighbours join to exactly the request and defragmentation still refuses it. |
| FmReached.ExactFitReached | src/core/mem/f_malloc.c:308-457 | And it is reached: three allocations and two frees on a fresh arena of 200 bytes, after which a request for 104 fails beside 104 joinable bytes. |
| FMalloc.Arena.Malloc | src/core/mem/f_malloc.c:308-403 | Succeeds exactly if a free fragment fits or free neighbours join to a strictly larger one. The payload is at least ROUNDUP(size) and below 2*ROUNDUP(size)+FRAG_OVERHEAD on both paths, without defragmentation is a best fit and wastes at most 16384 bytes and a header, and disturbs no live block. A failure leaves no free fragment larger than the request, and two free neighbours exactly if the arena ended, before the call, in an empty free fragment behind a free one. |
| FMalloc.Arena.JoinRight | src/core/mem/f_malloc.c:438-457 | Joining on free absorbs free right neighbours until none is left or there is more large free space than the limit; above the limit it does nothing. |
| FMalloc.Arena.Free | src/core/mem/f_malloc.c:412-462 | Exactly the freed block leaves the live set and every other live payload keeps its bytes; with little large free space no free right neighbour is left, with more than the limit nothing is joined; NULL changes nothing. |
| FmPayload.CopyStep | src/core/mem/f_malloc.c:557 | Copying between two live fragments carries the bytes over and changes no other live payload, since live fragments are disjoint. |
| FmPayload.Carried | src/core/mem/f_malloc.c:553-562 | The bytes survive the whole move: allocation, copy, and the writes of freeing the old block. |
| FMalloc.Arena.Shrink | src/core/mem/f_malloc.c:509-516 | The block keeps its address and its remaining bytes, and has the requested size up to a rest not worth a fragment. |
| FMalloc.Arena.GrowInPlace | src/core/mem/f_malloc.c:525-547 | The block grows over its free neighbour at the same address and keeps all its bytes; no other live block changes. |
| FMalloc.Arena.Move | src/core/mem/f_malloc.c:548-565 | Succeeds exactly if an allocation of the size would; then all old bytes are at the new address; otherwise the old block is still live and unchanged. |
| FMalloc.Arena.Realloc | src/core/mem/f_malloc.c:469-582 | On every branch the first min(old, new) bytes survive and only the block itself changes; a result is at least ROUNDUP(size) and below 2*ROUNDUP(size)+FRAG_OVERHEAD, at the old address whenever the block shrinks or its free neighbour makes up for the rest; failure leaves the block live, NULL allocates and size 0 frees. |
| FMalloc.Arena.HeadersCountedTwice | src/core/mem/f_malloc.c:86-109 | The exact value of the counters in every valid state: used is the live bytes plus all headers, and real_used is the live bytes plus all headers twice. |
| FMalloc.Arena.Run | src/core/mem/f_malloc.c:232-582 | Every run of malloc, free and realloc is a run of the fragment sequences: each request is answered and changes the fragments as the rows above say (success exactly if servable, one block gained, lost or resized), and the whole invariant holds: tiling, list integrity, counters; the pointers handed out and not yet freed are exactly the live fragments. |
| FmCount.LiveDisjoint | src/core/mem/f_malloc.c:193-228 | Live fragments overlap no other fragment and stay inside the arena. |
| FmCount.TotalBytes | src/core/mem/f_malloc.c:86-109 | Conservation: free bytes, live bytes and headers add up to the arena. |
| QmLists.QmHashMonotone | src/core/mem/q_malloc.c:80-118 | A larger size never hashes to an earlier bucket, so the search may start at the bucket of the request. |
| QmLists.LinkInLinked | src/core/mem/q_malloc.c:160-178 | The four link stores keep a circular doubly linked list through its bucket head, in both directions. |
| QmLists.LinkOutLinked | src/core/mem/q_malloc.c:253-265 | Detaching keeps the ring of the remaining fragments, although the detached one still points into it. |
| QmBlocks.QAttach | src/core/mem/q_malloc.c:160-178 | Putting a fragment on its bucket keeps the arena sound: tiling, heads equal to end tags, rings, counts, and each free fragment on exactly its bucket. |
| QmBlocks.QDetach | src/core/mem/q_malloc.c:253-265 | Taking one off keeps the same but for the one stale link the detached fragment is left with. |
| QmBlocks.QSplit | src/core/mem/q_malloc.c:303-342 | Writing the four tags of a split keeps a tiled arena with every head equal to its end tag. |
| QmBlocks.QFuse | src/core/mem/q_malloc.c:485-486 | Writing one head and one end tag over two neighbours keeps a tiled arena with every head equal to its end tag. |
| QMalloc.Arena.FindPlace | src/core/mem/q_malloc.c:165-170 | The walk stops where the ring stays sorted by size. |
| QMalloc.Arena.InsertFree | src/core/mem/q_malloc.c:160-178 | The fragment is free afterwards, its stale link is repaired, and nothing else changes. |
| QMalloc.Arena.Unlist | src/core/mem/q_malloc.c:253-265 | The fragment is on no list afterwards; only its own link is stale. |
| QMalloc.Arena.FindFree | src/core/mem/q_malloc.c:268-292 | Returns a free fragment of the smallest sufficient size in the whole arena, and none only if every free fragment is too small. |
| QMalloc.Arena.SplitFrag | src/core/mem/q_malloc.c:303-342 | Exactly when the rest is worth a fragment it is cut off, freed and its header counted, with result 0; otherwise nothing changes, with result -1. |
| QMalloc.SplitOffWorth | src/core/mem/q_malloc.c:310-313 | What the guard means: a fragment is left whole only if it wastes less than the request and a header and at most 16384 bytes and a header, and what is split off could serve the request again or is larger than 16384 bytes. |
| QMalloc.NoneServes | src/core/mem/q_malloc.c:365 | The early exit is right: if real_used leaves fewer free bytes than the request, no free fragment could serve it. |
| QMalloc.TakenFacts | src/core/mem/q_malloc.c:369-391 | Serving from a best fit leaves no free neighbours and hands out at least the request and less than twice it plus a header. |
| QMalloc.Arena.Malloc | src/core/mem/q_malloc.c:350-406 | Fails exactly if size - real_used is below the rounded request or every free fragment is, and with right counters exactly in the second case; it then changes nothing. Otherwise a fragment of a bounded size is handed out; no other live fragment and none of their bytes changes. Whatever the counters are off by stays, and no free neighbours come about. |
| QMalloc.Arena.DetachRight | src/core/mem/q_malloc.c:457-467 | A free right neighbour, found through the header, is taken off its list and its size with overhead added. |
| QMalloc.Arena.DetachLeft | src/core/mem/q_malloc.c:469-484 | A free left neighbour, found through the end tag before the header, is taken off its list and becomes the start of the joined fragment. |
| QmJoin.JoinedFacts | src/core/mem/q_malloc.c:456-486 | Joining with both neighbours: the joined fragment has no free neighbour on either side, and the sums of live and free bytes move by exactly the absorbed headers. |
| QmJoin.FreedFacts | src/core/mem/q_malloc.c:451-493 | After a free no two adjacent fragments are free, exactly the freed block left the live set, and the free bytes grew by its payload and each absorbed header. |
| QMalloc.Arena.Free | src/core/mem/q_malloc.c:414-494 | The result is the arena with the block joined to its free neighbours; used drops by its payload; all other live payloads keep their bytes; whatever the counters are off by stays; NULL changes nothing. |
| QmPayload.WipeSpares | src/core/mem/q_malloc.c:160-178 | A store to a head or an end tag lies between payloads: it changes the bytes of no live fragment. |
| QmPayload.QCopyStep | src/core/mem/q_malloc.c:601 | Copying between two live fragments carries the bytes over and changes no other live payload. |
| QMalloc.Arena.GrowInPlace | src/core/mem/q_malloc.c:569-591 | Growing over a free right neighbour keeps address and payload bytes, gives at least the request, and changes no other live block; counters and joining stay as right as they were. |
| QMalloc.Arena.Move | src/core/mem/q_malloc.c:592-609 | The move fails exactly if an allocation of the size would, leaving the old block live with its bytes; otherwise exactly the old block is replaced by the new one, which has all the old bytes. |
| QMalloc.Arena.ReallocGrow | src/core/mem/q_malloc.c:564-613 | A growing realloc fails only if an allocation would, and then changes no fragment and no payload; otherwise all old bytes are kept, it gives at least the request and less than twice it plus a header, changes only its own block, and stays in place whenever the free neighbour has room. |
| QMalloc.Arena.ReallocShrink | src/core/mem/q_malloc.c:549-562 | The block keeps its address and its remaining bytes. The exact drift of the counters: they are corrected in the case that did not split, so a split leaves real_used and used too high by the bytes freed, and no split leaves real_used too high by one header. |
| QMalloc.Arena.Realloc | src/core/mem/q_malloc.c:502-620 | On every branch the structure holds, the first min(old, new) bytes survive, only the block itself changes, and the result has a bounded size; only a shrink moves the counters or makes free neighbours. |
| QMalloc.Arena.Layout | src/core/mem/q_malloc.c:195-249 | The initialized block: one free fragment with matching tags on its ring, empty rings elsewhere, counters right. |
| QMalloc.Arena.Init | src/core/mem/q_malloc.c:183-249 | For any address and size: NULL exactly if too little is left after alignment, otherwise a valid arena inside the memory given that misses less than 16 bytes of it at either end, all of it one free fragment behind the control structures. |
| QMalloc.Arena.Run | src/core/mem/q_malloc.c:183-620 | Every run of malloc, free and realloc, shrinks included, is a run of the fragment sequences: each request is answered and changes the fragments as the rows above say; the structure (tiling, end tags equal to headers, rings) holds, exactly the pointers handed out are live, and as long as no request has shrunk a block there are also no two free neighbours and real_used plus free bytes is the size. |
| QmReached.RefusedAfterShrink | src/core/mem/q_malloc.c:365-562 | What the drift does: after malloc(400) and realloc to 16 on a fresh arena of 832 bytes, malloc(400) is refused although a free fragment of 400 is there. |
| SipUri.ParseUri | src/core/parser/parse_uri.c:315-994 | The loop over the text, with its early error exits and the fix-up behind it, computes the function that the rows below pin down for every text. |
| SipUriAccepts.AcceptsExactly | src/core/parser/parse_uri.c:315-994 | The language: a text is accepted exactly if behind its scheme it can be laid out as [user [":" password] "@"] host [":" port] [";" params] ["?" headers] with components free of the marks that end them and does not end in a "maddr" cut short; the slices returned are those of the layout. |
| SipUriAccepts.StepClean | src/core/parser/parse_uri.c:341-823 | Every step keeps: what has been read is free of the marks, and a host, its parameters and its headers are at the same time a possible user and password as long as no second ":" or other mark rules that out. |
| SipUriAccepts.TelSlices | src/core/parser/parse_uri.c:982-994 | For a tel URI the slices are those of the layout with the host moved to the user. |
| SipUriAccepts.PhoneSlices | src/core/parser/parse_uri.c:957-994 | With user=phone the user ends at its first ";", what follows that becomes the parameters, and nothing else moves. |
| SipUriLayout.StepKeeps | src/core/parser/parse_uri.c:341-823 | Every one of the states keeps the loop invariant: what the slices found so far, and the guess still open for revision, say about the text read. |
| SipUriLayout.AcceptedCovers | src/core/parser/parse_uri.c:315-994 | For an accepted SIP or SIPS URI the slices and their delimiters cover the text behind the scheme without gap or overlap. |
| SipUriLayout.Reassembles | src/core/parser/parse_uri.c:315-994 | Scheme, [user [":" password] "@"] host [":" port] [";" params] ["?" headers] put together from the returned slices is the input, for every accepted SIP or SIPS text, also after a revised guess. |
| SipUriQuirks.DigitIs | src/core/parser/parse_uri.c:98-100 | The digits of a port are the ten digits with their values. |
| SipUriLayout.PortNumber | src/core/parser/parse_uri.c:398-546 | port_no is the decimal value of the port slice modulo 65536, unless a user part starts with "["; then digits counted for a bracketed address come in front, and the statement says exactly which. |
| SipUriRoundTrip.StalePort | src/core/parser/parse_uri.c:398-546 | A witness that the exception is real: "sip:[a]:12;x@h:34" is accepted with the port slice "34" and the port number 1234. |
| SipUriParams.StepNotes | src/core/parser/parse_uri.c:549-783 | Every step keeps what the parameter states claim: the letters read so far spell the parameter the state is named for. |
| SipUriParams.RecordsOnlyParams | src/core/parser/parse_uri.c:549-783 | Every recorded parameter slice starts at a ";", ends at a delimiter and spells its own name, its value slice is what follows its "=", and the transport number is one a transport parameter spells; whatever is accepted. |
| SipUriRecords.RecordsLastOnes | src/core/parser/parse_uri.c:549-948 | For every accepted text, stated in the text alone: of each known name but r2 exactly the last parameter is recorded, flag or with a value, with the last value, and the protocol is that of the last transport parameter that names one; nothing from before the last "@" or from the headers is. |
| SipUriRecords.EndRecords | src/core/parser/parse_uri.c:549-948 | At the end of a parameter, by ";", "?" or the end of the text, in whatever state, exactly what its text says is recorded. |
| SipUriRecords.StepTracked | src/core/parser/parse_uri.c:341-823 | Every step keeps the state of the automaton in agreement with the text of the parameter being read, in both directions, and the records with the parameters already read. |
| SipUriReads.ReadsPrefix | src/core/parser/parse_uri.c:549-783 | Conversely, a text that spells a prefix of a known parameter name, in any case, drives the automaton along the states of that name. |
| SipUriReads.RecordsParam | src/core/parser/parse_uri.c:549-783 | A complete known parameter with a value is recorded, name and value, when its end is reached. |
| SipUriReads.SetsProto | src/core/parser/parse_uri.c:610-660 | "transport=" with udp, tcp, tls or sctp sets exactly that protocol. |
| SipUriFinds.FindsLayout | src/core/parser/parse_uri.c:315-994 | Any text laid out as a URI with clean components, where the user may contain ";" and "?", is refused exactly if it ends, without headers, in a parameter spelled "ma", "mad", "madd", "maddr" or "maddr="; otherwise, short of user=phone, the slices returned are those of the layout. |
| SipUriQuirks.MaddrRefused | src/core/parser/parse_uri.c:861-948 | Each of the five endings is refused by itself: "sip:h;" followed by "ma", "mad", "madd", "maddr" or "maddr=". |
| SipUriQuirks.StepAvoids | src/core/parser/parse_uri.c:549-783 | No step enters a state of r2: the only way in falls through to the state of an unknown parameter. |
| SipUriQuirks.NeverRecordsR2 | src/core/parser/parse_uri.c:573-578 | Of no text whatever is an r2 parameter recorded, neither its name nor its value. |
| SipUriQuirks.SchemeBytes | src/core/parser/parse_uri.c:328-338 | The texts taken for the schemes sip:, sips: and tel:, exactly: the letters in either case and, for the colon of sip: and tel:, the byte 0x1A as well. |
| SipUriQuirks.LowerIs | src/core/parser/parse_uri.c:223-290 | Names and values are compared without regard to case, for every character: the tables accept a capital for its small letter and nothing else. |
| SipUriRoundTrip.RoundTrip | src/core/parser/parse_uri.c:315-994 | Rendering clean components and parsing the text gives the components and the port number back if the type stays SIP or SIPS; it is refused exactly in the case just named. |
| SipUriPhone.TypeKept | src/core/parser/parse_uri.c:957-994 | The type becomes that of a telephone URI exactly if the recorded user parameter is "phone", which only a whole parameter user=phone in the text can cause; otherwise it is the type the scheme says. |
| SipUriPhone.RoundTripTyped | src/core/parser/parse_uri.c:315-994 | Clean components without user=phone, rendered as sip: or sips:, come back from the parser with that type and unchanged, unless the last parameter is a "maddr" cut short. |
| DbSafety.LocksKept | src/core/db/db_core.c:175-297 | Every step of every thread keeps each pool lock and w_lock with at most one holder, the one whose program point says so. |
| DbSafety.BalanceKept | src/core/db/db_core.c:185-196 | Every step keeps the length of the waiting list equal to the semaphore plus the workers past their wait plus the submitters that published but have not posted. |
| DbSafety.NeverEmpty | src/core/db/db_core.c:270-281 | work never pops an empty waiting list: whoever is past the wait finds an entry. |
| DbSafety.ListsKept | src/core/db/db_core.c:214-260 | Every step keeps pool lists and waiting list free of repetitions, and no pool ever has both a free connection and a queued query. |
| DbSafety.LocalKept | src/core/db/db_core.c:102-297 | Every step, by this thread or another, keeps what each thread relies on at its program point. |
| DbSafety.ItemsKept | src/core/db/db_core.c:102-297 | Every step moves at most the connection it handles: each is in exactly one place afterwards. |
| DbSafety.QueriesKept | src/core/db/db_core.c:102-297 | Every step keeps each submitted query in exactly one place. |
| DbSafety.CalledKept | src/core/db/db_core.c:102-136 | Every step keeps the number of callbacks of each query at most one. |
| DbSafety.RolesKept | src/core/db/db_core.c:262-297 | Every step keeps the program points of a worker with the workers. |
| DbSafety.StepKeeps | src/core/db/db_core.c:102-297 | The invariant as a whole is inductive over all steps of submitters, workers, dispatcher tasks and reactor events. |
| DbSafety.InitSound | src/core/db/db_to_user.c:193-214 | It holds when db_init has filled the pools. |
| DbSafety.RunSafe | src/core/db/db_core.c:102-297 | In every state of every interleaving: each connection is in exactly one of pool, waiting pair, thread, task, event or unfinalized result; each query is in exactly one place; a callback has run exactly once for a finished query and never otherwise; no pool has both a free connection and a queued query; work never finds the list empty. |
| DbAnswers.StagedKept | src/core/db/db_core.c:52-297 | Every step of every thread keeps each query as far as its place says: not sent, for the worker or to be sent at once, sent, polled, with a result, without one, or over. |
| DbAnswers.RunAnswered | src/core/db/db_core.c:52-297 | In every state of every interleaving: no query is sent twice, and one whose task is pending, whose connection is polled or whose callback has run was sent exactly once, on a connection of its own pool; only pools with a socket function are polled and only for queries without ps_idx, and the workers get the others; the callback was given a result exactly if the query is a select and the last answer of the driver was one. |
| DbProgress.NoDeadlock | src/core/db/db_core.c:214-297 | With one worker and one other thread, every reachable state that is not quiet has a step that needs no new submission or finalization: no lock order blocks. |
| DbProgress.NothingLost | src/core/db/db_to_user.c:404-411 | When everything is quiet, each submitted query has had its callback exactly once, or is still queued in a pool whose every connection sits behind an unfinalized result. |
| TaskHeap.UpSwap | src/core/dispatcher/dispatcher.c:84-100 | One turn of the sift-up loop keeps the heap but for the one pair it has moved up to. |
| TaskHeap.DownSwap | src/core/dispatcher/dispatcher.c:125-157 | One turn of the sift-down loop keeps the heap but for the one node it has moved down to. |
| TaskHeap.RootIsMax | src/core/dispatcher/dispatcher.c:118 | No task in a heap has a higher priority than the root. |
| Dispatcher.Queue.constructor | src/core/dispatcher/dispatcher.c:34-58 | A new dispatcher is a valid empty heap. |
| Dispatcher.Queue.Put | src/core/dispatcher/dispatcher.c:69-105 | In place in the array: heap order holds and exactly one task was added. |
| Dispatcher.Queue.Get | src/core/dispatcher/dispatcher.c:108-161 | Returns a task of maximal priority; heap order holds and exactly that task was removed. |
| DispatcherRuns.BalancedKept | src/core/dispatcher/dispatcher.c:69-161 | Every step keeps size equal to the semaphore plus the workers past their wait that have not popped plus the producers that stored but have not posted. |
| DispatcherRuns.OrderKept | src/core/dispatcher/dispatcher.c:69-161 | Every step, with the sift loops interrupted at any turn, keeps the heap order its lock holder promises and loses or invents no task. |
| DispatcherRuns.StepKeeps | src/core/dispatcher/dispatcher.c:69-161 | The invariant as a whole is inductive over all steps of all producers and workers. |
| DispatcherRuns.RunSafe | src/core/dispatcher/dispatcher.c:69-161 | In every state of every interleaving: the tasks producers were asked to store are those stored and those still held, the tasks stored are those in the heap and those taken, and the tasks taken are those returned and those about to be; whoever has waited finds a task; the task it takes has maximal priority. |
| DispatcherRuns.HandedKept | src/core/dispatcher/dispatcher.c:69-161 | Every step keeps what goes in equal to what is stored and what is taken equal to what comes out, up to the tasks in the hands of threads. |
| IpAddr.Str2Ip | src/core/net/ip_addr.h:132-170 | Accepts exactly digits with three dots and returns the four pieces, each modulo 256 and an empty one as 0, given by splitting the text at its dots. |
| IpText.DigitIs | src/core/net/ip_addr.h:150-151 | The digit test and value are right for every character: its place in "0123456789". |
| IpAddr.Finish6 | src/core/net/ip_addr.h:233-244 | Laying the groups behind the gap into the second buffer yields the eight groups the pieces denote, with at least one zero group in the gap and all indices in range. |
| IpAddr.Str2Ip6 | src/core/net/ip_addr.h:175-273 | For every text: refused exactly if the split of the text at its colons denotes no address, and otherwise the eight groups it denotes, their bytes in memory in network order, high byte first; an opening bracket needs its closing one at the end. |
| IpText.Hex2IIs | src/core/net/ip_addr.h:177-180 | HEX2I is right for every character: its place among the sixteen digits, in upper or lower case, and -1 for any other. |
| IpText.ParsesOne | src/core/net/ip_addr.h:175-273 | A text denotes at most one address. |
| IpAddr.PutHex | src/core/net/ip_addr.h:296-323 | A group is printed without leading zeros in one to four digits, by the four branches on its leading nibbles. |
| IpAddr.PutDec | src/core/net/ip_addr.h:352-371 | An octet is printed without leading zeros in one to three digits. |
| IpText.DigitsPrinted | src/core/net/ip_addr.h:290 | The characters printed are the digits "0123456789ABCDEF". |
| IpRoundTrip.NoLeadingZero | src/core/net/ip_addr.h:296-371 | A printed number starts with a zero only if it is zero. |
| IpAddr.IpAddr2A | src/core/net/ip_addr.h:283-398 | The buffer holds the printed form with its terminating NUL, always within its 40 bytes; NULL exactly for another address family. |
| IpRoundTrip.RoundTripV6 | src/core/net/ip_addr.h:175-398 | Parsing the printed form of any IPv6 address gives the address back. |
| IpRoundTrip.RoundTripV4 | src/core/net/ip_addr.h:132-398 | Parsing the printed form of any IPv4 address gives the address back. |
| IpRoundTrip.PrintAndRead6 | src/core/net/ip_addr.h:175-398 | The two functions composed: printing an IPv6 address into the buffer and parsing the string up to its NUL returns the same words. |
| IpRoundTrip.PrintAndRead4 | src/core/net/ip_addr.h:132-398 | The same for an IPv4 address. |
| IpRoundTrip.FormOne | src/core/net/ip_addr.h:175-273 | Any eight hexadecimal groups separated by colons (section 2.2 of RFC 4291, form 1) parse to their values. |
| IpRoundTrip.FormTwo | src/core/net/ip_addr.h:175-273 | Form 2, with "::" for one or more groups, parses to the address it denotes exactly if it has at most seven colons; with eight it is refused. |

## Left out

- AvlMap.Map.Get: the key is taken as given; copying it (or not, with MAP_NO_DUPLICATE) and failing allocations are not modelled.
- AvlIter.Destroy: the destructor is the sequence of values handed to it; freeing key buffers is not modelled.
- map_for_each: its early stop is not modelled.
- FMalloc.Arena.Run: pointers are freed and resized only while they are held, as the allocator demands of its callers.
- FMalloc: builds with DBG_F_MALLOC, fm_status and fm_info are not modelled.
- QMalloc.Arena.Run: pointers are freed and resized only while they are held, as the allocator demands of its callers. After a shrink the
  counters and the free neighbours are not described for the run as a whole, only call by call.
- QMalloc: builds with DBG_QM_MALLOC or without QM_JOIN_FREE, qm_status and qm_info are not modelled.
- SipUriLayout.PortNumber: digits are counted in unbounded integers; the int of the code overflows beyond nine or ten digits.
- SipUriLayout.Reassembles: tel URIs, and SIP URIs with user=phone, are not covered; their slices are moved after the parse
  (`SipUriPhone.TypeKept` says exactly when, `SipUriAccepts.TelSlices` and `SipUriAccepts.PhoneSlices` how).
- SipUri.ParseUri: the error labels of the code are in the model, but no statement tells one from another; the code returns the same for all.
- SipUriReads.RecordsParam: r2 is not covered, since the code never records it (`SipUriQuirks.NeverRecordsR2`).
- DbSafety.RunSafe: failing sends (marked as unfinished in the code), freeing of query structures, and the opening of pools are not
  modelled; a query keeps its type.
- DbProgress.NoDeadlock: fairness is not modelled; pool lists and the waiting list are stacks, so nothing is said about order.
- DispatcherRuns.RunSafe: a producer does not go on while there are MAX_TASKS tasks; the code assumes there are fewer. Locks and semaphores
  are abstract.
- IpAddr.IpAddr2A: the buffer is a parameter instead of a static variable.
- vq_malloc.c, sockets, epoll, timers, the management interface, configuration, SQL text building, MIME and header parsers, and the
  database drivers are not part of this model.
