# pimd, verified in part

pimd is a PIM-SM router daemon written in C. This project models its hardest kernels in Dafny and
proves what they promise, for all inputs and all runs. Nothing here executes the daemon, and nothing
was executed: what is stated below is what the verifier accepts.

`dafny verify dfyconfig.toml` checks everything. The modules are independent of each other except
where one is named:

- **The multicast routing table** (`src/mrt.c`). C structures live at pointers, and every field of a
  kind of structure is a map from pointers; the domain of the map is what is allocated, so reading or
  writing through a null or freed pointer cannot be verified. `Links` has doubly linked chains,
  `Orthogonal` one direction of the orthogonal list, `KernelCache` the mirrors of the kernel's
  forwarding cache, `MrtModel` the invariant, `MrtSteps` and `MrtBuild` what each write keeps of it,
  `Mrt` the mutually recursive deletes, `MrtFind` find_route, `MrtRp` the changes of RP, and `MrtTable`
  the table as an object with what its invariant says. While an operation is at work the invariant
  holds up to a `Pending` record of what is out of its place.
- **The Assert election** (`src/pim_assert.c`): `Assert`.
- **IP fragmentation in place** (`send_frame` of `src/pim.c`): `Frame`.
- **Auto-RP**: `AutoRp` (resolution and longest match), `AutoRpMirror` (the two lists),
  `AutoRpWire` (the mapping message and the walk that reads one).
- **The privilege separation protocol** (`src/privsep.c`): `Privsep`.
- **The callout queue** (`src/timer.c`): `Timer`.
- **Wire codecs** (`src/pim_encode.c`, `src/pim_parse.c`): `Wire` (the bounded writer), `JoinPrune`,
  `Bootstrap`, `Hello`.
- **The downstream Join/Prune machines** (`src/pim_jp.c`): `Jp`.
- **Addresses and the Internet checksum** (`src/inet.c`): `Inet`, `Cksum`.

Addresses are host-order integers. What calls answer that leave the modelled code (memory, routes,
RPs, the kernel, the peer's timing) is a parameter, an event or an arbitrary choice.

## What was found

- `find_route` may delete a `(*,G)` that existed before the call. `MrtFind.LostExactly` says from the
  table and the answers exactly when: the call was to create an `(S,G)` of admissible addresses, the
  group has no `(S,G)` and a `(*,G)` that still carries MRTF_NEW, whoever made it, and there is no memory
  for the `(S,G)` or its source cannot be had. `MrtTable.NewWildTaken` is a pair of calls of which the
  second takes what the first returned.
- An interface scan of more than 4096 records stops the child at the 86th reply with the others unread
  on the stream. The next call reads one of them and desyncs; but a scan does not compare the operation,
  so if the next request is a scan it returns the records behind the 4128th of the earlier list, an
  empty list up to 4128 of them, as if they were all there are. `Privsep.OwnReplies` shows that this is
  the only way to lose step short of running out of memory, `Privsep.AfterOverrun` what follows in any run, and
  `Privsep.OverrunDesyncs` a run that ends so for every such list.
- A Bootstrap whose last range has no RP is read without that range. `Bootstrap.RoundTripExactly`
  shows that this is the only case.
- Auto-RP resolution can change which groups are denied. `AutoRp.DenyKeptExactly` gives the exact
  condition on the announcements: some winner that is a longest match is supplanted by a shorter prefix
  of the other sign, every winner between being dropped by rule 3. `AutoRp.ThreeLevelsDiffer` is a case,
  `AutoRpMirror.HoldsThreeLevels` shows that three announcements make it, and `AutoRp.DenyKept` gives a
  condition that excludes it.
- A pair can be mirrored by an `(S,G)` and by its `(*,G)` at once, as `src/route.c:2081` does. Then
  `move_kernel_cache` frees a mirror that no `k_del_mfc` answers for (`KernelCache.Move` says it does so
  in no other case, `KernelCache.MovedTwice` is one), which keeps the mirrors and the kernel's cache in
  agreement. Deleting the pair from one of the two leaves the other mirroring what the kernel no longer
  has: `KernelCache.PairAgrees` and `KernelCache.AllAgree` say before the call that a deletion keeps
  agreement exactly if every pair it deletes is mirrored once, and `KernelCache.DeletedOnce` is a case
  where it does not.

## Model

| member | source | states |
|---|---|---|
| Links.ChainDistinct | src/mrt.c:815-850 | a doubly linked chain never visits a node twice |
| Links.UnlinkChain | src/mrt.c:562-576 | the two writes that unlink a node leave a chain of the others and touch no link outside it |
| Links.LinkChain | src/mrt.c:834-850 | the writes that insert a node leave a chain with it in place and touch no link outside it |
| KernelCache.DeleteAll | src/mrt.c:993-1014 | every mirror of the entry goes, each with one k_del_mfc in list order; all other entries mirror what they did; the flag is clear |
| KernelCache.DeleteNode | src/mrt.c:1017-1042 | one mirror goes with one k_del_mfc, the flag following the list |
| KernelCache.DeletePair | src/mrt.c:1045-1096 | the mirror of the pair goes, with one k_del_mfc, exactly if there is one, and no other mirror goes |
| KernelCache.Move | src/mrt.c:1188-1271 | an (S,G) and its (*,G) mirror between them the pairs they did; exactly when the move happens the pair changes owner and the one mirror the (S,G) had is freed; mirrors gone and k_del_mfc made differ exactly if both mirrored the pair; what is mirrored at all stays; nobody else changes; flags agree with lists and lists stay ascending |
| KernelCache.Add | src/mrt.c:1103-1183 | the move and then the pair added where it belongs; an (S,G) keeps at most one mirror |
| KernelCache.ListPaired | src/mrt.c:993-1014 | per pair, as many mirrors go as k_del_mfc are made |
| KernelCache.AgreeExactly | src/mrt.c:993-1096 | where mirrors and the kernel's cache agreed, what the kernel has is mirrored after any deletions, and they agree exactly if no pair deleted from the kernel is mirrored still |
| KernelCache.AgreeBefore | src/mrt.c:993-1096 | and so, by the state before, exactly if each pair is deleted as often as it is mirrored |
| KernelCache.PairAgrees | src/mrt.c:1045-1096 | deleting a pair from an entry keeps agreement if and only if the entry does not mirror it or no other does |
| KernelCache.AllAgree | src/mrt.c:993-1014 | deleting all mirrors of an entry keeps agreement if and only if no other entry mirrors one of its pairs |
| KernelCache.AgreeIfOnce | src/mrt.c:993-1096 | and so they always agree while no pair is mirrored twice, which deletions keep |
| KernelCache.MovedTwice | src/mrt.c:1257-1268 | a pair mirrored by an (S,G) and then by its (*,G): moving it frees a mirror no k_del_mfc answers for |
| KernelCache.DeletedOnce | src/mrt.c:1045-1096 | the same pair deleted from the (S,G): the (*,G) goes on mirroring what the kernel no longer has |
| Orthogonal.CutSide | src/mrt.c:562-594 | taking an entry off its owner's chain keeps every chain of that direction threaded, ascending and its owner's |
| Orthogonal.JoinSide | src/mrt.c:815-850 | inserting an entry where its key belongs keeps every chain of that direction |
| Mrt.DeleteSource | src/mrt.c:451-486 | the source goes with exactly its entries, and with every group that leaves with neither (S,G) nor (*,G); terminates through the mutual recursion; every mirror gone is one k_del_mfc |
| Mrt.DeleteGroup | src/mrt.c:489-534 | the group goes with its (*,G) and exactly its entries, off its RP chain, and with every source that leaves with nothing; terminates; every mirror gone is one k_del_mfc |
| Mrt.DeleteEntry | src/mrt.c:537-603 | exactly this entry goes, from both chains, with its group and its source exactly if they are left with nothing |
| MrtFind.SearchList | src/mrt.c:606-651 | the node of the address if there is one, else the place it belongs |
| MrtFind.SearchChain | src/mrt.c:758-812 | the entry of the address if there is one, else the place it belongs |
| MrtFind.OnePerPair | src/mrt.c:931-970 | the table has at most one entry for a source and group |
| MrtFind.ChainsAgree | src/mrt.c:943-954 | a pair not on its group's chain is not on its source's: the "MRT inconsistency" branch is not reached |
| MrtFind.CreateGroup | src/mrt.c:707-750 | the group of the address, made if there is none and memory allows; no entry changes |
| MrtFind.CreateSource | src/mrt.c:663-704 | the source of the address, made if there is none, memory allows and a route is found or not needed |
| MrtFind.CreatePair | src/mrt.c:931-970 | the (S,G) of the pair, on both chains; never panics; an existing one is returned unchanged |
| MrtFind.CreateWild | src/mrt.c:976-990 | the (*,G) of a group that has an RP; an existing one is returned unchanged |
| MrtFind.PlaceGroup | src/mrt.c:295-338 | a group without an RP takes the mapping there is, or the RP-less list, and is refused exactly when an RP is needed and there is none |
| MrtFind.CacheMove | src/mrt.c:1188-1271 | in the table, what all entries mirror together stays the same and no kernel call is made |
| MrtFind.Resolve | src/route.c:833-845 | a source without a route takes one, or is left without |
| MrtFind.Lookup | src/mrt.c:248-280 | without creation: the entry of the pair if there is one, else the group's (*,G) if asked for; found exactly when it exists |
| MrtFind.FindRoute | src/mrt.c:222-448 | for every answer of memory, routes and RPs: the invariant of the table holds again; what is returned is the entry asked for, an (S,G) first, a new one with the incoming interface it must have; with creation nothing is returned if and only if, as the table is and the answers are, the group is missing without memory for it or lacks a needed RP, or the (*,G) is missing without memory for it, or the (S,G) is, or its source is missing without memory or a route or has no route and finds none; without creation nothing changes and what exists is found; all other entries are as they were but for exactly the group's (*,G) where the call gave up on an (S,G), the group has no (S,G) and the (*,G) is still new; what is mirrored stays, and mirrors gone are k_del_mfc made |
| MrtFind.LostExactly | src/mrt.c:374-417 | an entry is gone after find_route if and only if the call was to create, asked for an (S,G) and had admissible addresses, the entry is the (*,G) of the group, new, in a group without (S,G), and there is no memory for the (S,G) or its source cannot be had |
| MrtRp.DropSharedTree | src/mrt.c:202-206 | exactly the group's entries on the shared tree go, in one pass over a chain that changes under it, and the group stays |
| MrtRp.KeepWithoutRp | src/mrt.c:180-220 | a group is kept exactly when it has a source tree entry, RP-less, with exactly those; its (*,G) and shared tree entries go; the group kept is never freed |
| MrtRp.Remap | src/rp.c:1043-1074 | a group changes to the RP there is with its entries untouched, or is kept RP-less, or goes; the invariant holds again |
| MrtTable.BothSidesAgree | src/mrt.c:222-603 | in every reachable state group chains and source chains hold exactly the (S,G) entries, each on one chain of its group and one of its source |
| MrtTable.GroupChainOrdered | src/mrt.c:758-850 | a group's chain is strictly ascending, without repetition and linked both ways |
| MrtTable.SourceChainOrdered | src/mrt.c:758-850 | and so is a source's |
| MrtTable.MirrorsOrdered | src/mrt.c:993-1271 | MRTF_KERNEL_CACHE holds exactly when the list is not empty, a list ascends strictly by group and source, and an (S,G) has at most one mirror, of its own pair |
| MrtTable.OneRpChain | src/mrt.c:146-220 | every group is on exactly one chain, that of the mapping it uses or the RP-less list; on the latter it has no (*,G) and no entry on the shared tree |
| MrtTable.NoneLeftEmpty | src/mrt.c:451-603 | no group and no source is left without an entry |
| MrtTable.RoutingTable.constructor | src/mrt.c:69-127 | the empty table satisfies the invariant |
| MrtTable.RoutingTable.Find | src/mrt.c:222-448 | all that find_route promises, of the table and its lists: incoming interface, when nothing is returned and what is lost included |
| MrtTable.RoutingTable.Delete | src/mrt.c:537-603 | delete_mrtentry keeps the invariant, with no empty group or source, and pairs mirrors with kernel calls |
| MrtTable.RoutingTable.DeleteOfGroup | src/mrt.c:489-534 | delete_grpentry likewise |
| MrtTable.RoutingTable.DeleteOfSource | src/mrt.c:451-486 | delete_srcentry likewise |
| MrtTable.RoutingTable.RemapGroup | src/rp.c:1043-1074 | a change of RP likewise |
| MrtTable.RoutingTable.Mirror | src/mrt.c:1103-1183 | add_kernel_cache adds exactly this pair to what is mirrored and leaves the table as it was |
| MrtTable.RoutingTable.Unmirror | src/mrt.c:1045-1096 | delete_single_kernel_cache_addr takes exactly this pair from the entry, with a k_del_mfc if it was there |
| MrtTable.NewWildTaken | src/mrt.c:374-387 | from the empty table, a (*,G) that find_route returned is gone after a find_route for an (S,G) that finds no memory for its source |
| MrtTable.PairReturned | src/mrt.c:370-444 | an (S,G) that exists is what find_route returns for it, memory or none, but where its source has no route and finds none |
| Assert.CompareIsPreferred | src/pim_assert.c:42-63 | the comparison is the order of section 4.6.3 of RFC 7761: RPT bit, preference, metric, higher address |
| Assert.CompareOrders | src/pim_assert.c:42-63 | it is irreflexive, transitive and total between distinct addresses, and any finite metric beats an infinite one |
| Assert.OneMachineMoves | src/pim_assert.c:238-273 | a message that moves the (S,G) machine and still reaches the (*,G) one is an AssertCancel from the router the former lost to |
| Assert.WildOnlyFromNoInfo | src/pim_assert.c:267-273 | the (*,G) machine moves only if the (S,G) machine is in NoInfo after the message |
| Assert.CancelEndsBoth | src/pim_assert.c:75-273 | one AssertCancel from the router both machines lost to returns both to NoInfo, downstream or upstream |
| Assert.AlwaysSafe | src/pim_assert.c:75-176 | on any LAN, over any run with loss, repetition, reordering, timeouts and cancels, a Loser's recorded winner is a router of the LAN, with its own metric, and beats the Loser |
| Assert.BestExists | src/pim_assert.c:42-63 | every LAN of distinct addresses has a best router |
| Assert.BestNeverLoses | src/pim_assert.c:75-176 | the best router is never a Loser |
| Assert.LoserNeverOutgrows | src/pim_proto.c:4121-4142 | with fixed metrics no Loser finds its own metric better than the winner's |
| Assert.SharedTreeIsSilent | src/route.c:1916-1929 | where the best metric for (S,G) has the RPT bit, no router ever asserts for (S,G) |
| Assert.OneWinner | src/pim_assert.c:75-160 | once every other router has had the best router's Assert, with no cancel or timeout after, all have lost to it and only it can be Winner |
| Frame.SendFrame | src/pim.c:518-570 | for every frame, MTU of at least 68 (also changing) and errors: terminates; what leaves are fragments in order whose payloads are the frame's, all but the last with MF and on multiples of eight, none longer than the path takes; it fails only where the socket does, and then what has left is a leading part; only the frame's own bytes change |
| Frame.SecondHeader | src/pim.c:549-556 | the header copy does not overlap its source and leaves the second half whole |
| Frame.FirstPiece | src/pim.c:543-546 | a fragment of the first half is a fragment of the frame |
| Frame.SecondPiece | src/pim.c:549-556 | a fragment of the second half is a fragment of the frame, its offset and MF bit included |
| Frame.EndMarked | src/pim.c:543-556 | a fragment has MF exactly when the payload does not end with it |
| Frame.Reassembles | src/pim.c:518-570 | the fragments, repeated and reordered in any way, reassemble to the original payload and nothing else |
| AutoRp.IsResolved | src/autorp.c:706-739 | an announced prefix passes exactly when it wins its prefix and no shorter prefix of the same RP and sign covers it |
| AutoRp.IsDenied | src/autorp.c:331-356 | a group is denied exactly when some longest matching prefix is negative |
| AutoRp.CoverageKept | src/autorp.c:706-739 | every group some announcement covers is covered by a resolved one, a positive one if nothing is denied |
| AutoRp.VerdictOfMapping | src/autorp.c:331-356 | the verdict over the resolved prefixes is the sign of the longest prefix whose winner rule 3 lets pass |
| AutoRp.VerdictKeptExactly | src/autorp.c:706-739 | a group keeps its verdict exactly when the winner of its longest prefix is not supplanted: no resolved prefix of the other sign covers it from below with every winner between dropped |
| AutoRp.DenyKeptExactly | src/autorp.c:706-739 | all groups keep their verdict if and only if no winner that is the longest match of some group is supplanted |
| AutoRp.DenyKept | src/autorp.c:706-739 | the verdict is kept for all groups when every dropped winner has a same-RP cover with no prefix of the other sign strictly between, nor for a positive one at the cover's length |
| AutoRp.ThreeLevelsDiffer | src/autorp.c:706-739 | three nested prefixes of two valid RPs for which the verdict changes |
| AutoRpWire.ParseNext | src/autorp_parse.c:114-122 | the next prefix of the walk, blocks without one stepped over |
| AutoRpWire.NextYields | src/autorp_parse.c:71-122 | the calls yield the prefixes of the walk one by one |
| AutoRpWire.EndIsStable | src/autorp_parse.c:103-122 | DONE and SHORT, once said, are said for ever |
| AutoRpWire.CutDatagram | src/autorp_parse.c:40-122 | a datagram cut anywhere behind its header says a leading part of what it said whole |
| AutoRpWire.SendMapping | src/autorp.c:746-820 | the message is whole blocks of a leading part of the RPs, as many as fit in 1024 bytes, at most 84; nothing is sent exactly when there is none |
| AutoRpWire.LeadingCounts | src/autorp.c:746-820 | neither the RP count (84) nor a group count (168) can wrap its byte |
| AutoRpWire.FlatOnce | src/autorp.c:763-797 | no prefix is in the message twice |
| AutoRpWire.BlockIs | src/autorp.c:763-797 | each RP has one block, and it is all its resolved prefixes |
| AutoRpWire.MessageBack | src/pim_encode.c:345-373 | decoding a message gives exactly the prefixes of its blocks, in order |
| AutoRpWire.MappingSaysResolved | src/autorp.c:746-820 | decoding what was sent gives the leading blocks, and when all fit exactly the resolved announcements |
| AutoRpMirror.Keep | src/autorp.c:283-322 | the entry of the key is written, added only where it was missing and there is room; keys stay unique |
| AutoRpMirror.AgeList | src/autorp.c:828-859 | every finite holdtime counts down by 5 and goes at 5 or less, in order |
| AutoRpMirror.Unrefreshed | src/autorp.c:828-859 | over any run without a refresh the holdtime left is h - 5n, there exactly while positive, and never becomes the 0 that is for ever |
| AutoRpMirror.GoneAtCeiling | src/autorp.c:828-859 | an unrefreshed holdtime h is gone exactly from tick ceil(h/5) on |
| AutoRpMirror.HeededNames | src/autorp.c:561-575 | a datagram refreshes exactly the keys of the prefixes it names and is believed for |
| AutoRpMirror.Mirror.Live | src/autorp.c:561-575 | over any sequence of datagrams and ticks, in either list, a mapping no later datagram names is there exactly while its holdtime exceeds 5 seconds for each tick, with what is left, and one for ever stays |
| AutoRpMirror.Mirror.constructor | src/autorp.c:254-274 | the two lists start empty |
| AutoRpMirror.RpHold | src/autorp.c:371-387 | a holdtime is for ever in the RP set exactly if it is for ever in Auto-RP, none is 0 there, and none is shortened by more than a second |
| AutoRpMirror.Mirror.Learn | src/autorp.c:389-444 | a mapping is kept under its key, a deny under no RP, if it is there or there is room, and then goes into the RP set unless it is a deny; counter, limit, unique keys and valid RPs hold again |
| AutoRpMirror.Mirror.Announce | src/autorp.c:452-478 | an announcement likewise, a new one at the head, and nothing into the RP set |
| AutoRpMirror.Mirror.Accept | src/autorp.c:561-575 | a datagram is one event for each prefix believed, in order, on the list it is for, and the RP set is given what those events of a mapping message keep |
| AutoRpMirror.Mirror.Age | src/autorp.c:861-864 | both lists age, the counter staying their sum |
| AutoRpMirror.AnnouncementsOk | src/autorp.c:452-478 | what is kept is what resolution is about: masked prefixes of groups, of valid RPs, one for each RP and prefix |
| AutoRpMirror.HoldsThreeLevels | src/autorp.c:452-478 | three announcements make the list whose resolution changes a verdict |
| Privsep.ScanRebuilds | src/privsep.c:613-707 | a scan of at most 4096 records is rebuilt exactly and in order, with nothing left unread |
| Privsep.OverrunReads | src/privsep.c:651-655 | one of more stops the child at the 86th reply, with the others unread |
| Privsep.ScanExactly | src/privsep.c:613-707 | the list is rebuilt exactly when it has at most 4096 records, and else which replies are left |
| Privsep.StaleReads | src/privsep.c:635-655 | what an overrun scan leaves makes a call lose the way and a scan return the tail of the earlier list, or overrun again |
| Privsep.AlwaysExplained | src/privsep.c:169-346 | for any fragmentation and interleaving of calls, scans of any length and logs: both streams carry whole messages, the replies read and to be read are the answers to the requests in order, and every request ended as the replies it read say |
| Privsep.OwnReplies | src/privsep.c:322-346 | in any run, each request that ended has the reply made for it, in order, and the desync branch is not reached, if and only if none of them was a scan of more than 4096 records; an idle child has then left nothing unread |
| Privsep.AfterOverrun | src/privsep.c:334-341 | in any run, once the first scan of more than 4096 records has ended: it overran, the rest of its replies comes before all later answers, the next request desyncs if it is a call that has read a reply, and if it is a scan that has ended it got the tail of the earlier list or overran |
| Privsep.OverrunDesyncs | src/privsep.c:334-341 | for every list of more than 4096 records and every call there is a run from the start that ends in the desync branch |
| Timer.PutInserts | src/timer.c:164-220 | setting a timer inserts its deadline behind every one no later and changes no other |
| Timer.DropRemoves | src/timer.c:234-272 | clearing a timer changes no other deadline |
| Timer.AgeFires | src/timer.c:110-132 | ageing by e fires exactly the deadlines within e, in order, and brings the others that much nearer |
| Timer.AgeTwice | src/timer.c:110-132 | ageing by a and then b is ageing by a + b, in what fires and in what is left |
| Timer.InsertSorted | src/timer.c:164-220 | deadlines stay in order, equal ones first in first out |
| Timer.Callouts.SetMs | src/timer.c:164-220 | the queue of deltas stands for the deadlines with the new one inserted; deltas stay non-negative and add up to at most INT_MAX |
| Timer.Callouts.Clear | src/timer.c:234-272 | and with one removed |
| Timer.Callouts.AgeQueue | src/timer.c:110-132 | and with those fired gone |
| Timer.Callouts.NextDelay | src/timer.c:138-149 | the delay to the earliest deadline |
| Timer.Callouts.NextId | src/timer.c:35-42 | ids are positive and wrap past INT_MAX to 1 |
| Wire.Writer.Put | src/pim_encode.c:59-71 | all the bytes or none, a full writer staying full, and no byte outside what was put changing |
| Wire.PutAll | src/pim_encode.c:59-133 | a run of puts is one put of all of them |
| JoinPrune.ParseMsg | src/pim_parse.c:339-361 | the verdict of the walk at the first thing wrong, and the bounds it has been through are those the second walk visits |
| JoinPrune.WalkInside | src/pim_parse.c:366-394 | every set and source of an accepted message is inside it, IPv4 and with the mask it must have |
| JoinPrune.Encode | src/pim_encode.c:208-240 | the body is written whole or the writer is full, and nothing outside its buffer changes |
| JoinPrune.RoundTrip | src/pim_parse.c:226-394 | a message of 1 to 255 groups with any sources is accepted and read back, group addresses masked |
| Bootstrap.ParseMsg | src/pim_parse.c:480-501 | the verdict of the walk, the number of sets and their bounds |
| Bootstrap.WalkInside | src/pim_parse.c:507-531 | every set and RP record of an accepted message is inside it |
| Bootstrap.Encode | src/pim_encode.c:166-200 | the body is written whole or the writer is full, and nothing outside its buffer changes |
| Bootstrap.ReadsVisible | src/pim_parse.c:402-531 | a message is accepted and read back but for a last range without an RP |
| Bootstrap.RoundTripExactly | src/pim_parse.c:402-531 | it is read back exactly if and only if the last range has an RP |
| Hello.Parse | src/pim_parse.c:180-203 | the verdict and options of the walk, an Address List kept only if it is inside the message, whole and IPv4 |
| Hello.Encode | src/pim_encode.c:249-287 | the options are written whole or the writer is full, as it is for a list too long for its length field |
| Hello.RoundTrip | src/pim_parse.c:58-217 | a Hello with up to 10922 secondary addresses is read back, the T bit clear |
| Jp.LatestIs | src/pim_jp.c:148-180 | the latest deadline is no earlier than any asked for, and one of them |
| Jp.AlwaysOk | src/pim_jp.c:54-82 | over any run the Prune-Pending Timer runs exactly in Prune-Pending, and the Expiry Timer, 0xffff being held, is the latest deadline since NoInfo |
| Jp.RptAlwaysOk | src/pim_jp.c:93-157 | over any run the same of the (S,G,rpt) machine, 0 being held, and no transient state survives the end of a message |
| Jp.JoinEndsPrune | src/pim_jp.c:93-138 | a message with a Join(*,G) leaves NoInfo if and only if no Prune(S,G,rpt) follows in it or a Join(S,G,rpt) comes last; with Prunes and no Join after them a pruned interface is where it was |
| Jp.BitsRoundTrip | src/pim_jp.c:188-237 | a state written into an entry's bits is the state read, and a (*,G) write leaves an (S,G)'s bit alone |
| Cksum.InetCksum | src/inet.c:165-207 | for up to 131072 bytes the accumulator does not wrap and two folds suffice |
| Cksum.CksumOfCksum | src/inet.c:165-207 | writing the checksum into a zeroed even-offset field makes the checksum 0 |
| Inet.MaskKeeps | src/pim_encode.c:110-120 | masking keeps the leading bits, is no increase and is idempotent |

## Left out

- The fields of routing entries that no list depends on: timers, interface bitmaps, upstream routers, metrics, and what `change_interfaces` and `VOIF_COPY` do with them.
- `init_pim_mrt` of a table that is already there, and the AssertCancels `delete_mrtentry` sends.
- The lists of RPs and RP mappings of `src/rp.c`: the set of mappings is fixed, and `rp_grp_match` may answer any of them.
- MrtTable.RoutingTable: operations take and leave records of field maps rather than linked objects, so aliasing is through pointers and not through Dafny references.
- Mrt.DeleteGroup: takes the group off its RP chain before it frees the (*,G), where the source does it after; the two touch no field in common.
- Timer.Callouts.AgeQueue: callbacks leave the queue alone; the data pointers and their freeing are not modelled.
- Privsep: descriptors riding on replies, errors of the sockets, the child running out of memory in a scan, requests for operations that do not exist, and the work the helper does for each operation.
- Frame.SendFrame: the socket refuses by length, fails, or is interrupted finitely often; other fields of the IP header are bytes that are kept.
- Assert: the creation of an (S,G) entry for a Loser state, and an interface that is neither up- nor downstream, which never acts.
- Candidate-RP-Advertisements, Registers, Register-Stops and the Assert message of the codecs: the same reads and writes as the messages modelled.
- Auto-RP sockets, relay, access lists and the election between mapping agents; what the RP set makes of the entries Auto-RP gives it.
- IGMP, configuration, IPC, the unicast routing and the kernel interface.
