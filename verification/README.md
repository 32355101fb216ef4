# Verified model of a publish/subscribe VR server

This project models six parts of the repository in Dafny and proves what they are for.
`dafny verify dfyconfig.toml` checks all of it.

| part | files | what it is |
|---|---|---|
| publish/subscribe tree | `PubSubTree`, `PubSubWeights`, `PubSubLinks`, `PubSubDelivery`, `PubSubTraffic`, `PubSubTermination`, `GlobalServer`, `TwoWayMapping` | a tree of servers as a transition system over all interleavings, and the server objects that take its steps |
| spatial channels | `Text`, `QuadSpaces`, `QuadNeighbours`, `TrackerCells`, `TrackerLevels`, `TrackerJumps`, `Tracker`, `TrackerPublishes` | base-four cell names in JavaScript and Java, the cells around a point, and the tracker that keeps subscriptions up to date |
| MessagePack codec | `Utf8`, `MsgPack`, `MsgPackRoundTrip`, `MsgPackTruncation`, `MsgPackCodec` | the format, the encoder in place, the decoder object and the size calculator |
| hashes | `Sha256Standard`, `Sha256Constants`, `Sha256Example`, `Sha256Streaming`, `HmacPbkdf2`, `Sha256Numbers`, `Sha256MarinJohnson`, `Sha256Veness` | the standards, the streaming hash, HMAC and PBKDF2, and the two other forms of the hash |
| mailbox | `Mailbox` | the queue that schedules itself, and two of them under one monitor |
| timer cache | `TimeoutCache` | the ordered queue of mutable keys beside its map |

How the parts are modelled:

* **The tree.** A node has its two-way index, the messages on their way to and from its parent,
  its tasks and the mail of its clients. A step is one outside call, the run of one queued
  message, one turn of a fan-out loop, or the arrival of one envelope. Runs are arbitrary
  sequences of enabled steps. Copies of a message are counted by weighing every message and
  task (`PubSubWeights`), and the same bookkeeping bounds the number of turns.
  `Global` and `GwemsPubSub` are classes whose methods are proved to take those steps; the run of a
  fan-out is proved to be a run of them.
* **Numbers.** Doubles of positions are reals; `|0`, `>>`, `&` and Java's casts are written out
  for 32 and 64 bits. Words of the hashes are residues modulo 2^32 with bit operations on 32-bit
  vectors; where the program keeps sums unreduced they are integers, and a plus may only be
  written where its result is below 2^53. Bytes and code units of the codec are numbers, and its
  masks are quotients and remainders.
* **Exceptions** are values (`Read`, `Option`, `BadName`).
* **Locks.** A synchronized block is one step (`Mailbox`) or one method (`TimeoutCache`, `RunTimer`).

What was found in the code:

* An agent subscribes to its own key when it is built (`src/org/gwems/agents/Agent.java:45`), and
  the session that fronts a child server is an agent. So a parent holds a record that the child
  never asked for, and a publish on that key comes down to a node with nobody subscribed, which
  the code calls an error. `LinkAgreement` says exactly when records agree, `SessionKeyDisagrees`
  and `SessionKeyComesDown` are runs in which they do not.
* The two-byte mask of the string reader (`WebContent/js/libs/msgpack-js.js:90`) loses bit 0x400,
  so code units 0x400 to 0x7ff come back wrong and different keys can become one
  (`ComesBack`, `KeysCollide`); the writer is right (`WriterIsStandard`). A code point in four bytes
  is read as one code unit, its low 16 bits, never as a pair (`ReaderOfStandard`). A buffer of 2^32
  bytes or more is encoded as an empty object.
* A coordinate in the last two values of the width is written as one that is 2^32, or 2^64, smaller
  (`WidthIsEnough`, `RoundTrip`); names stay unique all the same (`CellNamesAreUnique`).
* Digits of a name are to be from -2 to 1 (`WebContent/js/QuadSpaces.js:66-67`), but any multiple of 2^32 may be
  added to one, and a part that is no number passes (`AcceptedNames`, `LargeDigitIsAccepted`).
* The early exit of the tracker can leave a level without the own cell of the player, beyond the
  32-bit range and, after a visit there, anywhere inside it (`AnywhereIsSound`, `FarAndBack`). `SubscribedMeans` says
  exactly when, for every path of any positions. It never happens on paths of positions for which
  reducing to 32 bits and dividing by four may be exchanged (`OwnCellIsSubscribed`), which all of the
  range are. `JumpIsSound` says which positions can be jumped to from the range, `LeaveIsSound` which
  can be left for the range, both by a condition on the one position; `FarJumps` has one of either kind.
* `listToString` ignores the level it is given (`WebContent/js/QuadSpacesTracker.js:142`), so at a level
  above the smallest that its list has a player publishes on the full list, a name no subscription of
  that level ever holds (`PublishesOnOwnCell`, `ListIsNeverAround`). Such publishes reach only those
  near to the smallest cell, whatever the level was meant for (`PublishIsHeard`,
  `NeighbourIsNotHeard`); at levels past the end of the list the
  channel is the zero cell, which is the own one at steady positions (`SteadyPublishesOnOwnCell`).
* The timer cache hands its `TimedKey` to the map (`src/org/gwems/util/TimeoutCache.java:112`), so
  nothing is ever taken out of it (`FinishCallback`, `Drain`).
* The watcher of the timer cache tests outside the lock, so an entry renewed between the test and the
  pop is popped, its callbacks run before their time, and it is timed no more until it is renewed
  again (`TakeFirst`, `RenewedIsPopped`).
* `pbkdf2` with no rounds makes one (`Pbkdf2`).

## Model

| member | source | states |
|---|---|---|
| PubSubDelivery.ExactlyOnce | src/org/gwems/servers/Global.java:600-712 | from any reachable state, with anything in flight: for a client subscribed to a channel with no Sub or Unsub for it queued on its way up, whatever follows, joins and leaves of all others included, as long as it does not leave itself: messages run since plus copies under way are at all times the copies that were under way plus the publish calls made since; once all is quiet it has run each of them exactly once |
| PubSubDelivery.AtMostOnce | src/org/gwems/servers/Global.java:600-668 | in every reachable state, under any interleaving and any membership changes, a message published k times is run at most k times by each client and crosses each link at most k times, both directions counted together |
| PubSubDelivery.NobodyElse | src/org/gwems/servers/Global.java:616-631 | a client that is not subscribed and has nothing in hand for a channel, and does not subscribe, never runs anything from it in any run |
| PubSubDelivery.StepCopies | src/d/Pub.java:31-37 | one step: copies for a target come into being only by a publish call, one each, and are lost only where the way to the target is not subscribed |
| PubSubDelivery.StepCovers | src/org/gwems/servers/Global.java:600-668 | what any step gives a target and delivers to it against what it takes from it; equal where the whole way is subscribed |
| PubSubDelivery.StartCovers | src/org/gwems/servers/Global.java:616-620 | reading the subscribers loses a copy only if the next agent on the way is missing from the index |
| PubSubDelivery.SendCovers | src/org/gwems/servers/Global.java:617-627 | giving the payload to one agent moves the copy to that agent and leaves none behind |
| PubSubDelivery.PassedOnCovers | src/d/Pub.java:31-37 | a publish run at the parent, leaving out the link it came from, covers every target it covered on the way up, and no other |
| PubSubDelivery.ReceiveCovers | src/d/Pub.java:31-37 | the run of a message of a link neither makes nor loses a copy for any target |
| PubSubDelivery.ArriveCovers | src/org/gwems/servers/GwemsPubSub.java:49-66 | an envelope that has come down carries its copies over to the fan-out of the node |
| PubSubDelivery.PublishCovers | src/org/gwems/servers/Global.java:592-600 | a publish call covers every client and every link of the tree exactly once |
| PubSubDelivery.SubscribedHasRoute | src/org/gwems/servers/Global.java:670-685 | with agreement and no Sub or Unsub for the channel under way, a subscribed client has the next agent towards it subscribed at every node above, and no node there has an Unsub queued |
| PubSubDelivery.RunKeepsRoute | src/org/gwems/servers/Global.java:600-712 | over a whole run in which the client itself does not leave, whatever the others do, its way to the root stays subscribed and copies are conserved |
| PubSubDelivery.StepKeepsHeld | src/org/gwems/servers/Global.java:670-712 | no step but the client leaving takes a subscription off its way to the root: a node on the way never sends an Unsub, since the next agent is still subscribed |
| PubSubDelivery.SubscribeJoins | src/org/gwems/servers/Global.java:670-685 | a subscribe call can be made in any state, and adds exactly the pair of the client and the channel to the relation of its node, whoever else is on the channel already; on the empty channel nothing |
| PubSubDelivery.UnsubscribeLeaves | src/org/gwems/servers/Global.java:687-697 | an unsubscribe call takes exactly the pair of the client and the channel away |
| PubSubDelivery.UnsubscribeAgentLeaves | src/org/gwems/servers/Global.java:699-712 | dropping an agent takes all its pairs away, and no other |
| PubSubDelivery.StepKeepsMember | src/org/gwems/servers/Global.java:670-712 | whatever anyone else does, a subscribed client stays subscribed until its own unsubscribe call or its own drop |
| PubSubLinks.LinkAgreement | src/org/gwems/servers/Global.java:670-712 | in every reachable state, for every link and channel, replaying the queued Sub and Unsub onto the record of the parent gives "the child has a subscriber" if and only if it is not the one exceptional case: the own session key of the link, its session built, no Sub or Unsub for it ever sent |
| PubSubLinks.DrainedRecords | src/org/gwems/servers/Global.java:670-712 | without queued Sub and Unsub the parent has the link on record exactly when a client at or below the child is subscribed, or for an untouched session key of a link at or below it |
| PubSubLinks.SessionKeyDisagrees | src/org/gwems/agents/Agent.java:40-47 | the exceptional case is reachable: two servers, the session just built |
| PubSubLinks.StepKeepsLinks | src/org/gwems/servers/Global.java:670-712 | every step of every server keeps the agreement of every link |
| PubSubLinks.SubscribeKeepsLink | src/org/gwems/servers/Global.java:670-685 | a subscribe call tells the parent of the first subscriber and only of it |
| PubSubLinks.UnsubscribeKeepsLink | src/org/gwems/servers/Global.java:687-697 | an unsubscribe call takes the record back when nobody is left |
| PubSubLinks.UnsubscribeAgentKeepsLink | src/org/gwems/servers/Global.java:699-712 | dropping an agent takes back exactly the records of the channels nobody is left on, in whatever order they are visited |
| PubSubLinks.SendUnsubsReplay | src/org/gwems/servers/Global.java:706-711 | what the loop over the channels of a dropped agent does to the record of one channel |
| PubSubLinks.ReceiveKeepsLink | src/d/Sub.java:29-39 | running the oldest message of a link moves it from the queue into the record |
| PubSubLinks.AcceptKeepsLink | src/org/gwems/agents/Agent.java:40-47 | building the session of a link puts its own key on record |
| PubSubLinks.RecordsOfOthers | src/d/Unsub.java:23-33 | the record of a link changes only by messages of that link |
| PubSubLinks.WantSpreads | src/org/gwems/servers/Global.java:679-682 | a channel wanted at a node, with no Sub or Unsub for it queued between there and the root, is wanted at every node above |
| PubSubTraffic.SameTextEverywhere | src/d/P2C.java:21-33 | at every depth and in every reachable state the text under way for a message is that message serialized |
| PubSubTraffic.ComesDownToSubscribers | src/org/gwems/servers/Global.java:414-418 | after a quiet state, while nobody unsubscribes, a message that has come down to a node finds a subscriber there if and only if its channel is not the session key of the link, or the session is not built yet, or a Sub or Unsub for that key has been sent |
| PubSubTraffic.SessionKeyComesDown | src/org/gwems/servers/Global.java:414-418 | a run of five steps in which a message comes down to a node with nobody subscribed |
| PubSubTraffic.StepKeepsOrder | src/org/gwems/servers/Global.java:402-433 | every step keeps: texts in canonical form, fan-outs only to the own children of a node, nothing queued at the root |
| PubSubTraffic.StepKeepsDownOnRecord | src/org/gwems/servers/Global.java:419-432 | while nobody leaves, everything on its way down a link is on a channel on record for that link |
| PubSubTraffic.MailIsRunOrForwarded | src/org/gwems/servers/Global.java:600-668 | in every reachable state the mail of a client holds a message to run exactly at a server that is not one of the tree, and a text to pass on exactly at one that is |
| PubSubTermination.TurnsAreBounded | src/org/gwems/servers/Global.java:600-668 | between outside calls the servers take at most as many turns as there is work under way |
| PubSubTermination.SomethingToDo | src/org/gwems/servers/Global.java:600-668 | a reachable state that is not quiet has a turn to take |
| PubSubTermination.TurnsRunOut | src/org/gwems/servers/Global.java:600-668 | for any state, however the turns of the servers interleave, without outside calls there are at most so many of them |
| PubSubTermination.ComesToRest | src/org/gwems/servers/Global.java:600-668 | from every reachable state a run of turns alone, of bounded length, ends with nothing in flight anywhere |
| PubSubTermination.PublishesArrive | src/org/gwems/servers/Global.java:600-712 | whatever has happened, as long as a subscribed client has not left, the turns of the servers can finish it, and the client has then run exactly the publishes made and the copies that were under way before |
| PubSubTermination.SubscribersAreServed | src/org/gwems/servers/Global.java:600-712 | from the subscribe call itself, with nothing assumed about who is subscribed: once no Sub or Unsub for the channel is under way above, whatever follows but its own leaving, the turns of the servers can finish the run, and the client has then run each later publish exactly once beside the copies under way before |
| PubSubTermination.SubscribeSettles | src/org/gwems/servers/Global.java:670-685 | after a subscribe call in any reachable state a run of turns alone gets to such a state |
| PubSubTermination.StepSpends | src/org/gwems/servers/Global.java:600-668 | every turn of a server uses up some of the work, a publish that is passed up included |
| PubSubWeights.StepBalance | src/org/gwems/servers/Global.java:600-712 | for any weighing of messages and tasks, the total of the tree changes by what the step takes and gives |
| GlobalServer.Global.Subscribe | src/org/gwems/servers/Global.java:670-685 | the relation of the object grows by exactly the pair, unless the channel is empty; it does to its part of the tree what the subscribe step says, and counts the subscription |
| GlobalServer.Global.Unsubscribe | src/org/gwems/servers/Global.java:687-697 | the relation of the object loses exactly the pair, and it does what the unsubscribe step says |
| GlobalServer.Global.UnsubscribeAgent | src/org/gwems/servers/Global.java:699-712 | the relation of the object loses exactly the pairs of the agent, and it does what the step says for the order in which the channels were visited, which lists exactly the channels of the agent |
| GlobalServer.Global.SubIfFirst | src/org/gwems/servers/Global.java:679-682 | a Sub goes up exactly when nobody is on the channel yet |
| GlobalServer.Global.UnsubIfLast | src/org/gwems/servers/Global.java:693-696 | an Unsub goes up exactly when nobody is left on the channel |
| GlobalServer.Global.Publish | src/org/gwems/servers/Global.java:600-668 | the object adds the fan-out and promotes the message, heeding the excepted agent only in a server of the tree |
| GlobalServer.PublishCallIsTwoSteps | src/org/gwems/servers/Global.java:635-640 | the whole call is the publish step with its promotion done at once |
| GlobalServer.PublishCallVisits | src/org/gwems/servers/Global.java:600-668 | what a publish call leaves to be visited: the agents on the channel, without the excepted one in a server of the tree and with it in any other |
| GlobalServer.Global.Execute | src/d/Pub.java:31-37 | the run methods of Sub, Unsub and Pub at the parent, acting for the session of the link |
| GlobalServer.Global.RunFanOut | src/org/gwems/servers/Global.java:616-631 | every subscriber but the excepted one gets the payload once, at the end of its queue, and no other queue changes; and that is a run of the tree: the start, one send for each target in the order visited, the end |
| GlobalServer.Global.Handle | src/org/gwems/servers/Global.java:395-407 | an envelope that arrives is the arrive step of the tree: it leaves the way down and becomes a task, with the queues of all agents as they were |
| GlobalServer.SendFans | src/org/gwems/servers/Global.java:617-627 | one turn of the loop is one send step: the queue of the agent, or the way down of its link, grows by the payload |
| GlobalServer.GwemsPubSub.Subcribe | src/org/gwems/servers/GwemsPubSub.java:70-75 | one Sub for each channel, in order, behind what was queued |
| GlobalServer.GwemsPubSub.Unsubcribe | src/org/gwems/servers/GwemsPubSub.java:84-89 | one Unsub for each channel, in order |
| TwoWayMappings.TwoWayMapping.Add | src/org/gwems/util/TwoWayMapping.java:110-135 | the relation grows by the pair, both maps stay converses; a null argument leaves an empty row exactly when the row was missing |
| TwoWayMappings.TwoWayMapping.Remove | src/org/gwems/util/TwoWayMapping.java:137-164 | the relation loses the pair and no other, none when an argument is null; the rows of the arguments are not left empty; the orphan names each side whose row is gone |
| TwoWayMappings.TwoWayMapping.RemoveItem | src/org/gwems/util/TwoWayMapping.java:179-189 | exactly the row of the item is deleted, and returned |
| TwoWayMappings.TwoWayMapping.RemoveThing | src/org/gwems/util/TwoWayMapping.java:167-177 | exactly the column of the thing is deleted, and returned |
| TwoWayMappings.TwoWayMapping.Item2ThingsGet | src/org/gwems/util/TwoWayMapping.java:61-64 | the things related to the item |
| TwoWayMappings.TwoWayMapping.Thing2ItemsGet | src/org/gwems/util/TwoWayMapping.java:73-76 | the items related to the thing, although they are read from the other map |
| TwoWayMappings.TwoWayMapping.Item2ThingsKeySet | src/org/gwems/util/TwoWayMapping.java:90-93 | the items that have a thing, and those whose row is empty |
| TwoWayMappings.TwoWayMapping.Thing2ItemsKeySet | src/org/gwems/util/TwoWayMapping.java:85-88 | the things that have an item, and those whose row is empty |
| TwoWayMappings.WithoutPair | src/org/gwems/util/TwoWayMapping.java:141-162 | taking one pair out of a map of sets takes that pair out of its relation and leaves no empty row |
| TwoWayMappings.WithPair | src/org/gwems/util/TwoWayMapping.java:111-134 | adding to both maps keeps them converses |
| QuadSpaces.WidthIsEnough | WebContent/js/QuadSpaces.js:42-62 | for every cell the width holds, the fixed-width loop writes what unbounded arithmetic writes if and only if each coordinate is at most 3 below the end of the width |
| QuadSpaces.RoundTrip | WebContent/js/QuadSpaces.js:107-114 | the corners of the printed levels, parsed back and summed, are the cell times 2^bias if and only if the cell is in that range; for 32 and for 64 bits |
| QuadSpaces.CanonicalListsAreQuads | WebContent/js/QuadSpaces.js:42-62 | the lists that come out are exactly the canonical ones: digits -2 to 1, powers rising by two, no zero level at the end of a longer list |
| QuadSpaces.LengthBound | WebContent/js/QuadSpaces.js:57-60 | at most n levels come out if and only if every coordinate is in [-2(4^n-1)/3, (4^n-1)/3] |
| QuadSpaces.OnesClosed | WebContent/js/QuadSpaces.js:57-60 | the bound of LengthBound in closed form: (4^n-1)/3 |
| QuadSpaces.ValueOfQuads | WebContent/js/QuadSpaces.js:42-62 | the levels add up to the cell |
| QuadSpaces.ValueOfQuadsW | WebContent/js/QuadSpaces.js:42-62 | what the fixed-width loop writes near the upper end is 2^width too small, and exact otherwise |
| QuadSpaces.CellNamesAreUnique | WebContent/js/QuadSpaces.js:148-159 | any two cells of the width have the same string exactly when they are the same cell at the same level, also where the loop wraps |
| QuadSpaces.ListedIsInjective | WebContent/js/QuadSpaces.js:148-159 | different lists of levels are printed differently |
| QuadSpaces.NameIsInjective | WebContent/js/QuadSpaces.js:49 | different levels are printed differently |
| QuadSpaces.ListToString | WebContent/js/QuadSpaces.js:148-159 | the names, if any, joined with a comma and a space, inside brackets |
| QuadSpaces.Decompose | WebContent/js/QuadSpaces.js:32-63 | the JavaScript function returns the names of the levels of the truncated, 32-bit cell of the point |
| QuadSpaces.Loop32 | WebContent/js/QuadSpaces.js:42-61 | the loop over three coordinates, its masks and shifts in 32 bits |
| QuadSpaces.LowBits32 | WebContent/js/QuadSpaces.js:43-55 | one coordinate of one turn: digit and rest |
| QuadSpaces.DecomposeJava | src/org/messageweb/experiments/QuadSpaces.java:129-162 | the Java function does the same in 64 bits, with a saturating conversion |
| QuadSpaces.Loop64 | src/org/messageweb/experiments/QuadSpaces.java:138-160 | the loop in 64 bits |
| QuadSpaces.LowBits64 | src/org/messageweb/experiments/QuadSpaces.java:140-152 | one coordinate of one turn in 64 bits |
| QuadSpaces.TurnOfWidth | WebContent/js/QuadSpaces.js:43-55 | adding two, masking, subtracting and shifting arithmetically is digit and rest of the base-four scheme, wrap-around included |
| QuadSpaces.MinCornerOfLevel | WebContent/js/QuadSpaces.js:74-98 | every printed level is accepted, and its corner is its digits times its power of two |
| QuadSpaces.Reconstitute | WebContent/js/QuadSpaces.js:107-114 | the loop sums the corners of the names |
| QuadSpaces.SumOfLevels | WebContent/js/QuadSpaces.js:107-114 | summing the corners of levels weighs their value with the first power |
| QuadSpaces.PointComesBack | src/org/messageweb/experiments/QuadSpaces.java:112-162 | for every point whose scaled cell is in the range: decomposed, printed, parsed back and summed it comes back cut toward zero to multiples of 2^bias, each coordinate on its own axis: none beyond the point, none as far as 2^bias short of it; for 32 and for 64 bits |
| QuadSpaces.CornerComesBack | src/org/messageweb/experiments/QuadSpaces.java:112-162 | a point of multiples of 2^bias comes back exactly as it was if and only if its cell is in that range |
| QuadSpaces.AcceptedNames | WebContent/js/QuadSpaces.js:74-88 | any string is accepted if and only if it has four parts and each of the first three is a digit from -2 to 1 but for a multiple of 2^32, or no number at all |
| QuadSpaces.AcceptedCorner | WebContent/js/QuadSpaces.js:89-98 | what is accepted gives on each axis its own digit, with the multiple of 2^32, times two to the fourth part |
| QuadSpaces.LargeDigitIsAccepted | WebContent/js/QuadSpaces.js:66-88 | a digit of 2^32 is accepted, although digits must be between -2 and 1 by its own description |
| QuadNeighbours.NeighbourhoodCovered | WebContent/js/QuadSpaces.js:123-145 | a string is returned if and only if it is the name of the cell of a point within three quarters of a cell edge of the position on every axis |
| QuadNeighbours.SurroundingSpaceNames | WebContent/js/QuadSpaces.js:123-145 | the method returns the names around the position at every level of the range |
| QuadNeighbours.BoxNames | WebContent/js/QuadSpaces.js:127-142 | the three nested sampling loops return the names of the cells of 27 points |
| QuadNeighbours.RowNames | WebContent/js/QuadSpaces.js:133-140 | the innermost loop visits exactly three points |
| QuadNeighbours.TruncNear | WebContent/js/QuadSpaces.js:128-137 | a number within three quarters of another truncates like one of three samples |
| QuadNeighbours.OwnCellIsAround | WebContent/js/QuadSpaces.js:123-145 | the own cell of the position is among the names |
| TrackerLevels.OwnCellIsSubscribed | WebContent/js/QuadSpacesTracker.js:132-159 | after any sequence of positions for which reducing to 32 bits and dividing by four may be exchanged at every level, which all of the 32-bit range are and many beyond it, each of the six levels is subscribed to the own current cell of the player, although every update stops at its first unchanged level |
| TrackerLevels.SubscribedMeans | WebContent/js/QuadSpacesTracker.js:132-159 | after any path of any positions a level is subscribed to the own cell of the player if and only if that cell is among those around the position where the level was last refreshed, which is where the player last came to one with another smallest cell than the one before it, not counting pairs whose lists are both too short for the level |
| TrackerLevels.PairIsSubscribed | WebContent/js/QuadSpacesTracker.js:132-159 | of any two positions: the second finds the level subscribed to its own cell if and only if it is not alike the first at the level, or its cell is among those around the first |
| TrackerLevels.PairsAreEnough | WebContent/js/QuadSpacesTracker.js:132-159 | a path of positions each of which is good to come from is good to come from |
| TrackerLevels.UpdateKeepsUpToDate | WebContent/js/QuadSpacesTracker.js:136-159 | one update leaves every level as refreshed at the last position on the path that was not alike the one before it; for every position |
| TrackerLevels.KeptLevelIsAlike | WebContent/js/QuadSpacesTracker.js:139-159 | an update stops at or before a level if and only if the new position is alike the one before at that level |
| TrackerLevels.FirstUpdate | WebContent/js/QuadSpacesTracker.js:135 | the first update refreshes every level |
| TrackerJumps.JumpIsSound | WebContent/js/QuadSpacesTracker.js:132-159 | for every position and level: after all paths in the 32-bit range the update leaves the level subscribed to the own cell of the player if and only if the reduced cell of the level is the reduced smallest cell divided by four, or, where the list reaches the level, is on every axis within three quarters of an edge of the corner of the smallest cell |
| TrackerJumps.FarJumps | WebContent/js/QuadSpacesTracker.js:132-159 | beyond the range both happen: 2^34 on one axis is not safe at the second level, 2^44 is safe at all levels |
| TrackerJumps.LeaveIsSound | WebContent/js/QuadSpacesTracker.js:132-159 | for every position and level: after a visit there the player is subscribed to the own cell wherever in the 32-bit range it goes if and only if one of the 27 samples around the position has as its reduced cell the reduced smallest cell divided by four |
| TrackerJumps.PathLeaveIsSound | WebContent/js/QuadSpacesTracker.js:132-159 | the same after any path of such positions |
| TrackerJumps.InsideIsSafeToLeave | WebContent/js/QuadSpacesTracker.js:132-159 | all positions of the range are safe to leave |
| TrackerJumps.FarAndBack | WebContent/js/QuadSpacesTracker.js:132-159 | from 2^34 on one axis back to the origin: a player well inside the range, where every jump from the range is safe, is left without its own cell at the second level |
| TrackerJumps.AnywhereIsSound | WebContent/js/QuadSpacesTracker.js:132-159 | for every position: after all paths without any bound the level is subscribed to the own cell if and only if it is the smallest; for every other there is a position wrong to come from |
| TrackerJumps.JumpAxis | WebContent/js/QuadSpaces.js:32-36 | reducing a coordinate to 32 bits before dividing it toward zero by four, sixteen, ...: a result that is one off the other order is one further from zero |
| TrackerJumps.KeptIsAround | WebContent/js/QuadSpacesTracker.js:146-152 | from every point of the smallest cell the sampling reaches a cell within three quarters of an edge of its corner |
| TrackerJumps.AroundCornerIsKept | WebContent/js/QuadSpacesTracker.js:146-152 | from the corner of the smallest cell it reaches, of the cells a jump can end in, no other |
| TrackerPublishes.PublishIsHeard | WebContent/js/QuadSpacesTracker.js:139-186 | a publish of a player at a level is heard by another, after any path, if and only if: where the list of the first has the level, its smallest cell is within three quarters of a smallest edge of where the smallest level of the other was refreshed; else the zero cell of the level is as near to where that level was |
| TrackerPublishes.PublishesOnOwnCell | WebContent/js/QuadSpacesTracker.js:139-145 | for every position: the publish channel of a level is the name of the cell of that level if and only if it is the smallest level, or the list is too short for it and the cell is zero |
| TrackerPublishes.SteadyPublishesOnOwnCell | WebContent/js/QuadSpacesTracker.js:139-145 | for a steady position: if and only if it is the smallest level or the list is too short for it |
| TrackerPublishes.ListIsNeverAround | WebContent/js/QuadSpacesTracker.js:139-153 | at a larger level that the list has, the publish channel is one that the level is never subscribed to, at any two positions |
| TrackerPublishes.ZeroIsNear | WebContent/js/QuadSpacesTracker.js:144-153 | in the range the zero cell of a larger level is near exactly if each coordinate is less than seven quarters of an edge from zero |
| TrackerPublishes.NeighbourIsNotHeard | WebContent/js/QuadSpacesTracker.js:132-186 | two players twelve metres apart: the cell of one at the second level is among those the other is subscribed to, and its publish at that level is not heard |
| TrackerCells.ChannelsTell | WebContent/js/QuadSpacesTracker.js:139-146 | publish channels of two positions at a level are equal if and only if their smallest cells are equal or both lists are too short for the level; for every two positions |
| TrackerCells.ListIsNotZeroChannel | WebContent/js/QuadSpacesTracker.js:141-145 | the full list of a level that has one is never the stand-in for a level that has none |
| TrackerCells.ShortListMeansZero | WebContent/js/QuadSpacesTracker.js:141-145 | for every position a list no longer than the level number means that the smallest cell divided to that level is zero |
| TrackerCells.NextLevelCell | WebContent/js/QuadSpacesTracker.js:153 | truncations compose: the cell of the next level is the cell divided by four toward zero |
| TrackerCells.InsideIsSteady | WebContent/js/QuadSpacesTracker.js:132-153 | in the whole 32-bit range nothing is reduced, so reducing and dividing may be exchanged |
| Trackers.ServerHoldsAllSpaces | WebContent/js/QuadSpacesTracker.js:146-162 | after any run of updates the subscriptions at the server are exactly the union of the channels of the six levels |
| Trackers.BatchesAreExact | WebContent/js/QuadSpacesTracker.js:146-162 | unsubscribing the old channels of the changed levels and then subscribing their new ones turns one union into the other |
| Trackers.LevelsNeverCollide | WebContent/js/QuadSpacesTracker.js:153-157 | a name of a cell of one level is never a name of a cell of another |
| Trackers.UpdateKeepsServer | WebContent/js/QuadSpacesTracker.js:146-162 | one update keeps the set at the server equal to the union of the channels of the levels |
| Trackers.Tracker.constructor | WebContent/js/QuadSpacesTracker.js:36-51 | six levels, from 2 up by 2, none named or subscribed, all due at the same time, their intervals 200, 400, 800, 1600, 3200 and 6400 |
| Trackers.Tracker.Update | WebContent/js/QuadSpacesTracker.js:113-188 | with the socket open the levels become the updated ones, the messages sent have exactly the effect of the two batches on any set at the server, and end with one publish for each level that was due, on the channel it has now, and no other publish; those levels, and no others, are due one interval later; with the socket closed nothing is sent and nothing changes |
| Trackers.Tracker.Relevel | WebContent/js/QuadSpacesTracker.js:136-159 | the loop with its break refreshes the levels below the first unchanged one and collects their old and new channels |
| Trackers.Tracker.RefreshLevel | WebContent/js/QuadSpacesTracker.js:146-157 | one level takes its new channel and the cells around the position, the others stay |
| Trackers.Tracker.ChannelOf | WebContent/js/QuadSpacesTracker.js:139-145 | the publish channel of a level as the program computes it |
| Trackers.Tracker.SendDue | WebContent/js/QuadSpacesTracker.js:174-187 | the levels that are due, and no others, publish on their channels in order and are rescheduled |
| Trackers.DueInOrder | WebContent/js/QuadSpacesTracker.js:174-187 | the publishes that are due are one for each level whose time has come, in the order of the levels, each on the own channel of its level |
| Trackers.FollowPath | WebContent/js/QuadSpacesTracker.js:113-188 | a new tracker that follows any path with its socket open ends with every level subscribed to the own cell of the player, if the positions were steady, with the server holding exactly the channels of the levels, and with the publishes of all updates, in order, sent among the other messages and every level rescheduled by them |
| Trackers.UnsubscribeAll | WebContent/js/GWEMS.js:166-171 | one unsubscribe message for each key and no other message: together they remove exactly the keys at the server |
| Trackers.SubscribeAll | WebContent/js/GWEMS.js:157-163 | one subscribe message for each key and no other message: together they add exactly the keys at the server |
| MsgPackRoundTrips.RoundTrip | WebContent/js/libs/msgpack-js.js:193-331 | for every encodable value, at any offset of any larger buffer: parsing its encoding gives the mangled value and stops exactly behind it |
| MsgPackRoundTrips.ComesBack | WebContent/js/libs/msgpack-js.js:325-331 | decoding an encoding gives the value itself if and only if no string or key holds a code unit from 0x400 to 0x7ff and no buffer has 2^32 bytes or more |
| MsgPackRoundTrips.DecodeOfEncode | WebContent/js/libs/msgpack-js.js:325-331 | decoding an encoding never fails and never reports trailing bytes |
| MsgPackRoundTrips.KeysCollide | WebContent/js/libs/msgpack-js.js:167-174 | two different keys of an object that come back as one, with the entry of the first lost |
| MsgPackRoundTrips.PrefixFree | WebContent/js/libs/msgpack-js.js:333-503 | of two clean values neither encoding is a beginning of the other |
| MsgPackRoundTrips.HeadThere | WebContent/js/libs/msgpack-js.js:193-323 | every type byte and length that is written is read back |
| MsgPackRoundTrips.IntThere | WebContent/js/libs/msgpack-js.js:215-282 | every 32-bit integer comes back from the shortest of its forms |
| MsgPackRoundTrips.LengthThere | WebContent/js/libs/msgpack-js.js:227-311 | lengths come back from their three forms |
| MsgPackRoundTrips.StrThere | WebContent/js/libs/msgpack-js.js:181-185 | a string comes back with the losses of the mask |
| MsgPackRoundTrips.CleanComesBack | WebContent/js/libs/msgpack-js.js:193-324 | a clean value is not mangled |
| MsgPackRoundTrips.BackIsClean | WebContent/js/libs/msgpack-js.js:193-324 | a value that is not mangled is clean, in every nested part |
| MsgPackRoundTrips.InsertedLength | WebContent/js/libs/msgpack-js.js:167-174 | putting decoded entries into an object either appends them all or loses one |
| MsgPackRoundTrips.InsertUpdates | WebContent/js/libs/msgpack-js.js:167-174 | a key that is there already keeps its place and takes the new value |
| MsgPackRoundTrips.TrailingBytesAreReported | WebContent/js/libs/msgpack-js.js:325-331 | bytes behind an encoding are an exception that gives their number |
| MsgPackRoundTrips.IntegerForms | WebContent/js/libs/msgpack-js.js:215-282 | what the reader makes of every form of an integer, written or not: one byte, and one, two and four bytes behind their type, big-endian, with and without sign |
| MsgPackRoundTrips.OtherLeaves | WebContent/js/libs/msgpack-js.js:215-323 | and of null, undefined, the booleans, singles and doubles |
| MsgPackRoundTrips.LengthForms | WebContent/js/libs/msgpack-js.js:194-311 | and of the lengths of strings, buffers, arrays and objects, short or long |
| MsgPackRoundTrips.NoOtherForms | WebContent/js/libs/msgpack-js.js:193-324 | every other type byte is an exception that names it |
| MsgPackRoundTrips.IntIsShortest | WebContent/js/libs/msgpack-js.js:379-438 | an integer is written in the shortest form there is for it |
| MsgPackTruncation.CutOffIsRefused | WebContent/js/libs/msgpack-js.js:145-331 | no proper beginning of an encoding, wherever in whatever nested part it ends, decodes to anything: the reader always runs past the end of the buffer |
| MsgPackTruncation.ValueBreaks | WebContent/js/libs/msgpack-js.js:193-324 | the same for an encoding that begins anywhere in a buffer that ends inside it |
| MsgPackTruncation.TextBreaks | WebContent/js/libs/msgpack-js.js:78-117 | a text cut off anywhere, inside a code unit or between two, is not read |
| MsgPackTruncation.HeadBreaks | WebContent/js/libs/msgpack-js.js:193-323 | nor is a type byte without all of its number or length |
| MsgPackTruncation.SelfDelimiting | WebContent/js/libs/msgpack-js.js:145-331 | of any two values, clean or not, no encoding is a proper beginning of the other |
| MsgPackCodec.Encode | WebContent/js/libs/msgpack-js.js:333-503 | the number returned is the size, the encoding stands at the offset, and every other byte of the buffer is unchanged |
| MsgPackCodec.SizeOf | WebContent/js/libs/msgpack-js.js:505-596 | the size is that of the encoding; an exception comes exactly for the values that have none |
| MsgPackCodec.EncodeToBuffer | WebContent/js/libs/msgpack-js.js:145-150 | the buffer has exactly the computed size and holds the encoding from end to end |
| MsgPackCodec.EncodeInt | WebContent/js/libs/msgpack-js.js:379-438 | integers are written in place in the shortest form |
| MsgPackCodec.EncodeBuffer | WebContent/js/libs/msgpack-js.js:361-377 | buffers are written in place; one too long falls through to the objects and is written without keys |
| MsgPackCodec.EncodeItems | WebContent/js/libs/msgpack-js.js:487-491 | the loop over an array writes the encodings one behind the other |
| MsgPackCodec.EncodeEntries | WebContent/js/libs/msgpack-js.js:492-498 | the loop over an object writes keys and values alternately |
| MsgPackCodec.WriteLength | WebContent/js/libs/msgpack-js.js:472-485 | the header of a container, a string or a buffer |
| MsgPackCodec.Decoder.Parse | WebContent/js/libs/msgpack-js.js:193-324 | the object returns the value that stands at its offset, or the exception, and moves its offset behind it |
| MsgPackCodec.Decoder.ParseHead | WebContent/js/libs/msgpack-js.js:194-324 | the dispatch on the type byte, branch by branch |
| MsgPackCodec.Decoder.GetMap | WebContent/js/libs/msgpack-js.js:167-174 | the loop that fills an object |
| MsgPackCodec.Decoder.GetArray | WebContent/js/libs/msgpack-js.js:186-192 | the loop that fills an array |
| MsgPackCodec.Decoder.GetBuf | WebContent/js/libs/msgpack-js.js:175-180 | a copy of the bytes, or an exception when they run past the buffer |
| MsgPackCodec.Decoder.Raw | WebContent/js/libs/msgpack-js.js:181-185 | a string of the given number of bytes |
| MsgPackCodec.DecodeBuffer | WebContent/js/libs/msgpack-js.js:325-331 | the whole buffer is one value, or an exception says how many bytes trail |
| Utf8.TextRoundTrip | WebContent/js/libs/msgpack-js.js:78-117 | an encoded text is read back wherever it stands, but for bit 0x400 of two-byte code units |
| Utf8.CleanTexts | WebContent/js/libs/msgpack-js.js:88-93 | a text comes back as it was if and only if it has no code unit from 0x400 to 0x7ff |
| Utf8.UnitRoundTrip | WebContent/js/libs/msgpack-js.js:45-63 | one code unit there and back through its one, two or three bytes |
| Utf8.WriterIsStandard | WebContent/js/libs/msgpack-js.js:45-63 | the writer is not to blame: by the payload bits of section 3 of RFC 3629 its bytes stand for the code unit, in the shortest form |
| Utf8.ReaderOfStandard | WebContent/js/libs/msgpack-js.js:78-117 | what the reader makes of each code point in standard text, four bytes long or shorter: always one code unit, the low 16 bits, without bit 0x400 below 0x800; so beyond 0xffff never the pair it should be |
| Utf8.Write | WebContent/js/libs/msgpack-js.js:39-75 | the bytes of the text in place, everything else unchanged |
| Utf8.ByteCount | WebContent/js/libs/msgpack-js.js:120-143 | the count is the number of bytes written |
| Utf8.ReadText | WebContent/js/libs/msgpack-js.js:78-117 | the reading loop, malformed input and reads past the end of the text included |
| Utf8.ReadUnit | WebContent/js/libs/msgpack-js.js:81-114 | one turn of the reading loop, with its exceptions |
| Sha256Streaming.Sha256.Update | WebContent/js/SHA256_Chestnykh.js:125-147 | whatever the split, the object stands for the whole message so far: the fold of the compression over its whole blocks and its last bytes in the buffer |
| Sha256Streaming.Sha256.Finish | WebContent/js/SHA256_Chestnykh.js:149-177 | the first 32 bytes of the array become the hash of the message under the padding of section 5.1.1 of FIPS 180-4; the other bytes stay |
| Sha256Streaming.Sha256Of | WebContent/js/SHA256_Chestnykh.js:226-230 | the hash of the bytes, in a new array |
| Sha256Streaming.Sha256.Reset | WebContent/js/SHA256_Chestnykh.js:105-116 | the object stands for the empty message |
| Sha256Streaming.Sha256.Clean | WebContent/js/SHA256_Chestnykh.js:118-123 | buffers are zero and the object stands for the empty message |
| Sha256Streaming.Sha256.FillBuffer | WebContent/js/SHA256_Chestnykh.js:128-137 | bytes complete the buffered block first, and a full block is folded |
| Sha256Streaming.Sha256.TakeBlocks | WebContent/js/SHA256_Chestnykh.js:138-141 | whole blocks are folded without going through the buffer |
| Sha256Streaming.Sha256.PadBuffer | WebContent/js/SHA256_Chestnykh.js:150-166 | the padding is written behind the buffered bytes, in one block or two |
| Sha256Streaming.Blocks | WebContent/js/SHA256_Chestnykh.js:35-94 | all whole blocks of the range are folded into the state, and the position behind them is returned |
| Sha256Streaming.OneBlock | WebContent/js/SHA256_Chestnykh.js:38-91 | one block: the compression of section 6.2.2 of FIPS 180-4, in place |
| Sha256Streaming.ReducedRound | WebContent/js/SHA256_Chestnykh.js:63-79 | a round with every sum reduced is the round of the standard |
| Sha256Streaming.Extend | WebContent/js/SHA256_Chestnykh.js:53-61 | the schedule, with its sums grouped in pairs, is the schedule of the standard |
| Sha256Streaming.AbsorbPadding | WebContent/js/SHA256_Chestnykh.js:157-168 | padding the buffered tail and folding it ends in the hash of the whole message |
| Sha256Standard.PaddingIsStandard | WebContent/js/SHA256_Chestnykh.js:154-158 | the zero bytes are the fewest that leave 64 bits of the last block |
| Sha256Standard.LengthIsExact | WebContent/js/SHA256_Chestnykh.js:152-153 | the two words of the length are the length in bits of every message the standard admits |
| Sha256Standard.FoldConcat | WebContent/js/SHA256_Chestnykh.js:35-94 | folding may stop and go on at any block boundary |
| Sha256Constants.FirstPrimes | WebContent/js/SHA256_Chestnykh.js:19-33 | the 64 primes the constants are made from are all primes from 2 on, in order, with none left out |
| Sha256Constants.RoundConstantsAreCubeRoots | WebContent/js/SHA256_Chestnykh.js:19-33 | each round constant is the first 32 bits of the fraction of the cube root of its prime, as section 4.2.2 of FIPS 180-4 has it |
| Sha256Constants.InitialValueIsSquareRoots | WebContent/js/SHA256_Chestnykh.js:105-113 | each word of the initial value is the first 32 bits of the fraction of the square root of its prime, as section 5.3.3 has it |
| Sha256Example.HashOfAbc | WebContent/js/SHA256_Chestnykh.js:226-230 | through padding, schedule and all 64 rounds the hash of the bytes of abc is the published one, the one-block example of the standard |
| Macs.HMAC.constructor | WebContent/js/SHA256_Chestnykh.js:179-198 | for every key length the new object is ready for text under that key |
| Macs.HMAC.Reset | WebContent/js/SHA256_Chestnykh.js:200-207 | a used object becomes like a new one with the same key |
| Macs.HMAC.Update | WebContent/js/SHA256_Chestnykh.js:215-218 | the text grows by the bytes given |
| Macs.HMAC.Finish | WebContent/js/SHA256_Chestnykh.js:220-224 | the function of section 2 of RFC 2104, also when the array is the one the text came from |
| Macs.PadOfKey | WebContent/js/SHA256_Chestnykh.js:180-184 | the key as one block: hashed if longer than one, filled with zeros |
| Macs.TurnPad | WebContent/js/SHA256_Chestnykh.js:189 | turning the inner pad gives the outer pad |
| Macs.HmacOf | WebContent/js/SHA256_Chestnykh.js:232-236 | the keyed hash of a message, in a new array |
| Macs.Pbkdf2 | WebContent/js/SHA256_Chestnykh.js:238-268 | for every password, salt, round count and length the key of section 5.2 of RFC 8018, no rounds counting as one |
| Macs.OneBlockOfKey | WebContent/js/SHA256_Chestnykh.js:247-261 | one block: the exclusive or of as many keyed hashes as there are rounds |
| Macs.NextU | WebContent/js/SHA256_Chestnykh.js:258-259 | the next keyed hash, with input and output in one array |
| Macs.FirstU | WebContent/js/SHA256_Chestnykh.js:247-255 | the first keyed hash of a block, from the salt and the big-endian counter |
| Macs.PutBlock | WebContent/js/SHA256_Chestnykh.js:262 | as much of a block as the key still has room for |
| Macs.HmacMeans | WebContent/js/SHA256_Chestnykh.js:179-224 | the hash of the outer pad and the hash of the inner pad and the text, the pads given byte by byte |
| Macs.DerivedByteMeans | WebContent/js/SHA256_Chestnykh.js:238-268 | each byte of a derived key is the exclusive or of one byte of each hash of a chain that begins with the salt and the number of the block, as long as there are rounds |
| Sha256MarinJohnson.Sha256.Update | WebContent/js/SHA256_MarinJohnson.js:88-132 | one block with one reduction at the end is the compression of the standard, every plus on the way being exact in a double |
| Sha256MarinJohnson.Turn | WebContent/js/SHA256_MarinJohnson.js:103-119 | one turn without reduction: no intermediate reaches 2^53, and the residues are those of the round of the standard |
| Sha256MarinJohnson.CalcW | WebContent/js/SHA256_MarinJohnson.js:102 | the unreduced word of the schedule, every plus exact |
| Sha256MarinJohnson.LargestBounds | WebContent/js/SHA256_MarinJohnson.js:121-122 | after 64 turns the variables are below 1618870 times 2^31 |
| Sha256MarinJohnson.EndResidues | WebContent/js/SHA256_MarinJohnson.js:124-131 | the closing additions |
| Sha256MarinJohnson.Sha256.Init | WebContent/js/SHA256_MarinJohnson.js:43-54 | the initial hash value |
| Sha256MarinJohnson.Sha256.Digest | WebContent/js/SHA256_MarinJohnson.js:134-147 | the eight numbers as bytes |
| Sha256Numbers.RoundResidue | WebContent/js/SHA256_MarinJohnson.js:103-119 | the residues of a round on numbers, reduced or not, are the round of the residues |
| Sha256Numbers.NextWord | WebContent/js/SHA256_MarinJohnson.js:102 | the residue of an unreduced schedule word is the word of the standard |
| Sha256Veness.HashOf | WebContent/js/SHA256_veness.js:31-113 | the one-shot hash of a byte string is the hash of the standard, and so that of the streaming object |
| Sha256Veness.Preprocess | WebContent/js/SHA256_veness.js:45-64 | the message, its one bit, the zeros and its length, cut into words |
| Sha256Veness.CountIsExact | WebContent/js/SHA256_veness.js:48-49 | the block count by division of reals is that of the padded message |
| Sha256Veness.MainLoop | WebContent/js/SHA256_veness.js:89-100 | the 64 rounds, two variables cut to 32 bits in each |
| Sha256Veness.Schedule | WebContent/js/SHA256_veness.js:73-76 | the message schedule |
| Mailbox.MailboxIsCorrect | src/org/gwems/util/RunnablesQueue.java:36-73 | in every reachable state: the flag is up exactly while one runner is scheduled or looping; a message in the queue has a runner coming; messages run, the one in hand and the queue are what was submitted, in order |
| Mailbox.EverythingRuns | src/org/gwems/util/RunnablesQueue.java:50-73 | no wake-up is lost: from any such state the runner alone finishes everything submitted, in order, in exactly as many steps as there is work |
| Mailbox.RunWorks | src/org/gwems/util/RunnablesQueue.java:61-73 | without new messages the runner takes exactly as many steps as it has work |
| Mailbox.RunnablesQueue.Run | src/org/gwems/util/RunnablesQueue.java:36-44 | the object does the submit step, and the pool gets the runner the step adds |
| Mailbox.RunnablesQueue.HasMore | src/org/gwems/util/RunnablesQueue.java:50-57 | the object does the poll step |
| Mailbox.RunnablesQueue.RunLoop | src/org/gwems/util/RunnablesQueue.java:61-72 | the loop runs what is queued, in order, and leaves the queue idle |
| Mailbox.SessionIsSerial | src/org/gwems/agents/SessionAgent.java:98-143 | in every reachable state of a session at most one message executes over both queues, each queue keeps its own order, and the count is that of the socket messages begun |
| Mailbox.SessionGoesOn | src/org/gwems/agents/SessionAgent.java:98-143 | the two queues never block each other for good |
| Mailbox.SessionStepWorks | src/org/gwems/agents/SessionAgent.java:98-143 | every step of either runner uses up one unit of their common work |
| Mailbox.SessionAgent.RunSocketMessage | src/org/gwems/agents/SessionAgent.java:98-112 | the time to live is renewed at most once in ten seconds, whatever the stream of messages |
| TimeoutCaches.TimeoutCache.OneEntryEach | src/org/gwems/util/TimeoutCache.java:40-48 | there is at most one entry for each key, and it is the one the map holds |
| TimeoutCaches.TimeoutCache.Put | src/org/gwems/util/TimeoutCache.java:178-199 | the key is queued once, at its new time with its new callbacks, by the same object if it was known; all else is as it was |
| TimeoutCaches.TimeoutCache.SetTtl | src/org/gwems/util/TimeoutCache.java:216-228 | a known key is queued once at its new time with its callbacks, popped or not; an unknown one changes nothing |
| TimeoutCaches.TimeoutCache.Remove | src/org/gwems/util/TimeoutCache.java:236-247 | a known key is queued as due without callbacks and stays in the map |
| TimeoutCaches.TimeoutCache.Poll | src/org/gwems/util/TimeoutCache.java:84-92 | the earliest entry goes if it is due; otherwise every entry is later |
| TimeoutCaches.TimeoutCache.Drain | src/org/gwems/util/TimeoutCache.java:84-92 | with nothing coming in between exactly the due entries go, in order, and every entry left is later |
| TimeoutCaches.TimeoutCache.FinishCallback | src/org/gwems/util/TimeoutCache.java:110-113 | the map keeps its entry, because the object handed to it is not its string key |
| TimeoutCaches.TimeoutCache.PollAndRenew | src/org/gwems/util/TimeoutCache.java:97-114 | a callback that renews its own key leaves one entry of it, at the new time |
| TimeoutCaches.TimeoutCache.TreeAdd | src/org/gwems/util/TimeoutCache.java:40-48 | an entry goes to its place in the order |
| TimeoutCaches.TimeoutCache.TreeRemove | src/org/gwems/util/TimeoutCache.java:40-48 | the entry that compares as equal goes |
| TimeoutCaches.TimeoutCache.PopIsPaid | src/org/gwems/util/TimeoutCache.java:87 | a pop spends what a put, renewal or removal paid |
| TimeoutCaches.TimeoutCache.Test | src/org/gwems/util/TimeoutCache.java:84 | the test of the watcher says whether any entry is due, although it looks at the first only |
| TimeoutCaches.TimeoutCache.PollFirst | src/org/gwems/util/TimeoutCache.java:86-92 | the pop takes the earliest entry, due or not, and nothing else changes |
| TimeoutCaches.RunTimer.Interleave | src/org/gwems/util/TimeoutCache.java:83-247 | after any interleaving the map holds for each key the value of its last put and the time and callbacks of its last put, renewal or removal, and each key was put into the queue exactly once for each of those that found it known or made it so; after any interleaving of puts, renewals, removals, tests, pops and the two locked blocks of each callback job the queue is strictly sorted, each entry and each job holds the own timed key of the cache, no key was popped more often than put in, no key has left the map, no timed key has changed its key, and a passed test still finds something to pop |
| TimeoutCaches.RunTimer.Do | src/org/gwems/util/TimeoutCache.java:83-247 | one atomic action of any thread has its full effect: a put, renewal or removal queues its key at its new time with its callbacks, and gives nothing for an unknown key but a put; a test, a pop, a copy of callbacks and an end of a job do what Look, TakeFirst, TakeRunList and EndJob do; only the entry of the key named is given a new time or callbacks |
| TimeoutCaches.RunTimer.TakeFirst | src/org/gwems/util/TimeoutCache.java:86-96 | the pop after a passed test takes an entry that is due if and only if some entry is still due by then |
| TimeoutCaches.RunTimer.Look | src/org/gwems/util/TimeoutCache.java:84 | the test outside the lock is remembered exactly if an entry is due, unless one is remembered already |
| TimeoutCaches.RunTimer.TakeRunList | src/org/gwems/util/TimeoutCache.java:101-104 | the first locked block copies the callbacks the key has at that time |
| TimeoutCaches.RunTimer.EndJob | src/org/gwems/util/TimeoutCache.java:108-113 | the second one ends the job, and the map keeps its entry |
| TimeoutCaches.RunTimer.RenewedIsPopped | src/org/gwems/util/TimeoutCache.java:84-92 | a renewal between the test and the pop: the entry just given another second is popped at once and is in the queue no more |
| TimeoutCaches.StrLessMeans | src/org/gwems/util/TimeoutCache.java:47 | keys that expire together are ordered by the first character in which they differ, or by length |
| TimeoutCaches.LastPutCounts | src/org/gwems/util/TimeoutCache.java:178-247 | after any list of calls a key has the value of the last put of it; without one it is known, with its value, exactly if it was before |

## Left out

Assumptions of the tree:

- `subscribe`, `unsubscribe` and `unsubscribeAgent` are atomic; the code reads and then changes the index without one common lock (`src/org/gwems/servers/Global.java:679-684`).
- Queues of a link are in order and lossless, although the client offers with a time limit (`src/org/gwems/servers/impl/WsClientImpl.java:336`); sessions of links do not time out and links do not reconnect.
- The agents of an inner server are its own clients and the sessions of its children; keys of agents are unique, so an agent is identified by its key.
- A server with children is a server of the tree: the parent of a link has `isPubSub` set (`src/org/gwems/servers/Global.java:114`, false unless it is set); a parent without it would not leave out the link a publish came from.
- Servers are numbered so that a parent comes before its children; that is how a tree of any shape can be numbered.
- Serializing and deserializing are an inverse pair; JSON, Netty, WebSocket, Redis, DynamoDB, servlets and the script engines are not modelled.
- PubSubDelivery.ExactlyOnce: says nothing of the order in which publishes arrive, because every fan-out goes to a thread pool. For a client that leaves in the middle of a run, and for one whose Sub is still under way, AtMostOnce is what holds.
- PubSubTraffic.ComesDownToSubscribers: runs with unsubscribe calls are left out; there a message may rightly come down after its last subscriber has left.
- A null channel or agent in `unsubscribe`, and a null channel as distinct from an empty one, which the code treats alike in `publish` and `subscribe`.

Spatial channels:

- Rounding of doubles, not-a-number and infinities: positions are exact reals.
- TrackerJumps.JumpIsSound: the path before the jump stays in the 32-bit range, because without a bound no position but for the smallest level would be safe, see AnywhereIsSound; for all other paths SubscribedMeans and PairsAreEnough hold.
- Trackers.Tracker.Update: velocities and the movement of other avatars are left out.
- Trackers.Tracker.SendDue: the payload of the messages, position and velocity of the player, is left out.
- QuadSpaces.MinCorner: leading white space, hexadecimal numbers and other forms that `parseInt` takes but the program never prints.
- An odd bias in Java is an assertion there; here a bias is any integer. `getMinMax`, `listToStringOffset`, the Java form of `surroundingSpaceNames`, which has the same loops, and the maps of the tracker that nobody reads are not modelled.
- The messages that come in to the tracker, and its scene.

Codec:

- MsgPackCodec.Decoder.GetMap: a key that is not a string is an error here; the program would convert it to one, which for numbers, arrays and objects is JavaScript's own conversion. The encoder writes only string keys.
- MsgPackCodec.Decoder.Parse: the same, for the objects inside a value.
- MsgPackCodec.DecodeBuffer: the same, for the whole buffer.
- The order in which JavaScript lists integer-like keys, and `__proto__` as a key: an object is the list of its entries in the order they are visited.
- Doubles and singles are opaque bytes; a double whose value is a 32-bit integer, minus zero and not-a-number are not told apart.
- The four-byte form of UTF-8 is read but never written, because the writer sees 16-bit units only.

Hashes:

- Sha256Veness.HashOf: the conversion of the text to bytes before the hash, and the hexadecimal output after it, are left out.
- Sha256Streaming.Sha256.Finish: lengths of 2^61 bytes and more, where the standard defines nothing, are taken modulo 2^64 bits as the program does; that a JavaScript number stops being exact at 2^53 is not modelled there.
- The base class of the Marin/Johnson hash, `./hash`, is not part of this model; only its compression and output are.

Mailbox and timer cache:

- A message that throws an error, which ends its runner with the flag up, and a pool that rejects a runner.
- Messages that re-enter the monitor of their own session.
- Overflow of times in the comparator, and the clock: the time is a parameter of every call.
- Mailbox.RunnablesQueue.RunLoop: messages submitted while the loop runs are left out of this contract; MailboxIsCorrect and EverythingRuns cover them.
- Mailbox.SessionAgent.RunSocketMessage: the run of the message itself, inside the monitor, is left out; SessionIsSerial has it as a step.
- TimeoutCaches.TimeoutCache.Poll: the test and the pop with nothing in between, as Drain takes them; RunTimer has them apart.
- TimeoutCaches.TimeoutCache.PollAndRenew: nothing else comes between the pop and the callback.
- A put between a pop and the copy of its callbacks replaces them; nothing is claimed of which callbacks run then but that they are those of the key at that time.

Not modelled at all: HTTP handlers, avatars, controls and the other user interface code, the other experiments (`HexOctTrees`, `ScanStringHash`), and the tests.
