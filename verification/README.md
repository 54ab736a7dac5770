# Corosync quorum device: a verified model

An even cluster that splits in two cannot decide by itself which half goes on. Corosync's
quorum device gives one more vote to one half: every node runs `corosync-qdevice`, which
reports its view of the cluster to a common server, `corosync-qnetd`, and casts the vote the
server grants it. This project models that system in Dafny and proves what it is for.

* **The 50:50 split algorithm on the server.** `Ffsplit` and `FfsplitVotes` are the decision
  and the voting as functions of the server's client list; `FfsplitServer` is the same
  algorithm with loops over client objects that are changed in place, proved against these
  functions. About the functions: `FfsplitSelection` (the fold over the clients picks a
  lexicographic maximum), `FfsplitRules` (which half that is, in numbers of clients and their
  heuristics results), `FfsplitTheorems` (order, keep-active tie-breaker, the assertion that
  can fail), `FfsplitReplies` (what is answered at once), `FfsplitStability` (what a stable
  membership is), `FfsplitTwoPhase` (NACKs are answered before ACKs leave, over every run) and
  `FfsplitProgress` (a decision runs to its end); `FfsplitRuns` has two concrete runs.
* **The voting side of a node.** `Qdevice` is the node as a function from state and event to
  state and messages; `QdeviceNet` is the same node with callbacks that change one instance,
  with every vote it casts recorded; `QdeviceReports` is what the server has been told.
* **The whole system.** `System` puts one server, any number of nodes and a FIFO channel in
  each direction of every connection together, with connections that are lost, half-noticed
  and opened again. `SystemInvariant`, `Peers`, `PeerAnswers`, `NodeSteps`, `ServerSteps` and
  `ConnectionSteps` build the invariant, and `NoSplitBrain` draws the conclusion: in every
  reachable state all nodes that vote ACK are in one list chosen by one decision. `SystemRuns`
  shows that there are such states: any partition of at least half of the nodes comes to vote.
  `SystemRefusals` is about nodes that lose their connection.
* **Last man standing.** `Lms` has the loops that group, score and compare the partitions, and
  the agreement of the separate evaluations each client causes; `LmsRules` says who wins and
  who is held back in terms of what the clients have reported.
* **Heuristics.** `Heuristics` is the request protocol between the main process and its worker
  as a state machine over two pipes of lines, `HeuristicsStream` the same over pipes of text
  that reads cut at any place, and the two reach the same; `HeuristicsProcesses` are the two
  ends as objects, `HeuristicsLines` the lines, `ProcessList` the worker's process list for any
  answers of the operating system. `HeuristicsAnswers` shows that every request is answered.
* **Codecs.** `MsgIo` and `MsgFrames` frame messages on a stream, `Dynar` is the bounded growable
  buffer with the quoting printer, `SimpleLex` the lexer and the command parser, `LexWords` the
  grammar it reads, `NodeList` the equality of node lists.

Where the code and its documentation differ, the model follows the code, and a lemma says how
they differ: `Lms.NominatedAsPromisedIff`, `Lms.NominatedNeighbourRefused`, `Lms.LargestNeedNotBeBest`,
`Lms.WinnerHasTopScoreIff`. Where the code itself does less than one would expect, the exact
condition is proved, and where it matters a run that gets there: `FfsplitTheorems.AssertionFailsIff`
and `FfsplitRuns.AssertionReached`, `FfsplitProgress.ReplyKeepsProgressIff` and
`FfsplitRuns.SelectedButNeverAcked`, `Heuristics.ArrivedIff` and `HeuristicsRuns.AnotherCommandPasses`,
`MsgIo.EmptyRefusedMessage`, `SimpleLex.QuoteRoundTrip`, `HeuristicsLines.EntryRoundTrip`.

Nothing was executed; every statement below is proved for all inputs, runs and schedules.

## Model

| member | source | states |
|---|---|---|
| `NoSplitBrain.NoSplitBrain` | qdevices/qnetd-algo-ffsplit.c:646-916 | In every state reachable by any interleaving of server, nodes, channels and lost connections, all nodes that cast ACK are in one list chosen by one decision, poll with the ring id its reporter had and have sent that id last; the list has at least half of the configured nodes |
| `NoSplitBrain.VotersAgree` | qdevices/qdevice-net-cast-vote-timer.c:41-95 | Two nodes that cast ACK at the same time are in the list of the last decision that released ACKs, and both poll with the ring id of its reporter |
| `NoSplitBrain.StepKeeps` | qdevices/qdevice-net-algo-ffsplit.c:183-292 | The system invariant is kept by every step: a local event, a connect, a received message, a dropped connection, a served message, a noticed disconnect |
| `SystemRuns.PartitionComesToVote` | qdevices/qnetd-algo-ffsplit.c:647-711 | From any initial state, for any nodes that share a ring id, a configuration and a member list of at least half of it: a run after which every one of them casts ACK |
| `SystemRuns.OneTurn` | qdevices/qdevice-net-heuristics.c:182-305 | One node connects, is accepted, reports its lists and receives its vote: it casts ACK then, and the nodes before it still do |
| `SystemRuns.AllFitDecides` | qdevices/qnetd-algo-ffsplit.c:565-711 | When all clients report one partition of at least half, the decision does not wait and does not fail: every client is sent one ACK with the ring id it has reported, and nobody a NACK |
| `NodeSteps.HappensKeeps` | qdevices/qdevice-model-net.c:549-693 | A membership change, heuristics result or configuration change at one node keeps the system invariant |
| `NodeSteps.ReceivesKeeps` | qdevices/qdevice-net-msg-received.c:704-780 | A message received by a node, including a NACK it ignores for its old ring id and still answers, keeps the system invariant |
| `NodeSteps.DropsKeeps` | qdevices/qdevice-net-algo-ffsplit.c:280-292 | A node that loses its connection at any moment, with any prefix of its messages still under way, keeps the system invariant |
| `NodeSteps.ConnectsKeeps` | qdevices/qdevice-net-send.c:98-139 | A node that connects again while the server has not noticed the old connection's end keeps the system invariant |
| `ServerSteps.ServeClientKeeps` | qdevices/qnetd-client-msg-received.c:670-887 | Every message of an accepted client, with the votes and the reply it causes, keeps the system invariant |
| `ServerSteps.VoteReplyKeeps` | qdevices/qnetd-algo-ffsplit.c:868-916 | A vote reply, current or old, keeps the system invariant; the last current answer to a NACK releases ACKs only for the decided list |
| `ConnectionSteps.ServesNewKeeps` | qdevices/qnetd-client-msg-received.c:309-518 | A message on a connection without a client (an init message, refused or accepted, or anything else) keeps the system invariant |
| `ConnectionSteps.NoticesKeeps` | qdevices/qnetd-instance.c:145-163 | The server noticing a lost connection, and the decision this makes, keeps the system invariant |
| `PeerAnswers.DecidedPeer` | qdevices/qnetd-algo-ffsplit.c:532-613 | After a decision a node is outside the granted list only if nothing that will reach it makes it vote ACK, or a NACK for it is under way |
| `PeerAnswers.ReplyPeer` | qdevices/qnetd-algo-ffsplit.c:868-916 | A current answer to a NACK means that its sender does not vote ACK and that no message under way makes it |
| `Peers.HotIsReported` | qdevices/qdevice-net-send.c:239-294 | A node that votes ACK, or has an ACK under way that it will accept, has the ring id stored at the server that it sent last |
| `Qdevice.AckComesFromServer` | qdevices/qdevice-model-net.c:549-693 | Against any server and over any run: a node that casts ACK polls with the ring id it sent last, has received a message with that vote and that ring id, and since then neither its membership changed nor its connection ended |
| `Qdevice.AckHasOrigin` | qdevices/qdevice-net-algo-ffsplit.c:183-277 | Every stored ACK, cast or paused, has such a message in the node's past, through pause, heuristics wait, disconnect and reconnect |
| `Qdevice.StepKeepsDeviceInv` | qdevices/qdevice-net-cast-vote-timer.c:98-191 | Every event keeps: ACK only on an established connection, an unpaused established node has reported its current ring id, the timer runs exactly for ACK and NACK |
| `Qdevice.EndingCastsNack` | qdevices/qdevice-net-algo-ffsplit.c:279-292 | The connection ends exactly by a disconnect, an error, a refused init or an unexpected message, and the node then casts NACK |
| `Qdevice.LostConnectionMeansNack` | qdevices/qdevice-net-algo-ffsplit.c:279-292 | Over every run: from the end of a connection until the next one is established the node says NACK, and casts it whenever it is not paused |
| `Qdevice.PauseIsForMembership` | qdevices/qdevice-model-net.c:549-693 | Over every run the node is paused exactly from a membership change until its heuristics result or the end of the connection |
| `Qdevice.ResultsAreAwaitedOnce` | qdevices/qdevice-net-heuristics.c:63-305 | Over every run the membership's heuristics result is awaited from a membership change, and the connection's from an accepted init, until it comes |
| `QdeviceReports.EverythingIsReported` | qdevices/qdevice-net-send.c:171-391 | Over every run: while the connection is established the server has been told the present option, configuration, heuristics result and, unless its heuristics result is awaited, membership; every vote that has arrived has been answered once, in order, with its own number |
| `SystemRefusals.LostNodeRefuses` | qdevices/qdevice-net-algo-ffsplit.c:279-292 | In every run of the whole system a node whose connection has ended says NACK, whatever happens anywhere, until it is established again |
| `SystemRefusals.LosingCloses` | qdevices/qdevice-model-net.c:248-394 | A dropped connection, and every received message that ends it, closes the node's connection and leaves the node casting NACK |
| `QdeviceNet.Net.CastVoteTimerCallback` | qdevices/qdevice-net-cast-vote-timer.c:41-95 | A paused timer casts nothing, otherwise exactly the stored vote is cast with the poll ring id; no vote but ACK or NACK is met when it fires |
| `QdeviceNet.Net.CastVoteTimerUpdate` | qdevices/qdevice-net-cast-vote-timer.c:98-176 | The new vote is stored and cast at once unless paused; waiting stops the timer; "no change" changes nothing |
| `QdeviceNet.Net.VotequorumNodeListNotify` | qdevices/qdevice-model-net.c:634-693 | A new membership pauses the timer and, without a connection, turns ACK into NACK before that; it casts no ACK of the old membership for the new ring |
| `QdeviceNet.Net.VotequorumHeuristicsResult` | qdevices/qdevice-model-net.c:550-631 | The membership is reported with its ring id, that id becomes the last sent one, the timer is unpaused and the vote is withdrawn until a new one arrives |
| `QdeviceNet.Net.ConfigNodeListChanged` | qdevices/qdevice-model-net.c:405-463 | A configuration change is reported when connected, otherwise an ACK becomes NACK; any ACK cast is for the last sent ring id |
| `QdeviceNet.Net.VotequorumQuorumNotify` | qdevices/qdevice-model-net.c:485-547 | A quorum change is reported when connected, otherwise an ACK becomes NACK |
| `QdeviceNet.Net.ConnectHeuristicsResult` | qdevices/qdevice-net-heuristics.c:182-305 | After the accepted init everything is sent in order, the ring id sent is remembered and no vote is cast before the server's answer; a late result on another connection state sends nothing |
| `QdeviceNet.Net.RegularHeuristicsResult` | qdevices/qdevice-net-heuristics.c:63-179 | Only a changed result is reported; the vote stays as it is and nothing is cast |
| `QdeviceNet.Net.SendInit` | qdevices/qdevice-net-send.c:98-139 | The init message carries the current ring id, which becomes the last sent one |
| `QdeviceNet.Net.Disconnected` | qdevices/qdevice-model-net.c:248-394 | A lost connection unpauses the timer, stores NACK and casts it at once; nothing is sent |
| `QdeviceNet.Net.MessageReceived` | qdevices/qdevice-net-msg-received.c:218-854 | Every message has the effect of its function on the state; an error, a refusal or an unexpected message casts a NACK at once, a vote for the ring id sent last is cast at once when it is ACK or NACK and the timer is not paused, anything else casts nothing |
| `QdeviceNet.Net.VoteArrived` | qdevices/qdevice-net-algo-ffsplit.c:196-277 | A vote is taken over exactly when it carries the ring id sent last |
| `FfsplitTheorems.NothingSelectedIff` | qdevices/qnetd-algo-ffsplit.c:473-527 | Nothing is selected exactly when no remaining client reports at least half of the nodes (more than half of an odd number), whether or not lists overlap or leave the configuration; and with every configuration known the selection never fails its assertion |
| `FfsplitSelection.SelectIsLexicographicMaximum` | qdevices/qnetd-algo-ffsplit.c:337-527 | With lists that are equal or disjoint parts of the configuration, the selected list belongs to a greatest key of (majority, or score, active clients, previously quorate, preferred node), and all greatest keys report the same nodes |
| `FfsplitSelection.CompareFollowsKeys` | qdevices/qnetd-algo-ffsplit.c:338-466 | The comparison, which is not antisymmetric, never prefers a smaller key and never rejects a greater one, and its assertion holds |
| `FfsplitSelection.EqualKeysSamePartition` | qdevices/qnetd-algo-ffsplit.c:107-157 | Two lists with equal keys have the same nodes: the preferred node is in one of two complementary halves |
| `FfsplitSelection.SizesOfTwo` | qdevices/qnetd-algo-ffsplit.c:359-375 | Of two reported lists that reach half, either they are the same nodes or they are complementary halves; a majority has no rival |
| `FfsplitSelection.NeverAMinority` | qdevices/qnetd-algo-ffsplit.c:473-527 | Whatever the clients have stored, the selected list has at least half of the configured nodes, more than half when their number is odd |
| `FfsplitSelection.ScoreNeverWraps` | qdevices/qnetd-algo-ffsplit.c:403-404 | The unsigned score, whose inner difference may wrap, is active + pass - fail as an integer |
| `FfsplitRules.CountsAreNumbers` | qdevices/qnetd-algo-ffsplit.c:296-331 | The three counts are the numbers of connected members of the list, of those whose heuristics passed and of those whose heuristics failed, with the reporter's own new result |
| `FfsplitRules.BetterHalfIsSelected` | qdevices/qnetd-algo-ffsplit.c:338-470 | A half is selected, in any order of the clients, when it beats every other: by connected plus passed less failed members, then by connected members, then, if everybody keeps the active partition, by the last decision, then by the lowest, highest or nominated node |
| `FfsplitRules.HigherStandingIsSelected` | qdevices/qnetd-algo-ffsplit.c:324-441 | The half with more connected plus passed less failed members is selected against every tie-breaker |
| `FfsplitRules.MajorityIsSelected` | qdevices/qnetd-algo-ffsplit.c:353-375 | A list of more than half is selected whatever anybody reports about heuristics |
| `FfsplitTheorems.SelectionIgnoresOrder` | qdevices/qnetd-algo-ffsplit.c:473-527 | The selected partition is the same for every order of the same clients |
| `FfsplitTheorems.KeepActivePartition` | qdevices/qnetd-algo-ffsplit.c:422-439 | With keep-active on everywhere and two halves tied on score and active clients, the only half with a remaining client of the previous quorate list is selected, whatever order and tie-breaker |
| `FfsplitTheorems.AssertionFailsIff` | qdevices/qnetd-algo-ffsplit.c:107-157 | On a stable membership the assertion on the config list fails exactly when the first remaining client has sent neither list and the tie-breaker is lowest or highest |
| `FfsplitRuns.AssertionReached` | qdevices/qnetd-algo-ffsplit.c:832-855 | A run from the empty cluster that gets there: two clients connect and the one with the lower node id disconnects before the other has sent a list |
| `FfsplitStability.StableIff` | qdevices/qnetd-algo-ffsplit.c:159-293 | The membership is stable exactly when all remaining clients have set-equal configurations and any two that see each other have the same ring id and set-equal lists |
| `FfsplitStability.TogetherIsEquivalence` | qdevices/qnetd-algo-ffsplit.c:159-293 | On a stable membership "is in my list" is reflexive, symmetric and transitive on the reporting clients, and who is in a reported list has reported |
| `FfsplitStability.SelectedShareRing` | qdevices/qnetd-algo-ffsplit.c:219-290 | Every connected member of a reported list has the ring id of its reporter |
| `FfsplitTwoPhase.TwoPhaseHandshake` | qdevices/qnetd-algo-ffsplit.c:692-710 | Over every event sequence: in the ACK phase no client waits for the answer to a NACK, and an ACK leaves only when every still connected client this decision refused has answered with its current number, as seen by an outside observer |
| `FfsplitTwoPhase.EventKeepsInv` | qdevices/qnetd-algo-ffsplit.c:646-916 | Each event keeps the agreement between the server's states and the observer's record of unanswered NACKs |
| `FfsplitTwoPhase.DoShape` | qdevices/qnetd-algo-ffsplit.c:647-715 | A decision sends every remaining client at most one vote, with the next number, NACKs before ACKs; a call that does not decide sends nothing |
| `FfsplitTwoPhase.ReplyShape` | qdevices/qnetd-algo-ffsplit.c:869-916 | A reply with an old number changes nothing; a current one frees its sender, and exactly the last answer to a NACK sends one ACK to every client waiting for it |
| `FfsplitTwoPhase.InsertKeepsSorted` | qdevices/qnetd-cluster-list.c:77-122 | The client list stays sorted by node id without repetition, and a join adds exactly the newcomer |
| `FfsplitProgress.DecisionRunsToItsEnd` | qdevices/qnetd-algo-ffsplit.c:646-916 | From the event that decides, in whatever order the answers come, exactly as many answers as sending clients are needed; then each selected client has been sent one ACK, each other client one NACK, and the cluster waits for the next change |
| `FfsplitProgress.DecisionCompletes` | qdevices/qnetd-algo-ffsplit.c:868-916 | Each owed answer takes the decision one step nearer to its end, and it is finished exactly when none is owed |
| `FfsplitProgress.ReplyAdvances` | qdevices/qnetd-algo-ffsplit.c:868-916 | One owed answer lowers the number of clients in a sending state by one and keeps the record of votes right |
| `FfsplitProgress.ReplyKeepsProgressIff` | qdevices/qnetd-algo-ffsplit.c:868-916 | A reply with the current number leaves a decision on its way unless its sender waits for an ACK not yet sent; in that case, a late reply to an earlier vote, the client loses its ACK |
| `FfsplitRuns.RunHistory` | qdevices/qnetd-algo-ffsplit.c:646-916 | Ten events from the empty cluster with every state in between: two clients report one partition and are sent ACK 1, then split, node 1 is selected, and the late answer to the old ACK arrives |
| `FfsplitRuns.SelectedButNeverAcked` | qdevices/qnetd-algo-ffsplit.c:868-916 | In that run the decision for node 1 is over and the cluster waits for a change, although since the decision no vote has been sent to node 1, the only selected node |
| `FfsplitProgress.SomebodyOwes` | qdevices/qnetd-algo-ffsplit.c:621-644 | A decision that is not finished has a client that owes an answer: it cannot get stuck |
| `FfsplitVotes.CheckNewClient` | qdevices/qnetd-client-msg-received.c:269-306 | A client is accepted exactly when its node id is new and its tie-breaker is everybody's |
| `FfsplitReplies.ReportAnswered` | qdevices/qnetd-algo-ffsplit.c:718-815 | A list without its sender is an error and changes nothing; until both lists are there the client is told to ask later, on an unstable membership to wait, and nobody is sent a vote; on a stable one the server decides and the reply leaves the vote alone |
| `FfsplitReplies.JoinAnswered` | qdevices/qnetd-algo-ffsplit.c:72-105 | Exactly a client with a new id and the common tie-breaker joins, with no lists, number 0 and waiting; nobody else notices |
| `FfsplitReplies.LastClientLeaves` | qdevices/qnetd-algo-ffsplit.c:832-855 | When the last client leaves, nobody is selected and the next cluster starts from nothing |
| `FfsplitServer.Cluster.IsMembershipStable` | qdevices/qnetd-algo-ffsplit.c:160-293 | The two nested loops return true exactly for a stable membership |
| `FfsplitServer.Cluster.PartitionIsStable` | qdevices/qnetd-algo-ffsplit.c:219-290 | The inner loop returns true exactly when client i agrees with every connected client in its list |
| `FfsplitServer.Cluster.ConfigsAreStable` | qdevices/qnetd-algo-ffsplit.c:172-217 | True exactly when every remaining client's configuration is contained in every other's |
| `FfsplitServer.Cluster.PartitionStats` | qdevices/qnetd-algo-ffsplit.c:296-331 | The loop computes the counts of `FfsplitRules.CountsAreNumbers`, for any list and with the new result of the reporter |
| `FfsplitServer.Cluster.IsPreferredPartition` | qdevices/qnetd-algo-ffsplit.c:107-157 | The loops find the least, greatest or nominated id and say whether it is a member; an empty config list is the failed assertion |
| `FfsplitServer.Cluster.PartitionCmp` | qdevices/qnetd-algo-ffsplit.c:338-466 | The branches compute the comparison that `CompareFollowsKeys` relates to keys, with zero figures for "no best yet" |
| `FfsplitServer.Cluster.PartitionScore` | qdevices/qnetd-algo-ffsplit.c:403-404 | For the counts of any partition the 64-bit unsigned computation, although its inner difference may wrap, gives the integer active + pass - fail, which is at least the number of passes |
| `FfsplitServer.Cluster.SelectPartition` | qdevices/qnetd-algo-ffsplit.c:473-527 | The selection loop computes the fold that is proved to be the maximum, or stops at a failed assertion |
| `FfsplitServer.Cluster.UpdateNodesState` | qdevices/qnetd-algo-ffsplit.c:533-555 | In place: members wait for ACK, other remaining clients for NACK, the leaver for nothing; no message is queued |
| `FfsplitServer.Cluster.SendVotesRound` | qdevices/qnetd-algo-ffsplit.c:565-613 | In place: exactly the addressed clients get one vote with the next number and the ring id to send, and the count is zero exactly when there is none |
| `FfsplitServer.Cluster.NoClientsSending` | qdevices/qnetd-algo-ffsplit.c:621-644 | True exactly when no client is in the given state |
| `FfsplitServer.Cluster.SendVotesNow` | qdevices/qnetd-algo-ffsplit.c:692-710 | NACKs first; the ACK round at once exactly when there is nobody to refuse; every queue grows by exactly its vote |
| `FfsplitServer.Cluster.Run` | qdevices/qnetd-algo-ffsplit.c:647-715 | The whole decision on objects leaves the state, the queues and the vote that `TwoPhaseHandshake` and `DecisionRunsToItsEnd` are about |
| `FfsplitServer.Cluster.ConfigListReceived` | qdevices/qnetd-algo-ffsplit.c:718-758 | A configuration list without its sender is refused; otherwise the decision is made on the new list and the stored one replaced afterwards |
| `FfsplitServer.Cluster.MembershipListReceived` | qdevices/qnetd-algo-ffsplit.c:775-815 | A membership list without its sender is refused; ring id, list and heuristics are stored only after the decision that used them |
| `FfsplitServer.Cluster.HeuristicsChanged` | qdevices/qnetd-algo-ffsplit.c:919-939 | The new result is passed to the decision and stored after it; without both lists the answer is "ask later" |
| `FfsplitServer.Cluster.VoteInfoReplyReceived` | qdevices/qnetd-algo-ffsplit.c:869-916 | Old numbers are ignored; a current reply has the effect of `ReplyReceived` on states and queues |
| `FfsplitServer.Cluster.ClientDisconnected` | qdevices/qnetd-algo-ffsplit.c:832-855 | The decision is made without the leaver while its record is still in the list, then the record goes; the last one takes the cluster data along |
| `FfsplitServer.Cluster.MayJoin` | qdevices/qnetd-client-msg-received.c:269-306 | The loop returns the first objection in list order, tie-breaker before node id |
| `FfsplitServer.Cluster.InsertSorted` | qdevices/qnetd-cluster-list.c:77-122 | The record is put where the list stays sorted by node id |
| `FfsplitServer.Cluster.ClientInit` | qdevices/qnetd-algo-ffsplit.c:72-104 | A newcomer starts without lists, waiting, with number 0; a refused one leaves the list as it was |
| `FfsplitServer.Cluster.FindClient` | qdevices/qnetd-cluster.c:84-95 | The first client with the node id, or none |
| `Lms.ExactlyOneWins` | qdevices/qnetd-algo-lms.c:133-277 | On every snapshot with the lowest or highest tie-breaker there is exactly one winning ring id |
| `Lms.VoteAgrees` | qdevices/qnetd-algo-lms.c:66-277 | Each client's own evaluation gives ACK only to the winner, and exactly to the winner unless its ring ids do not match or it is held back as a newcomer |
| `LmsRules.VoteTable` | qdevices/qnetd-algo-lms.c:66-277 | The vote and the stored result by what the clients have reported: "wait" when a related client reports another ring id; an unsaved NACK for a client without a result while another ring holds an ACK; otherwise ACK exactly for the ring id that deserves it, else NACK |
| `LmsRules.WinsIff` | qdevices/qnetd-algo-lms.c:133-277 | The winner is the ring id with the best standing when it is alone, else the largest group when it is alone, else the group of the lowest or highest connected id; standing and size are numbers of clients |
| `LmsRules.SumsAreNumbers` | qdevices/qnetd-algo-utils.c:110-148 | Size and score of a partition are the number of its clients, and that number plus the passed less the failed heuristics |
| `LmsRules.NewcomersHeldBack` | qdevices/qnetd-algo-lms.c:114-131 | At any point of any round, while a client with another ring id holds an ACK, a client without a result is refused and stays without one, or is told to wait |
| `LmsRules.ActivePartitionFirst` | qdevices/qnetd-algo-lms.c:114-131 | In a round no newcomer is told ACK before the active clients of another ring have been evaluated |
| `Lms.RoundAgrees` | qdevices/qnetd-algo-lms.c:66-277 | Without newcomers and with matching ring ids, a round in any order, each result stored before the next, ends with ACK exactly for the clients of the one winner |
| `Lms.RoundAcksOneRing` | qdevices/qnetd-algo-lms.c:114-131 | With newcomers and failed checks too, whoever is told ACK at any point of a round has the one winning ring id |
| `Lms.WinnerIgnoresOrder` | qdevices/qnetd-algo-lms.c:133-277 | The winner is the same for every order of the client list |
| `Lms.NominatedOnlyItself` | qdevices/qnetd-algo-lms.c:248-273 | On a complete tie with a nominated node, a client whose ring ids match and that is not held back gets ACK exactly when it is the nominated node itself |
| `Lms.NominatedAsPromisedIff` | man/corosync-qdevice.8:202-214 | On a complete tie exactly the clients of the nominated node's partition get ACK, as promised, if and only if that node is alone in its partition |
| `Lms.NominatedNeighbourRefused` | man/corosync-qdevice.8:202-214 | An input of two halves where the nominated node gets ACK and its neighbour NACK |
| `Lms.LargestNeedNotBeBest` | man/corosync-qdevice.8:325-342 | An input where two partitions tie for the best score and a third, larger one with score 0 wins |
| `Lms.WinnerHasTopScoreIff` | qdevices/qnetd-algo-lms.c:174-209 | The winner has the best score exactly when a best partition has it alone, or the partition that decides next (the largest of all, else that of the tie-breaker node) has the same score |
| `Lms.TopScoreOfTwo` | man/corosync-qdevice.8:325-342 | In a split into two partitions the winner always has the best score |
| `Lms.CreatePartitions` | qdevices/qnetd-algo-utils.c:110-148 | One entry per ring id, node counts that sum to the clients with a ring id, each score its group's, between 0 and twice its nodes |
| `Lms.FindPartition` | qdevices/qnetd-algo-utils.c:96-107 | The entry of the ring id, or none when there is none |
| `Lms.AllRingIdsMatch` | qdevices/qnetd-algo-utils.c:49-93 | True exactly when no other client that is in our list, or has us in its list, reports another ring id |
| `Lms.FindLeader` | qdevices/qnetd-algo-lms.c:133-209 | The position of the first greatest value, and whether another entry ties with it |
| `Lms.FindTieBreakerNode` | qdevices/qnetd-algo-lms.c:210-259 | The loop finds the node that `TieBreakerIsNamed` identifies |
| `Lms.TieBreakerIsNamed` | qdevices/qnetd-algo-lms.c:210-259 | The node found is the connected client with the least (greatest) id, with its ring id |
| `Lms.IsBlocked` | qdevices/qnetd-algo-lms.c:114-131 | The loop says whether a client without a result meets another ring's stored ACK, which `LmsRules.NewcomersHeldBack` gives its meaning |
| `Lms.Elect` | qdevices/qnetd-algo-lms.c:133-277 | Over the partition list: the one best score, else the one largest of all partitions, else the tie-breaker |
| `Lms.LmsInfo.DoLms` | qdevices/qnetd-algo-lms.c:66-277 | The vote and the stored result of one evaluation (a newcomer's NACK is not stored), with an empty partition list on every exit |
| `Heuristics.ResultsAreHonest` | qdevices/qdevice-heuristics.c:175-228 | Over every run with list changes, cancellations and timeouts: results are used at most once, in the order of the requests, and each was for the request that was the latest when it was used. Each verdict was what the commands deserved that the main process's list of that moment arrives as: PASS when one process for every command had been run for this request and had exited with 0, FAIL when one had exited otherwise, the time had run out or a command could not be started, "disabled" when there was none; the list arrives as it is exactly when each of its entries can be sent as it is |
| `HeuristicsAnswers.AwaitedIsSomewhere` | qdevices/qdevice-heuristics-worker.c:157-281 | Over every run, while the main process waits and the worker has not stopped, exactly one holds: the request is under way, the worker runs it, or exactly one result for it is under way |
| `HeuristicsAnswers.RunningEndsWithResult` | qdevices/qdevice-heuristics-worker.c:157-281 | Whatever ends the running of the awaited request, a verdict or the timeout, puts its one result under way |
| `HeuristicsAnswers.AnswerCanCome` | qdevices/qdevice-heuristics-worker.c:157-178 | From any state in which a result is awaited, reading what is under way and letting the time run out ends the waiting, unless the worker stops at a line it cannot parse |
| `HeuristicsAnswers.EmptyPipesMeanRunning` | qdevices/qdevice-heuristics-io.c:77-110 | Over text cut at any place: with nothing under way in either direction the worker runs the awaited request |
| `HeuristicsStream.ResultsAreHonest` | qdevices/qdevice-heuristics-io.c:77-110 | The same over pipes that carry text, whatever part of it each read takes |
| `HeuristicsStream.CutPipesAreLines` | qdevices/qdevice-heuristics-worker-cmd.c:310-360 | From matching states, every run over text that reads cut at any place amounts to a run over whole lines with the same main process, worker and history |
| `HeuristicsStream.SameHistories` | qdevices/qdevice-heuristics-cmd.c:158-213 | The used and written results that runs over cut text can leave behind are exactly those of runs over lines |
| `HeuristicsStream.TakeCarries` | qdevices/qdevice-heuristics-worker-cmd.c:240-303 | Wherever a read ends, it completes the next lines of what was written, and what is held and under way is the text of the others |
| `Heuristics.ArrivedIff` | qdevices/qdevice-heuristics-cmd.c:271-328 | A list arrives at the worker as it is exactly when every name is one word and no command is empty, starts with a space or holds a line end |
| `HeuristicsRuns.AnotherCommandPasses` | qdevices/qdevice-heuristics-cmd.c:252-268 | A run for any command with a line end in it: the main process has used a PASS for its list, and the process that has earned it was started from another command, with a space instead |
| `Heuristics.StepKeeps` | qdevices/qdevice-heuristics-worker-cmd.c:132-232 | Every step of either process keeps the invariant that ties the lines on both pipes, the numbers and the command lists together |
| `Heuristics.ChangeListKeeps` | qdevices/qdevice-heuristics.c:201-228 | After a list change, with a restart of a request under way, the worker will have what the new list arrives as when it reads the new request |
| `Heuristics.ReplayList` | qdevices/qdevice-heuristics-cmd.c:271-328 | Whatever list the worker had, reading the lines of a new list leaves it with exactly what that list arrives as, or stops it at the first entry it cannot parse |
| `Heuristics.SummaryShort` | qdevices/process-list.c:450-468 | Passed exactly when all processes exited with 0, failed exactly when one did not |
| `HeuristicsProcesses.HeuristicsInstance.ExecHeuristics` | qdevices/qdevice-heuristics.c:176-191 | The number grows, a result is awaited and one line with the timeout and the new number is queued |
| `HeuristicsProcesses.HeuristicsInstance.WriteExecList` | qdevices/qdevice-heuristics-cmd.c:271-328 | A clear line and one line per command, in order |
| `HeuristicsProcesses.HeuristicsInstance.ChangeExecList` | qdevices/qdevice-heuristics.c:201-228 | The list is written and replaced, and a request under way is started anew behind it |
| `HeuristicsProcesses.HeuristicsInstance.ProcessExecResult` | qdevices/qdevice-heuristics-cmd.c:48-91 | The notifiers are called exactly for an awaited result with the latest number, which is awaited no more |
| `HeuristicsProcesses.WorkerInstance.ProcessExec` | qdevices/qdevice-heuristics-worker-cmd.c:132-232 | A request under way is cancelled into the kill list; an empty list answers "disabled"; "fail" is answered exactly when a command has no word, the process list has no room left beside the kill list, or one of the forks fails; otherwise every command runs |
| `HeuristicsProcesses.WorkerInstance.ProcessOneLine` | qdevices/qdevice-heuristics-worker-cmd.c:240-303 | Clear, add and exec lines have their effect on list, process list and results; an unknown or malformed line stops the worker |
| `HeuristicsProcesses.WorkerInstance.Collect` | qdevices/qdevice-heuristics-worker.c:233-238 | Waiting amounts to the series of process ends that waitpid reports, and a failed waitpid stops the worker |
| `HeuristicsProcesses.EndSeenIff` | qdevices/process-list.c:329-363 | The end of a process is seen exactly when it is running and waitpid says it has ended, and it counts as passed exactly for exit status 0 |
| `HeuristicsProcesses.WorkerInstance.PollOnce` | qdevices/qdevice-heuristics-worker.c:240-281 | A result is written exactly when the processes waited for have been decided, once, and they are waited for no more |
| `HeuristicsProcesses.WorkerInstance.PollAll` | qdevices/qdevice-heuristics-worker.c:181-292 | One turn of the loop is a series of the protocol's steps in the order lines, ended processes, verdict, timers; no process that waitpid has reported to be gone is taken for running; an error stops the worker where it is |
| `HeuristicsProcesses.WorkerInstance.KillListTimer` | qdevices/qdevice-heuristics-worker.c:127-155 | Signalling the kill list leaves the request alone but for processes that have ended; an error stops the worker |
| `HeuristicsProcesses.WorkerInstance.ExecTimeout` | qdevices/qdevice-heuristics-worker.c:157-178 | A timeout writes one "fail" and gives the processes up |
| `HeuristicsLines.LinesRoundTrip` | qdevices/qdevice-heuristics-worker-cmd.c:240-303 | From the text of whole lines and an incomplete one the worker reads exactly the lines and keeps the incomplete one |
| `HeuristicsLines.LinesAcrossReads` | qdevices/qdevice-heuristics-cmd.c:99-151 | However the pipe cuts the text into reads, the lines read are the lines written, and an incomplete one is kept |
| `HeuristicsLines.LinesWithAnyEnds` | qdevices/qdevice-heuristics-worker-cmd.c:287-303 | Whatever line ends and terminators are behind a line, exactly the lines are read, none between |
| `HeuristicsLines.NumberBehindBlanks` | qdevices/qdevice-heuristics-worker-cmd.c:132-151 | Any white space may stand before a number |
| `HeuristicsLines.LineExamples` | qdevices/qdevice-heuristics-cmd.c:271-354 | A request, a clear line and an entry as they are on the wire |
| `HeuristicsLines.ResultExamples` | qdevices/qdevice-heuristics-worker-cmd.c:367-384 | The three results as they are on the wire |
| `HeuristicsLines.EntryRoundTrip` | qdevices/qdevice-heuristics-worker-cmd.c:48-129 | An exec list entry arrives unchanged exactly when its name is one non-empty word, its command is non-empty and does not start with a space, and neither holds a line end |
| `HeuristicsLines.ProcessExecListAdd` | qdevices/qdevice-heuristics-worker-cmd.c:48-129 | The index loops find the name and the command, or refuse the line |
| `HeuristicsLines.EntryIsOneLine` | qdevices/qdevice-heuristics-cmd.c:252-268 | Whatever name and command contain, line ends included, an entry is sent as one line, and the worker takes it for an entry and nothing else |
| `HeuristicsLines.NewlineArrivesAsSpace` | qdevices/qdevice-heuristics-cmd.c:252-268 | A line end in a command arrives as a space |
| `HeuristicsLines.ExecIsRead` | qdevices/qdevice-heuristics-worker-cmd.c:132-151 | A request printed as a line with two decimal numbers is read back as that request, timeout and number |
| `HeuristicsLines.ResultIsRead` | qdevices/qdevice-heuristics-worker-cmd.c:367-384 | A result printed as a line is read back as that result |
| `ProcessList.Processes.Add` | qdevices/process-list.c:186-222 | A process with the words of its command is added at the end exactly when there is room and there is a word; the counter stays the sum of both lists |
| `ProcessList.Processes.ExecInitialized` | qdevices/process-list.c:313-326 | Processes not started yet become running with the process ids the forks give, up to the first fork that fails; others stay |
| `ProcessList.Processes.WaitpidEntry` | qdevices/process-list.c:329-363 | A process that has not been started or has finished is not asked for; for the others an error fails, "no change" changes nothing, and an end is stored with its status |
| `ProcessList.Processes.Waitpid` | qdevices/process-list.c:366-399 | For all answers of waitpid: ended processes finish in the active list and leave the kill list, the others keep their place, nothing is lost or counted twice, and the first error ends it |
| `ProcessList.Processes.SummaryShort` | qdevices/process-list.c:450-468 | The loop says failed exactly when a finished process failed, passed exactly when all have passed |
| `ProcessList.Processes.MoveActiveToKillList` | qdevices/process-list.c:479-500 | Running processes are appended to the kill list in order, all others are freed, the active list is empty |
| `ProcessList.Processes.ProcessKillListEntry` | qdevices/process-list.c:503-552 | SIGTERM for a running process, SIGKILL after it; the states the source asserts away cannot be met; it fails exactly when the signal is refused |
| `ProcessList.Processes.ProcessKillList` | qdevices/process-list.c:555-570 | After waiting, every process left is signalled one step further, in order, up to the first signal that is refused; a failed waitpid sends none |
| `ProcessList.Processes.KillAll` | qdevices/process-list.c:588-622 | Success means no process is left; without a failed system call it gives up only on processes that were still there in each of twenty rounds and have been sent SIGKILL |
| `ProcessList.EscalationIsPolite` | qdevices/process-list.c:503-552 | The next signal keeps "SIGTERM exactly once, then only SIGKILL" and what the state says was sent |
| `MsgIo.FramingRoundTrip` | qdevices/msgio.c:96-175 | However the stream of frames is cut into reads, the messages completed are those of the frames that have arrived, in order; all of them when all bytes have |
| `MsgFrames.MessagesArrive` | qdevices/msgio.c:96-175 | Any messages, built with type and length in network byte order and cut in any way: those of a known type that fit the buffer are delivered as sent, the others skipped, in order |
| `MsgFrames.FrameIsRead` | qdevices/msg.c:76-148 | Type, length and body of a message that has been built are read back |
| `MsgIo.SocketRoundTrip` | qdevices/msgio.c:46-175 | Under any schedule of partial writes and partial reads the reader completes a prefix of what was queued |
| `MsgIo.StreamIsFramed` | qdevices/msgio.c:96-175 | From any reachable reader state: no read takes bytes of two frames, and a refused frame is skipped to its exact end |
| `MsgIo.PieceArrives` | qdevices/msgio.c:105-164 | A message completes exactly with its last byte, is stored whole when acceptable, keeps only its header when not, and the code of a refusal fits its cause |
| `MsgIo.EmptyRefusedMessage` | qdevices/msgio.c:142-162 | A refused message is reported as complete in the call that refuses it exactly when its length field is zero; `qdevice-net-socket.c:255-262` ends the process on such a result |
| `MsgIo.WireIsPrefix` | qdevices/msgio.c:47-83 | Any sequence of partial writes puts a prefix of the queued messages' bytes on the wire |
| `MsgIo.Receiver.Read` | qdevices/msgio.c:96-175 | Every answer of the socket has the return code and the new counters of the model; the codes for "cannot store" are never returned |
| `MsgIo.Write` | qdevices/msgio.c:47-83 | Exactly the bytes between the old and the new count leave; 1 exactly when all have left, -1 exactly when the socket took none, -2 exactly for an error |
| `SimpleLex.QuoteRoundTrip` | qdevices/dynar-simple-lex.c:67-203 | Quoting strings without line ends, joining them with spaces and lexing gives them back exactly when none is empty |
| `SimpleLex.QuotedTokens` | qdevices/dynar-simple-lex.c:67-203 | In general it gives back the strings before the first empty one |
| `SimpleLex.TokenBound` | qdevices/dynar-simple-lex.c:67-203 | In every mode and state a token never outgrows the input it has consumed, and the rest is the end of the input |
| `SimpleLex.Lexer.TokenNext` | qdevices/dynar-simple-lex.c:68-203 | It terminates on every input, returns the token and the position behind it, and fails exactly when token and terminator do not fit, so never when the input is shorter than the maximum |
| `LexWords.EveryTokenRead` | qdevices/dynar-simple-lex.c:67-203 | Every line is blanks, a word of plain characters, escapes and quoted parts, and an ending, whole or unfinished; the token is what they mean: an escape its character, a quoted part its text with only quotes and backslashes unescaped, an unfinished backslash nothing |
| `LexWords.LineRead` | qdevices/dynar-simple-lex.c:67-203 | A line of words with blanks between them reads as what the words mean, up to the first that means nothing |
| `LexWords.WordsRead` | qdevices/dynar-simple-lex.c:77-125 | Words without special characters, with any blanks between and around them, are the tokens themselves, in all three kinds |
| `SimpleLex.CountTokens` | qdevices/process-list.c:114-130 | The first pass counts the tokens up to the first empty one |
| `SimpleLex.ParseCommand` | qdevices/process-list.c:100-183 | The second pass fills exactly the slots the first has counted, each with its token; no token means failure |
| `Dynar.Buffer.Prealloc` | qdevices/dynar.c:134-154 | Refused exactly when the maximum would be exceeded; contents stay, and a buffer that grows does not pass the maximum |
| `Dynar.Buffer.Realloc` | qdevices/dynar.c:113-131 | Refused exactly above the maximum; otherwise a new array of the given capacity with the same contents |
| `Dynar.Buffer.Cat` | qdevices/dynar.c:157-168 | All of the source or nothing is appended, nothing exactly when it does not fit |
| `Dynar.Buffer.Prepend` | qdevices/dynar.c:171-183 | All of the source or nothing is put in front, the old contents move up unchanged |
| `Dynar.Buffer.SetSize` | qdevices/dynar.c:58-74 | The size is set, the maximum raised when needed, the common part of the contents kept |
| `Dynar.Buffer.QuoteCat` | qdevices/dynar-str.c:135-160 | The string is appended in quotes with every quote and backslash escaped, exactly when that fits; otherwise only a beginning of it may be left behind |
| `NodeList.List.Eq` | qdevices/node-list.c:157-196 | True exactly when both lists have the same entries (id, data center, state) in the same order for every id; hence, when the second has no id twice, exactly when they are permutations; neither list is changed |
| `NodeList.List.Clone` | qdevices/node-list.c:79-95 | A new list object with the same entries |
| `NodeList.List.FindNodeId` | qdevices/node-list.c:143-154 | The first entry with the id, or none |
| `NodeList.OneMatched` | qdevices/node-list.c:127-133 | Deleting the matched entry keeps "matched so far and left in the copy make up the second list", for every id and in order |
| `NodeList.SameMeansPermutation` | qdevices/node-list.c:157-196 | Lists that are equal in this sense are permutations of each other, and when the second has no id twice every permutation is equal |
| `NodeList.NoCounterpart` | qdevices/node-list.c:169-183 | An entry whose id is missing in what is left of the copy, or belongs to another entry there, proves the lists different |

## Left out

Assumptions of the theorems:

- Memory allocation does not fail, and 32-bit message numbers do not wrap.
- A node never meets the same corosync ring id twice, and its configuration lists the node itself.
- A lost connection is noticed by the node (which then votes NACK) not later than by the server; the timers that are to ensure it, dead peer detection and echo requests, are not modelled.
- The server does not restart; after a failed assertion it does nothing more.
- `FfsplitSelection.SelectIsLexicographicMaximum` takes the lists as corosync provides them: no repeated ids, members inside the configuration, equal or disjoint partitions, a nominated tie-breaker node inside the configuration. Of this the server checks only that a list is not empty and contains its sender, which is all that `FfsplitTheorems.NothingSelectedIff` needs.
- `Lms.VoteAgrees` and the other agreement statements are for the lowest and highest tie-breaker with node ids below the largest 32-bit integer: with a nominated node the code does not provide agreement (`Lms.NominatedOnlyItself`), and an id of that size is never found by the search for the lowest one. They are about one snapshot; the algorithm gives no guarantee across snapshots, since every client's stored ring id changes at its own time.

Not modelled:

- NSS and TLS, the preinit exchange, the TLV encoding of messages, the poll loop, signals, exec, logging, locking, the command line tools and the status interface. The answers of socket, waitpid, kill and fork are parameters.
- Timers: the regular heuristics timer, the sync state of corosync and the connect timer appear only as events that may happen at any time; the algorithm timer of last man standing only as another evaluation.
- The checks of expected votes and of the configured vote count in the node before it connects (`qdevice-net-algo-ffsplit.c:47-109`), and expected-votes notifications.
- The connection error on the server when a vote message cannot be queued, which follows only from a failed allocation.
- The test and two-node algorithms, and running several clusters on one server.
- The reply to a heuristics change is modelled as a list reply: both carry a ring id and a vote and are treated alike by the node.
- Lines: the sign that sscanf accepts before a number, numbers above 32 bits and the limit on the length of a line; names and commands are C strings without a terminator inside.
- `HeuristicsProcesses.WorkerInstance.PollAll`: when both timers expire in one turn the request's timer is handled first; the source goes by the time of expiry. The length of the timeouts, which depends on whether corosync is synchronizing, is a parameter.
- `ServerSteps.ServeClientKeeps`: echo requests, requests for a vote and messages with missing options are not among the messages; echo does not touch the algorithm, a device with this algorithm never asks for a vote, and both ends always set their options.
- `QdeviceNet.Net.MessageReceived`: the same messages and their replies are left out, for the same reasons.
- `QdeviceNet.Net.RegularHeuristicsResult`: the disconnect from a server that does not know heuristics is left out; the server of this model knows them.
- `FfsplitVotes.CheckNewClient`: the refusal of a client with another decision algorithm is left out; all clients of the model use one.
- `FfsplitServer.Cluster.MayJoin`: the same refusal is left out.
- The process list's entries and the client, partition and node lists are sequences held in a field and replaced on change, not linked nodes; aliasing between entries is not captured.
- `QdeviceNet.Net.StopForMembership`, `QdeviceNet.Net.StartVoting`: two assignments are made in another order than in the source where nothing can observe it.
- `ProcessList.Processes.KillAll`: the time waited between two rounds is not modelled.
