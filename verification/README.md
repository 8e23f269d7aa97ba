# A verified model of the BGP control plane and the TSN shaper

This project models the packet-driven routing code of the repository in Dafny and proves
what its parts promise, mostly over whole runs:

* **A network of BGP speakers** (`Network.dfy`): import, selection, export, reflection, and
  loss of a session or of a connection alone, as steps of a system of speakers joined by FIFO
  channels. Every copy of a
  route carries the list of speakers it visited, which no speaker reads. The wire
  attributes are proved to describe that list. `NetworkEffect.dfy` says what each step does
  and that routes travel.
* **One speaker** (`Speaker.dfy`, `SpeakerRuns.dfy`, `PeerSessions.dfy`,
  `GracefulRestart.dfy`, `Decision.dfy`, `Propagation.dfy`): its tables and its dirty flag
  under any interleaving of messages, session events, configuration and polls.
  `ImportEffect.dfy`, `SessionEffect.dfy` and `LocRibContents.dfy` say what one UPDATE, one
  session event and the decision process leave behind, in terms of the tables alone.
  `Coherence.dfy` finds the only two kinds of step that can leave the Loc-RIB other than the
  decision process would compute it, `Reannouncement.dfy`, `RepeatedUpdates.dfy` and
  `ReplacementOpen.dfy` give their exact effect, `CoherentRuns.dfy` the exact condition over
  whole runs, and `RetentionRuns.dfy` one run in which it fails.
  `Router.dfy` is the same speaker as an object updated in place; each method is proved to
  do what the corresponding function says, and one `Step` method covers every operation of
  a run.
* **The outbound side** (`Outbound.dfy`): one session's Adj-RIB-Out against what was really
  written, with writes failing at any point, and the Enhanced Route Refresh replay.
  `RefreshEndToEnd.dfy` joins it to the codec and to a receiving speaker.
* **The wire** (`AsPathCodec.dfy`, `PrefixCodec.dfy`, `UpdateCodec.dfy`, `Framer.dfy`,
  `Capabilities.dfy`): UPDATE encoding and parsing at either AS number width, AS4_PATH
  merging, message framing over a byte stream, OPEN capabilities. `ForeignAttributes.dfy` and
  `ForeignMessages.dfy` say which octets are accepted, whoever wrote them, and what is read.
* **Connection collision** (`Collision.dfy`, `CollisionEffect.dfy`), **EVPN** (`Evpn.dfy`,
  `EvpnRib.dfy`, `EvpnEffect.dfy`, `EvpnContents.dfy`, `EvpnCoherence.dfy`, `EvpnRuns.dfy`), the
  **ADD-PATH table with its backup path** (`AddPathRib.dfy`), and **asynchronous traffic
  shaping** (`AtsShaper.dfy`, `UrgencyScheduler.dfy`).

Standards behind the code: RFC 4271 sections 4.1, 4.3, 6.1, 6.3, 6.8 and 9.1.2.2, RFC 2918,
RFC 4360 section 2, RFC 5492 section 4, RFC 4456 sections 7 to 10,
RFC 4724 section 4.2, RFC 4760 section 3, RFC 6793 section 4.2.3, RFC 7313 section 4,
RFC 7432 section 15, RFC 7911, and IEEE Std 802.1Qcr-2020 clause 8.6.11.

Conventions: an IPv4 address is its 32-bit value. Time is a natural number of milliseconds
(microseconds for the shaper) handed to each step. Route policy is an arbitrary function
from prefixes to outcomes. A transport takes a whole message or nothing, and which of the
two happens is arbitrary. Integer widths are subset types; where the code truncates or
saturates, the model writes it out.

`dafny verify dfyconfig.toml` checks the whole project.

## Where the code does not do what its documentation says

The model follows the code. Each of these is a lemma.

* The winner of the IPv4 decision process can depend on the order in which candidates are
  listed, although README.md:917-918 and src/bgp_rib.rs:152-156 say otherwise: MED is
  compared only within one neighbouring AS, so three paths can beat each other in a circle.
  `Decision.OrderFreeIffPairwiseWinner` is the exact condition and
  `Decision.MedMakesOrderMatter` an instance. The speaker lists candidates by peer address,
  so its winner is still a function of the table.
* "Nothing stale is left in any RIB" (README.md:941-942) fails for a peer lost twice during
  one graceful restart. `GracefulRestart.LostAgainLeavesNothingIff` is the exact condition and
  `RetentionRuns.PathOutlivesItsSession` a run from the start: the path of a peer that never
  came back is stored, counts as fresh and is the one in use.
* A retained path that is announced again unchanged becomes fresh without setting the dirty
  flag, so the Loc-RIB may keep another path than the decision process would choose.
  `RepeatedUpdates.RepeatingUpdateIsCoherentIff` says exactly when, for an UPDATE with any number
  of routes; `RetentionRuns.WorseRouteStaysForGood` is a run from the start after which no poll,
  however late, corrects it. A second replacement OPEN likewise moves stored paths from fresh to
  stale: `ReplacementOpen.OpenIsCoherentIff`, `RetentionRuns.OpenHidesChange`. Over whole runs
  `CoherentRuns.CoherentThroughoutIff` is the exact condition.
* The loss of a session whose EVPN routes are kept sets the IPv4 dirty flag
  (src/bgp_router.rs:2689) but not the EVPN one (src/bgp_router.rs:2657-2659), so a stale route
  stays selected beside a fresh one: `EvpnCoherence.DownIsCoherentIff` says exactly when,
  `EvpnRuns.StaleRouteStaysInUse` shows it in runs from the start, and
  `EvpnCoherence.CoherentThroughoutIff` is the exact condition over whole runs.
* A newly imported Route Target is said to make stored routes acceptable
  (src/bgp_router.rs:2967-2970). The stored mark is not recomputed, so it does not:
  `EvpnRib.AddTargetStaysAccurateIff`, `EvpnRib.AwaitingRouteStaysOut`, and in a run
  `EvpnRuns.LateTargetRun`.
* Removing an import Route Target also drops the routes a reflector retains only for its
  clients: `EvpnRib.RemoveTargetKeepsIff`, and in runs `EvpnRuns.ReflectorForgets`.
* An OPEN with more than 64 distinct capabilities fits 255 octets and is refused, although
  src/bgp_caps.rs:58-60 says a well-formed message cannot reach the limit:
  `Capabilities.ParamsRoundTripIff`, `Capabilities.SixtyFiveAreRefused`.
* Collision resolution keeps both speakers on one connection if and only if the session of the
  higher identifier does not end: `Collision.OneConnectionIff`. It never asks whether the session
  it replaces is Established, so that one can be displaced: `Collision.EstablishedDisplacedIff`
  says by which step, `Collision.NothingDisplacedIff` in which runs. After that the Adj-RIB-Out
  still holds what went out on the connection that is gone, and the new one hears only the rest:
  `Outbound.AdoptThenAdvertise` says exactly when that is too little,
  `Outbound.AdoptedConnectionHearsNothing` shows a session that hears nothing at all, and after an
  adoption in a refresh EoRR goes out without its BoRR (`Outbound.OrphanedEorr`). The loser's teardown can also drop the winner:
  `Collision.ResetCanOvertakeTheOpen`.
* One read pushes all available octets into the framer before any message is taken out, so
  three full-size messages arriving together are refused: `Framer.FullMessagesAreRefused`.

## Model

| member | source | states |
|---|---|---|
| BgpTypes.PrependFlatten | src/bgp.rs:677-691 | prepending puts exactly one AS number in front, whether it extends the leading sequence or opens a new one |
| BgpTypes.ContainsFlatten | src/bgp.rs:641-645 | loop detection by segment is membership in the flattened path |
| BgpTypes.LengthCountsHops | src/bgp.rs:625-635 | a path of sequences is as long as it has hops |
| BgpTypes.SetCountsOnce | src/bgp.rs:625-635 | a set counts as one hop, wherever it stands and however many AS numbers it holds |
| BgpTypes.PrependLength | src/bgp.rs:677-691 | prepending lengthens a path by one |
| BgpTypes.FirstAsIff | src/bgp.rs:653-660 | the neighbouring AS is the first one of the first sequence; a set before it is passed over |
| BgpTypes.SameRouteIff | src/bgp_rib.rs:117-135 | two paths are the same route exactly when nothing but the time of receipt differs |
| Propagation.WithheldIff | src/bgp_router.rs:4441-4470 | a selected path is withheld exactly when it came from the peer, policy denies it, the peer's AS is on it, or it would pass between two ordinary internal peers |
| Propagation.ExternalAdvertisement | src/bgp_router.rs:4462-4509 | what leaves the AS carries our AS number in front, our address as next hop, the MED policy sets or none, and nothing internal |
| Propagation.InternalAdvertisement | src/bgp_router.rs:4480-4522 | inside the AS a path not learned there goes out with AS_PATH and origin unchanged, our address as next hop exactly for own routes and under next-hop-self, LOCAL_PREF and MED as policy sets them or else the path's, and no reflection attribute |
| Propagation.ReflectionTouchesNothingElse | src/bgp_router.rs:4472-4522 | a reflector adds its cluster and the originator; besides the LOCAL_PREF and MED policy sets it changes nothing, not even the next hop under next-hop-self |
| Propagation.AcceptedAttributesAreSound | src/bgp_router.rs:2774-2871 | what the import checks accept is loop-free, usable, and from outside starts with the neighbour's AS |
| Network.ExportDescribes | src/bgp_router.rs:4434-4530 | an advertisement's AS_PATH, ORIGINATOR_ID and CLUSTER_LIST describe the trail of the copy one hop further on |
| Network.ImportAccepts | src/bgp_router.rs:2752-2933 | an announcement is stored only after its trail passed the AS, originator and cluster checks, and then describes that trail |
| Network.NextKeeps | src/bgp_router.rs:1082-1124 | every step of the network (select, send, deliver, loss of a session, loss or replacement of a connection whose table is kept, role change, purge) keeps all copies truthful |
| Network.RunKeeps | src/bgp_router.rs:1082-1124 | the same for every run |
| Network.AsPathIsTheRouteTaken | src/bgp_router.rs:2856-2871 | every stored AS_PATH is the duplicate-free list of ASes the copy crossed and never holds the holder's AS |
| Network.ReflectionAttributesAreTruthful | src/bgp_router.rs:4566-4582 | CLUSTER_LIST repeats no cluster, omits the holder's, and lists who reflected the copy; ORIGINATOR_ID names the speaker that injected it, never the holder |
| Network.InFlightIsTruthful | src/bgp_router.rs:4462-4522 | the same for messages still in a channel |
| Network.NothingTruncated | src/bgp_router.rs:4576-4581 | with at most 32 cluster IDs per AS the truncation never fires |
| Network.PropagationIsFinite | src/bgp_router.rs:2732-2744 | then no copy visits a speaker twice, and inside every AS it crosses it makes at most one plain hop plus one per further cluster |
| NetworkEffect.SelectEffect | src/bgp_router.rs:3875-3923 | selecting puts the chosen copy, or one that starts here, into the Loc-RIB and touches nothing else |
| NetworkEffect.SendEffect | src/bgp_router.rs:4434-4530 | sending appends one message: the selected copy's rewritten attributes and trail, or a withdrawal exactly when it is withheld |
| NetworkEffect.DeliverEffect | src/bgp_router.rs:2752-2933 | delivery takes the first message and does to the receiver's table for that peer what the import checks and policy say, copy and trail included |
| NetworkEffect.LossEffect | src/bgp_router.rs:2580-2601 | the end of a session empties the table and the channel, the loss of a connection only the channel |
| NetworkEffect.RouteTravels | src/bgp_router.rs:4434-4530 | a selected copy neither end of an external link objects to is held by the neighbour after one message, one AS and one speaker further on |
| Decision.ComparisonIsATournament | src/bgp_rib.rs:158-223 | the comparison is antisymmetric and never ties two peers |
| Decision.LessIffOutranks | src/bgp_rib.rs:158-223 | one path beats another exactly by the documented steps: local, local preference, length, origin, MED within one neighbouring AS, external, cluster list, router identifier, address |
| Decision.NoLaterPathOutranks | src/bgp_rib.rs:226-235 | no path listed after the selected one outranks it, circles or not |
| Decision.PairwiseWinnerIsSelected | src/bgp_rib.rs:226-235 | a path that beats every other is selected from any list order |
| Decision.OrderFreeIffPairwiseWinner | src/bgp_rib.rs:226-235 | selection is independent of list order if and only if some path beats all others |
| Decision.TransitiveWhenMedUniform | src/bgp_rib.rs:187-193 | winning is transitive when the MED step is out of the way or applies throughout |
| Decision.UniformMedHasWinner | src/bgp_rib.rs:187-193 | equal MEDs, or one neighbouring AS, guarantee an overall winner |
| Decision.UniformMedIsOrderFree | src/bgp_rib.rs:226-235 | and make the order irrelevant |
| Decision.NoCircleIff | src/bgp_rib.rs:226-235 | every choice among the paths has an overall winner exactly when no three beat each other in a circle |
| Decision.SelectedIsPreferred | src/bgp_rib.rs:158-186 | circles or not, in any order the selected path is local if one is, then of highest local preference, shortest, of lowest origin |
| Decision.MedMakesOrderMatter | src/bgp_rib.rs:187-193 | three concrete paths for which the order decides |
| Decision.ReflectionChainPreserves | src/bgp_router.rs:4480-4522 | any chain of reflectors leaves every attribute compared before CLUSTER_LIST alone |
| Decision.DirectCopyRanksFirst | src/bgp_rib.rs:202-218 | the injector's own copy outranks every reflected copy of it |
| Speaker.AscendingIsAscending | src/bgp_rib.rs:309-314 | candidates are taken peer by peer in strictly ascending address order, which settles who wins a MED circle |
| SpeakerRuns.ImportFlagged | src/bgp_router.rs:2911-2918 | an import that changes a decision input sets the dirty flag |
| SpeakerRuns.EndRefreshFlagged | src/bgp_router.rs:2144-2163 | so does the end of a refresh |
| SpeakerRuns.OpenFlagged | src/bgp_router.rs:2488-2534 | so does what a replacement OPEN purges |
| SpeakerRuns.OpFlagged | src/bgp_router.rs:1609-1715 | every operation other than a poll flags what it changes, up to time of receipt |
| Coherence.QuietKeepsCoherence | src/bgp_router.rs:3875-3923 | a step that flags nothing and moves no path between stale and fresh keeps the Loc-RIB what the decision process would compute |
| Coherence.StepQuiet | src/bgp_router.rs:1609-1715 | only an announcement or a replacement OPEN can move a stored path between stale and fresh without the flag; every other step is quiet |
| Coherence.PollCoherent | src/bgp_router.rs:1091-1096 | a poll keeps a coherent Loc-RIB and repairs a flagged one, also when it ends retention |
| CoherentRuns.StepIff | src/bgp_router.rs:1609-1715 | one step keeps a coherent Loc-RIB coherent if and only if it flags what it changes or is harmless |
| CoherentRuns.CoherentThroughoutIff | src/bgp_router.rs:1082-1096 | in every run from the start, retention or not, a clear flag always means a coherent Loc-RIB if and only if every unflagged announcement and OPEN that changes what is stale is harmless |
| CoherentRuns.PollLeavesLocRibCoherent | src/bgp_router.rs:3875-3923 | after every poll of such a run the Loc-RIB equals the decision process run from scratch |
| CoherentRuns.NothingRetainedNothingHidden | src/bgp_router.rs:2367-2381 | every run without retained peers is such a run |
| LocRibContents.DecisionContents | src/bgp_router.rs:3875-3923 | the decision process serves exactly the originated and the stored prefixes: an originated one with the speaker's own path, any other with a stored path, fresh if one is, preferred up to MED to all that count and outranked by none of a higher peer address |
| LocRibContents.PollLeavesLocRibBacked | src/bgp_router.rs:1082-1096 | after every poll of every run from the start, retention or not, the Loc-RIB serves exactly the originated and the stored prefixes, each with the own path or a route still stored |
| LocRibContents.NetworkIsServed | src/bgp_router.rs:946-952 | a network once configured is served after every later poll until it is configured away, whatever the peers do |
| LocRibContents.NetworkIsGone | src/bgp_router.rs:954-962 | configured away, its prefix is served from the next poll on exactly if a peer's path for it is stored, and with a learned path |
| Coherence.NoPollRepairs | src/bgp_router.rs:2536-2548 | once nothing stored is stale no sequence of polls corrects a wrong Loc-RIB, whichever deadlines pass |
| Reannouncement.RepeatIsCoherentIff | src/bgp_router.rs:2911-2918 | announcing a stored route again unchanged keeps a coherent Loc-RIB coherent if and only if its freshness does not change, the entry is local or that route, or another path is fresh and that route does not beat the entry |
| RepeatedUpdates.UpdateUnflagged | src/bgp_router.rs:2752-2933 | an UPDATE that leaves the flag clear renews the time of receipt of what it repeats and does nothing else |
| RepeatedUpdates.UpdateIsCoherentIff | src/bgp_router.rs:2752-2933 | whatever an UPDATE with a clear flag carries, the Loc-RIB stays coherent if and only if each route it repeats was harmless to repeat |
| RepeatedUpdates.RepeatingUpdateIsCoherentIff | src/bgp_router.rs:2752-2933 | the same for an UPDATE that only repeats stored routes, which is told before it is handled and never sets the flag |
| ReplacementOpen.OpenIsCoherentIff | src/bgp_router.rs:2488-2534 | a replacement OPEN that keeps the routes leaves the Loc-RIB coherent if and only if that holds, prefix by prefix, of every path it judges anew |
| RetentionRuns.WorseRouteStaysForGood | src/bgp_router.rs:2911-2918 | a run from the start after which the Loc-RIB keeps the less preferred route through any sequence of polls |
| RetentionRuns.OpenHidesChange | src/bgp_router.rs:2523-2533 | a run in which a second replacement OPEN leaves a stale path in the Loc-RIB beside a fresh one |
| RetentionRuns.PathOutlivesItsSession | src/bgp_router.rs:2383-2402 | a run in which the path of a peer that is gone for good is stored, fresh and in use after its deadline |
| PeerSessions.MarkAndSweep | src/bgp_router.rs:2085-2163 | sweeping what was marked and not announced again is playing the events over the unmarked part alone |
| PeerSessions.PlayForgetsIff | src/bgp_router.rs:2752-2925 | a stretch of messages forgets the old table exactly when it touches every old path |
| PeerSessions.UpdatePlays | src/bgp_router.rs:2752-2933 | one UPDATE plays its events over its peer's table and refresh marks |
| ImportEffect.CheckIff | src/bgp_router.rs:2774-2871 | attributes reset the session exactly for an unusable next hop or AS_PATH, with that subcode, and are a loop exactly by AS, originator or cluster |
| ImportEffect.UpdateEffect | src/bgp_router.rs:2752-2933 | the whole effect of one UPDATE: an announced prefix is stored with the policy's LOCAL_PREF and MED, else the attribute's, else 100, everything else as received, or goes if denied; a withdrawn one goes; every other keeps its entry; the flag is set by exactly what changes; the prefix limit is answered exactly when the table exceeds it |
| ImportEffect.NotifiedIsGone | src/bgp_router.rs:1851-1893 | an UPDATE answered by a notification leaves the peer idle and nothing of it stored |
| PeerSessions.LoopLeavesEarlierPath | src/bgp_router.rs:2833-2871 | an announcement refused as a loop leaves the earlier path in place |
| PeerSessions.ElsewhereFrame | src/bgp_rib.rs:237-320 | nothing that concerns another peer touches this one's table or session state |
| PeerSessions.StretchPlays | src/bgp_router.rs:1609-1715 | a stretch of a session plays exactly what was accepted from the peer |
| PeerSessions.RefreshIsExact | src/bgp_router.rs:2085-2163 | whatever the table held at BoRR, after EoRR it is the fold from empty of what was accepted since |
| PeerSessions.AcceptedNotBefore | src/bgp_router.rs:2889-2909 | accepted paths carry the time of their UPDATE |
| PeerSessions.EndOfRibIsExactIff | src/bgp_router.rs:2442-2462 | End-of-RIB leaves exactly the paths since the replacement OPEN if and only if every older path stamped at or after the OPEN was announced or withdrawn again |
| PeerSessions.EndOfRibIsExact | src/bgp_router.rs:2383-2402 | with a clock that advanced in between it always does |
| GracefulRestart.TeardownRetention | src/bgp_router.rs:2603-2631 | a teardown keeps a running deadline or sets one with the retained families |
| GracefulRestart.OpenRetention | src/bgp_router.rs:2488-2534 | a replacement OPEN narrows or ends retention consistently |
| GracefulRestart.StepRetention | src/bgp_router.rs:2536-2548 | no step moves a deadline that is still running |
| GracefulRestart.StaleIffDeadline | src/bgp_router.rs:2682-2684 | in every run a peer has stale families exactly when a deadline is set |
| GracefulRestart.DeadlineNeverMoves | src/bgp_router.rs:2608-2611 | however often the transport flaps, the deadline stays |
| GracefulRestart.PollEndsOverdueRetention | src/bgp_router.rs:2536-2548 | no family is stale after a poll at or past its deadline |
| GracefulRestart.DisabledNeverRetains | src/bgp_router.rs:2612-2631 | while graceful restart is not switched on nothing is ever retained |
| GracefulRestart.LostAgainLeavesNothingIff | src/bgp_router.rs:2385-2402 | after a second loss the deadline flush empties the table if and only if nothing was received since the replacement OPEN |
| SessionEffect.LossEffect | src/bgp_router.rs:2580-2702 | the end of a session keeps exactly the negotiated families the peer's capability names, on an established session with the helper on and a failed transport, until the restart time is over; a restarting peer keeps families, deadline and cutoff |
| SessionEffect.OpenEffect | src/bgp_router.rs:2488-2534 | a replacement OPEN keeps exactly the families it restarts with and has kept forwarding, starts the cutoff, and drops IPv4 paths from before the old cutoff exactly if IPv4 is not among them |
| SessionEffect.EndOfRibEffect | src/bgp_router.rs:2383-2462 | End-of-RIB keeps exactly the family's paths since the cutoff and ends the restart with the last family |
| SessionEffect.EmptyUpdateEndsRib | src/bgp_router.rs:1851-1893 | an empty UPDATE is the End-of-RIB of IPv4 and no other UPDATE is |
| SessionEffect.OnlyEstablishedListens | src/bgp_router.rs:1745-1987 | messages about routes change nothing unless the session is established |
| SessionEffect.EorrEffect | src/bgp_router.rs:2132-2163 | EoRR removes exactly what is still marked, sets the flag for exactly that, and does nothing without BoRR |
| SessionEffect.RoleEffect | src/bgp_router.rs:687-725 | a change of role marks every stored path of the peer anew and sets the flag |
| SessionEffect.SettingEffect | src/bgp_router.rs:910-944 | a setting changes what it names and nothing else |
| Router.WinnerIsForThePrefix | src/bgp_router.rs:3905-3907 | filing the winner under its own prefix files it under the prefix decided |
| Router.BgpRouter.RemovePath | src/bgp_rib.rs:257-263 | removes one path, drops a table left empty, returns what was there |
| Router.BgpRouter.InsertPath | src/bgp_rib.rs:248-255 | replaces the peer's path for the prefix and returns the previous one |
| Router.BgpRouter.Withdraw | src/bgp_router.rs:2760-2765 | the withdrawal loop equals the withdrawal function |
| Router.BgpRouter.Announce | src/bgp_router.rs:2860-2925 | the announcement loop stops at the prefix limit and equals the announcement function |
| Router.BgpRouter.ImportUpdate | src/bgp_router.rs:2752-2933 | whole new state and notification of one UPDATE, prefix by prefix as ImportEffect.UpdateEffect says |
| Router.BgpRouter.RunDecisionProcess | src/bgp_router.rs:3875-3923 | the loop over prefixes serves exactly the originated and the stored prefixes, each with the entry LocRibContents.DecisionContents demands |
| Router.BgpRouter.BeginEnhancedRefreshInbound | src/bgp_router.rs:2085-2130 | BoRR marks everything held |
| Router.BgpRouter.Sweep | src/bgp_router.rs:2150-2158 | removes the listed prefixes and flags only real removals |
| Router.BgpRouter.CompleteEnhancedRefreshInbound | src/bgp_router.rs:2132-2163 | EoRR sweeps the marks; without BoRR it is ignored |
| Router.BgpRouter.PurgeStaleFamily | src/bgp_router.rs:2383-2402 | removes exactly the paths older than the cutoff |
| Router.BgpRouter.CompleteRestartFamily | src/bgp_router.rs:2442-2462 | End-of-RIB for one family |
| Router.BgpRouter.FlushRestart | src/bgp_router.rs:2464-2486 | ends retention of all families |
| Router.BgpRouter.NarrowRestart | src/bgp_router.rs:2505-2522 | drops the families not vouched for and starts the cutoff |
| Router.BgpRouter.ReconcileRestart | src/bgp_router.rs:2488-2534 | what a replacement OPEN does to retention |
| Router.BgpRouter.ExpireRestarts | src/bgp_router.rs:2536-2548 | flushes every peer whose deadline passed |
| Router.BgpRouter.Teardown | src/bgp_router.rs:2580-2702 | whole new state after a session ends |
| Router.BgpRouter.SetRouteReflectorClient | src/bgp_router.rs:687-725 | rewrites the role and the mark on every stored path |
| Router.BgpRouter.PollTail | src/bgp_router.rs:1091-1096 | expires retention, then decides if anything changed |
| Router.BgpRouter.HandleUpdate | src/bgp_router.rs:1851-1893 | an UPDATE on an established session, including resets and End-of-RIB |
| Router.BgpRouter.Step | src/bgp_router.rs:1082-1124 | the object does on any operation what the run semantics say |
| Router.BgpRouter.ComputeAdjRibOut | src/bgp_router.rs:4434-4530 | exactly the prefixes not withheld, each with the attributes the external, internal or reflected case demands |
| Outbound.GroupByAttributes | src/bgp_router.rs:4341-4355 | every due prefix is in the group of its encoded attributes, and nothing else is |
| Outbound.NoLongerWanted | src/bgp_router.rs:4312-4320 | the withdrawn list is exactly what is advertised and no longer desired |
| Outbound.OutboundSession.SendPdu | src/bgp_router.rs:2552-2574 | a message is written whole or not at all, and a refusal is counted |
| Outbound.OutboundSession.RequestRefresh | src/bgp_router.rs:1927-1945 | a request schedules a replay and owes a BoRR |
| Outbound.OutboundSession.EnsureBorr | src/bgp_router.rs:2211-2234 | the pass starts only after BoRR was written |
| Outbound.OutboundSession.SendWithdrawals | src/bgp_router.rs:4321-4337 | the Adj-RIB-Out forgets a prefix only when its withdrawal was written |
| Outbound.OutboundSession.SendGroups | src/bgp_router.rs:4357-4385 | what was written is recorded as written, and if nothing was refused every group was |
| Outbound.OutboundSession.SendChanges | src/bgp_router.rs:4312-4385 | withdrawals and groups together are the messages of a pass, a whole one if nothing was refused, and none if nothing changed |
| Outbound.OutboundSession.Advertise | src/bgp_router.rs:4295-4394 | complete exactly when nothing was refused; what was written is recorded as written, in any state of the session; a complete pass sends all that is due and leaves the computed view; the session invariant is kept |
| Outbound.OutboundSession.SendEorrs | src/bgp_router.rs:2246-2272 | an EoRR that is owed goes out unless it is refused, and only after a complete replay |
| Outbound.OutboundSession.Teardown | src/bgp_router.rs:2641-2675 | the next session starts from nothing |
| Outbound.OutboundSession.Adopt | src/bgp_router.rs:1348-1366 | adopting the neighbour's connection keeps the Adj-RIB-Out and the refresh state, and the invariant survives exactly when nothing was advertised and no replay was on |
| Outbound.ListenerConvergesIff | src/bgp_router.rs:4312-4385 | after a whole pass a listener holds the desired routes if and only if it already held what the pass left out and nothing the sender does not know of |
| Outbound.NothingRepeated | src/bgp_router.rs:4341-4355 | outside a refresh a pass says nothing about a route that is advertised as it should be |
| Outbound.AdoptedConnectionHearsAllIff | src/bgp_router.rs:4295-4394 | the messages of the first whole pass on an adopted connection add up to the desired routes if and only if every one of them is due |
| Outbound.AdoptThenAdvertise | src/bgp_router.rs:1348-1366 | the same of a session that adopts a connection and advertises |
| Outbound.AdoptedConnectionHearsNothing | src/bgp_router.rs:1348-1366 | a session that advertised everything, adopts a connection and advertises again sends nothing, while its Adj-RIB-Out lists all |
| Outbound.OneRouteGoesUntold | src/bgp_router.rs:4343-4345 | one route, taken by the transport before the adoption, is such a case |
| Outbound.OrphanedEorr | src/bgp_router.rs:2246-2272 | an EoRR owed before the adoption goes out on the new connection without its BoRR |
| Outbound.SentKeepsValid | src/bgp_router.rs:4295-4385 | any written UPDATE keeps the fold equal to the Adj-RIB-Out and the replayed part current |
| Outbound.PassKeepsValid | src/bgp_router.rs:4295-4385 | so does everything written of a pass, whole or not |
| Outbound.BorrKeepsValid | src/bgp_router.rs:2211-2234 | a new BoRR restarts the replay, also in the middle of one |
| Outbound.EorrKeepsValid | src/bgp_router.rs:2246-2272 | at EoRR everything since BoRR adds up to the whole Adj-RIB-Out |
| Outbound.PassComplete | src/bgp_router.rs:4312-4394 | a pass without a refused write leaves exactly the desired routes |
| RefreshEndToEnd.GroupingIsSound | src/bgp_router.rs:4341-4355 | grouping by encoded octets never mixes two routes |
| RefreshEndToEnd.WireDelivers | src/bgp.rs:1133-1219 | each sent UPDATE is parsed as itself at the session's width |
| RefreshEndToEnd.StretchMirrors | src/bgp_router.rs:2752-2933 | what a receiver accepts builds what the sender's messages add up to |
| RefreshEndToEnd.RefreshConverges | src/bgp_router.rs:1927-1955 | after EoRR the receiver's table is the sender's Adj-RIB-Out, whatever it held before |
| RefreshEndToEnd.EorrClosesBorr | src/bgp_router.rs:2236-2272 | every EoRR written has its BoRR before it |
| AsPathCodec.PathRoundTrip | src/bgp.rs:717-800 | decoding an encoded path gives its segments, split at 255, at that width |
| AsPathCodec.FourOctetExactIff | src/bgp.rs:717-800 | with four octets a path survives exactly when its segments hold 1 to 255 AS numbers |
| AsPathCodec.TwoOctetRestoresIff | src/bgp.rs:804-825 | AS_TRANS plus AS4_PATH restores the AS numbers if and only if none needs four octets or there is no AS_SET |
| AsPathCodec.TwoOctetPathShows | src/bgp.rs:717-800 | AS_PATH alone tells a two-octet session every AS number that fits and 23456 for each that does not |
| AsPathCodec.MergeIff | src/bgp.rs:804-825 | AS4_PATH takes the place of the trailing hops exactly if it is not empty, not longer than the path, and no set stands in either; otherwise the path stays |
| AsPathCodec.EncodeOneSegment | src/bgp.rs:717-739 | the chunk loop writes the segment's encoding |
| AsPathCodec.Encode | src/bgp.rs:717-739 | the encoder's loops equal the specified encoding |
| AsPathCodec.Decode | src/bgp.rs:746-800 | the decoder's loop equals the specified decoding, errors included |
| PrefixCodec.PrefixesRoundTrip | src/bgp.rs:503-536 | any list of canonical prefixes survives the wire |
| PrefixCodec.DecodeList | src/bgp.rs:511-536 | the index loop equals the specified decoding, errors included |
| UpdateCodec.ReachRoundTrip | src/bgp_mp.rs:129-184 | MP_REACH_NLRI values survive |
| UpdateCodec.UnreachRoundTrip | src/bgp_mp.rs:209-235 | MP_UNREACH_NLRI values survive |
| UpdateCodec.BlockParses | src/bgp.rs:934-1043 | the attribute block is read back attribute by attribute |
| UpdateCodec.AttributesRoundTrip | src/bgp.rs:1520-1573 | completing what was read gives the attributes back |
| UpdateCodec.BodyRoundTrip | src/bgp.rs:1133-1219 | an UPDATE body survives |
| UpdateCodec.UpdateRoundTrip | src/bgp.rs:1825-1862 | every well-formed UPDATE of at most 4096 octets parses back to itself at the negotiated width |
| UpdateCodec.TwoOctetUpdateKeepsAsns | src/bgp.rs:804-825 | on a two-octet session all AS numbers of a sequence-only path arrive |
| UpdateCodec.EncodingIsInjective | src/bgp.rs:934-1043 | attribute sets that encode alike are alike |
| UpdateCodec.ParseAttribute | src/bgp.rs:1225-1330 | one attribute: header, bounds, duplicate check, value |
| UpdateCodec.ParseAttributes | src/bgp.rs:1225-1496 | the attribute walk equals the specified parse |
| ForeignAttributes.DecodedIffSpelled | src/bgp.rs:746-800 | an AS_PATH is read exactly from the octets that spell it: type, count, AS numbers, most significant octet first |
| ForeignAttributes.AcceptedIff | src/bgp.rs:1225-1496 | any block of octets is accepted exactly when it is a list of whole attributes, none repeated, each with the flags, length and content its code demands |
| ForeignAttributes.SoundBlockIsRead | src/bgp.rs:1225-1496 | from an accepted block, in whatever order it was written, exactly what each attribute says is read, and nothing where there is none |
| ForeignAttributes.FirstFaultDecides | src/bgp.rs:1252-1496 | the first repeated or faulty attribute decides the subcode, whatever follows: 1 repeated, 2 unrecognised, 4 flags, 5 length, 6 origin, 10 network field, 11 AS_PATH |
| ForeignAttributes.BrokenEndIsRefused | src/bgp.rs:1252-1297 | a block that ends inside an attribute is refused |
| ForeignAttributes.UnknownOptionalIsIgnored | src/bgp.rs:1478-1488 | an optional attribute of an unknown code, given once, changes nothing, wherever it stands and whatever else the block holds |
| ForeignAttributes.UnknownWellKnownIsRefused | src/bgp.rs:1478-1488 | without the optional flag it is refused as unrecognised if nothing before it is refused |
| ForeignAttributes.MissingIff | src/bgp.rs:1520-1573 | with sound attributes an UPDATE is refused as lacking one exactly if it announces without ORIGIN or AS_PATH, or IPv4 prefixes without NEXT_HOP; otherwise it is what was written |
| ForeignAttributes.EncodedIsStandard | src/bgp.rs:934-1043 | what this speaker writes is such a block: exactly the attributes called for, AS4_PATH only where an AS number does not fit, each with its standard flags |
| ForeignMessages.PrefixesDecodedIff | src/bgp.rs:511-536 | a prefix list is read exactly from the octets that spell it, bits past the length ignored |
| ForeignMessages.BodyIff | src/bgp.rs:1133-1219 | any UPDATE body is accepted exactly when its three fields spell prefixes, sound attributes and prefixes and nothing required is lacking |
| ForeignMessages.MessageIff | src/bgp.rs:1825-1862 | a frame is a message exactly with an all-ones marker, a known type and its true length within the bounds of that type |
| Framer.HeadIsStable | src/bgp.rs:2022-2045 | more bytes never change a verdict on the head of the buffer |
| Framer.HeadIff | src/bgp.rs:2022-2045 | the head of a buffer is refused exactly for its marker or its length, is a message exactly when that many octets are there, and is awaited otherwise |
| Framer.WaitingIsShort | src/bgp.rs:1979-1979 | a waiting buffer is shorter than one message and has room for 4097 more bytes |
| Framer.SerializedIsWhole | src/bgp.rs:1825-1846 | every written message is one frame |
| Framer.SameBytesSameFrames | src/bgp.rs:2003-2045 | frames and remainder depend on the concatenated bytes alone |
| Framer.FramesAreTheMessagesSent | src/bgp.rs:2003-2045 | on a valid stream the frames are a prefix of the messages sent and no error occurs |
| Framer.BgpFramer.constructor | src/bgp.rs:1992-1999 | the cap is at least one message |
| Framer.BgpFramer.Push | src/bgp.rs:2003-2017 | refused exactly when the cap would be exceeded, then nothing changes |
| Framer.BgpFramer.NextFrame | src/bgp.rs:2022-2045 | takes one whole message; frames and buffer still add up to the bytes received |
| Framer.BgpFramer.PeekFrame | src/bgp.rs:2053-2074 | gives the same answer and consumes nothing |
| Framer.BgpFramer.Drain | src/bgp_router.rs:1631-1646 | after draining fewer than 4096 bytes remain unless the stream is broken |
| Framer.BatchRefusedIff | src/bgp_router.rs:1724-1741 | a batch of reads is refused exactly when all of it together exceeds the cap |
| Framer.DrainedBatches | src/bgp_router.rs:1724-1741 | up to 4097 bytes always fit, three full messages at once never do |
| Framer.FullMessagesAreRefused | src/bgp_router.rs:1724-1741 | three such messages exist and are refused by every drained framer |
| Collision.NextKeeps | src/bgp_router.rs:1390-1440 | every step keeps the invariant of the two ends |
| Collision.RunKeeps | src/bgp_router.rs:1390-1440 | so does every run |
| Collision.SessionsMeetOrAreAbandoned | src/bgp_router.rs:1149-1378 | two sessions on different connections only if each speaker has abandoned its own |
| Collision.AnchoredNext | src/bgp_router.rs:1324-1378 | resolution never moves the speaker with the higher identifier |
| Collision.AtMostOneSession | src/bgp_router.rs:1324-1378 | while the higher identifier's session is not torn down, both are never confirmed on different connections |
| Collision.BothKeepTheSame | src/bgp_router.rs:1238-1378 | in either order both keep the connection the higher identifier dialled, its OPEN unread |
| Collision.WinnerIsNeverDropped | src/bgp_router.rs:1149-1378 | without teardowns and failures that connection stays alive at both ends |
| Collision.OneTeardownCrosses | src/bgp_router.rs:2580-2601 | a run in which only the higher identifier tears down and the two confirm on different connections |
| Collision.OneConnectionIff | src/bgp_router.rs:1324-1378 | if a speaker's session never ends both only ever meet on one connection, in every run, if and only if that speaker has the higher identifier |
| Collision.EstablishedDisplacedIff | src/bgp_router.rs:1324-1378 | an Established session is displaced exactly by servicing a held connection on which a higher identifier's OPEN waits |
| Collision.NothingDisplacedIff | src/bgp_router.rs:1324-1378 | in every run without an end of a speaker's session nothing Established is displaced, if and only if that speaker has the higher identifier |
| Collision.ResetCanOvertakeTheOpen | src/bgp_router.rs:1421-1433 | a run in which the loser's teardown also drops the winner |
| CollisionEffect.AcceptEffect | src/bgp_router.rs:1149-1230 | the neighbour's connection becomes the transport of a speaker without one, is held while a session is being set up, and is refused otherwise |
| CollisionEffect.ReceiveEffect | src/bgp_router.rs:1745-1987 | the neighbour's OPEN is answered, a KEEPALIVE establishes the session or keeps it up, any other message ends it |
| CollisionEffect.ServiceEffect | src/bgp_router.rs:1238-1378 | a held connection is let go as soon as it died or its first message is there, and takes the transport's place exactly if that is the OPEN of a higher identifier and the transport was dialled here |
| CollisionEffect.EstablishedIsEarned | src/bgp_router.rs:1745-1987 | in every run an Established session has read the neighbour's OPEN and KEEPALIVE, in this order, on a connection with a finished handshake, having sent its own OPEN |
| Evpn.Antisymmetric | src/bgp_evpn.rs:450-499 | the comparison is antisymmetric and never ties two sources |
| Evpn.Transitive | src/bgp_evpn.rs:450-499 | and transitive |
| EvpnContents.LessIffOutranks | src/bgp_evpn.rs:450-499 | one EVPN path beats another exactly by mobility number, local, local preference, length, origin, cluster list, router identifier, address |
| Evpn.SelectsTheLeast | src/bgp_evpn.rs:501-509 | a candidate is selected if and only if it is the least, so there is exactly one |
| Evpn.WinnerFollowsTheHost | src/bgp_evpn.rs:450-475 | the winner has the highest mobility number, is local if a path with that number is, else has the highest preference |
| Evpn.SelectionIgnoresOrder | src/bgp_evpn.rs:501-509 | for every permutation |
| Evpn.ReflectionChainPreserves | src/bgp_router.rs:3720-3772 | reflection leaves everything compared before CLUSTER_LIST alone |
| Evpn.DirectCopyRanksFirst | src/bgp_evpn.rs:480-493 | the injector's copy outranks every reflected one |
| Evpn.ExportIsRight | src/bgp_router.rs:3720-3772 | an EVPN path is withheld exactly as the IPv4 rule says without policy, and otherwise goes out with its next hop untouched and the attributes of an external, internal or reflected advertisement |
| Evpn.SameRouteIff | src/bgp_evpn.rs:410-430 | two EVPN paths are the same route exactly when nothing but the time of receipt differs |
| EvpnEffect.AnnouncementEffect | src/bgp_router.rs:3330-3476 | the whole effect of an EVPN announcement: under every announced key the last route announced under it, as received, or nothing if no target of it is imported and not everything is retained; every other key keeps its path; the ceiling is answered exactly when exceeded; unusable or looping attributes change nothing |
| EvpnRib.RemovalEffect | src/bgp_router.rs:3246-3262 | the listed routes of the peer go, nothing else does, and the flag is set by exactly a route that goes |
| EvpnEffect.AttachEffect | src/bgp_router.rs:3003-3020 | attaching or detaching a route changes just that and calls for a decision exactly if it changes anything |
| EvpnEffect.RoleEffect | src/bgp_router.rs:687-725 | a change of role marks every stored EVPN path of the peer anew |
| EvpnEffect.DownEffect | src/bgp_router.rs:2650-2662 | the end of a session keeps the EVPN table for a restart or empties it, flagging exactly a loss |
| EvpnContents.DecisionContents | src/bgp_router.rs:3499-3571 | each table serves exactly the keys with something that counts, with the path that outranks all others that count: of everything in the advertisement RIB, of hosted and importable ones in the Loc-RIB |
| EvpnContents.PollLeavesTablesBacked | src/bgp_router.rs:3499-3571 | after every poll of every run from the start every entry is an attached route or one still stored for its peer, and the advertisement RIB serves exactly those keys |
| EvpnContents.WithdrawnIsForgotten | src/bgp_router.rs:3246-3262 | a route withdrawn, swept or purged is in no table as that peer's after the next poll, and in none at all unless attached here or stored from another |
| EvpnContents.UnwantedIsForgotten | src/bgp_router.rs:3413-3436 | so is a route announced again with no imported target left, unless everything is retained |
| EvpnRib.ImportAllGood | src/bgp_router.rs:3413-3476 | an import never marks a path importable that matches no target |
| EvpnRib.DecideGood | src/bgp_router.rs:3499-3571 | the decision files only matching paths locally and serves every stored key |
| EvpnRib.ApplyGood | src/bgp_router.rs:2966-3020 | every operation keeps the invariant |
| EvpnRib.TenantsStayIsolated | src/bgp_router.rs:3499-3571 | with a clear flag every remote Loc-RIB path carries an imported target, and every stored key has an advertised winner |
| EvpnRib.NothingImportedNothingRemote | src/bgp_router.rs:3499-3518 | with no target imported nothing remote is programmed while everything stored is still advertised |
| EvpnCoherence.OpFlagged | src/bgp_router.rs:3413-3476 | every operation other than a poll flags what it changes in the stored routes, up to time of receipt |
| EvpnCoherence.RejudgedIff | src/bgp_router.rs:2367-2381 | when one peer's EVPN paths change from stale to fresh or back, both tables stay right if and only if every entry for its keys stands, which the tables before tell |
| EvpnCoherence.DownIsCoherentIff | src/bgp_router.rs:2650-2659 | losing a session while its EVPN routes are kept never sets the flag; both tables stay right if and only if no entry was the now stale path beside a fresh one and none is beaten by a path that competes again |
| EvpnCoherence.CoherentThroughoutIff | src/bgp_router.rs:1103-1106 | in every run from the start, with any peers retained, a clear flag always means right tables if and only if no unflagged announcement, session loss or change of retention lets an entry fall |
| EvpnCoherence.PollLeavesTablesCoherent | src/bgp_router.rs:3499-3571 | after every poll of such a run the advertisement RIB holds for each key the one least of all candidates, the Loc-RIB the one least of the usable ones, and both nothing else |
| EvpnCoherence.NothingRetainedIsHarmless | src/bgp_router.rs:2367-2381 | every run without retained peers is such a run |
| EvpnRuns.StaleRouteStaysInUse | src/bgp_router.rs:2650-2659 | in runs from the start a kept, stale route stays advertised beside a fresh one through any polls |
| EvpnRib.AddTargetStaysAccurateIff | src/bgp_router.rs:2966-2972 | after adding a target the marks are right exactly when no stored path was waiting for it |
| EvpnRib.AwaitingRouteStaysOut | src/bgp_router.rs:2966-2972 | a waiting path is advertised but its key is in the Loc-RIB only if hosted here or stored importable from another peer, and exactly then while none of its paths is stale |
| EvpnRuns.LateTargetRun | src/bgp_router.rs:2966-2972 | in runs from the start a route heard before its target is imported is left out after the next poll |
| EvpnRib.RemoveTargetKeepsIff | src/bgp_router.rs:2980-2996 | a stored path survives the removal exactly when it matches a remaining target |
| EvpnRuns.ReflectorForgets | src/bgp_router.rs:2980-2996 | in runs from the start a reflector stores and advertises a client's route, and removing the one imported target empties every table |
| EvpnRib.EvpnRouter.Withdraw | src/bgp_router.rs:3246-3262 | removes exactly the listed routes of the peer and flags exactly a removal |
| EvpnRib.EvpnRouter.ImportRoutes | src/bgp_router.rs:3413-3476 | the import loop equals its function, ceiling included |
| EvpnRib.EvpnRouter.RemoveImportTarget | src/bgp_router.rs:2980-2996 | whole new state after removing a target |
| EvpnRib.EvpnRouter.RunDecisionProcess | src/bgp_router.rs:3499-3571 | both tables come out as decided from scratch |
| AddPathRib.DecisionIsCanonical | src/bgp_add_path.rs:268-308 | the decision keeps the paths, orders them, and marks exactly one best and the first other next hop as backup |
| AddPathRib.BestIsPreferred | src/bgp_add_path.rs:280-297 | the path marked best outranks every other: local preference, length, origin, MED, peer address, path identifier |
| AddPathRib.HistoryDoesNotMatter | src/bgp_add_path.rs:268-308 | the list is determined by the set of paths |
| AddPathRib.PutEffect | src/bgp_add_path.rs:232-243 | insertion replaces the path with the same peer and id, else adds one |
| AddPathRib.DropEffect | src/bgp_add_path.rs:246-265 | withdrawal removes exactly that path |
| AddPathRib.BackupTakesOver | src/bgp_add_path.rs:300-307 | withdrawing all paths through the primary next hop, in any order, makes the flagged backup the best path or empties the prefix |
| AddPathRib.FailoverIsPredicted | src/bgp_add_path.rs:311-319 | so the forwarding answer before predicts the one after |
| AddPathRib.RecomputeDecision | src/bgp_add_path.rs:268-308 | the loops compute that decision |
| AddPathRib.AddPathTable.InsertPath | src/bgp_add_path.rs:232-243 | whole new table, still canonical |
| AddPathRib.AddPathTable.WithdrawPath | src/bgp_add_path.rs:246-265 | whole new table, and whether there was such a path |
| AddPathRib.AddPathTable.GetPicForwarding | src/bgp_add_path.rs:311-319 | the search for the marks finds the primary and the backup next hop |
| AtsShaper.DurationBounds | src/ats.rs:43-50 | a duration is the least number of microseconds that covers the bits |
| AtsShaper.EligibilityNeverRegresses | src/ats.rs:58-68 | eligibility is never before arrival or the previous frame, saturation included |
| AtsShaper.ExactArrival | src/ats.rs:69-96 | without clamping both branches are one formula |
| AtsShaper.EarliestIffItFits | src/ats.rs:80-86 | a frame gets the earliest moment the token bucket covers it exactly when it fits the bucket |
| AtsShaper.FrameTakesItsTokens | src/ats.rs:88-95 | the level then drops by its duration and refills with time |
| AtsShaper.FreshIsFull | src/ats.rs:22-41 | a new shaper's bucket is full, so a first frame that fits is due on arrival |
| AtsShaper.LevelStaysInBucketIff | src/ats.rs:69-96 | in any run the level a frame leaves behind is inside the bucket exactly when the frame fits into it |
| AtsShaper.RecoveryIsBounded | src/ats.rs:58-96 | frames i to j need at most one bucket plus the time between them |
| AtsShaper.SingleFrameBoundedIff | src/ats.rs:58-96 | a single frame obeys that exactly when it fits |
| AtsShaper.TrafficIsBounded | src/ats.rs:43-96 | bits in any window are at most burst plus rate times window plus rounding |
| AtsShaper.FreshTrafficIsBounded | src/ats.rs:22-41 | the same for a new shaper, up to any frame whose time is below the clock's maximum |
| AtsShaper.AtsStreamShaper.ComputeEligibilityTime | src/ats.rs:58-96 | whole new shaper state and the frame's time |
| UrgencyScheduler.MostUrgentIsFirstLeast | src/ats.rs:156-163 | the chosen frame is the first of the least eligibility time among those due |
| UrgencyScheduler.EnqueueEffect | src/ats.rs:130-153 | a frame of a known stream joins the queue's end with the time its shaper gives it; any other is refused |
| UrgencyScheduler.DequeueEffect | src/ats.rs:156-168 | one due frame leaves and the rest stay in order; none leaves exactly when none is due |
| UrgencyScheduler.StreamsLeaveInOrder | src/ats.rs:130-168 | per stream, frames sent and queued are the frames accepted, in order |
| UrgencyScheduler.NeverEarly | src/ats.rs:156-168 | a frame leaves only when due, and none leaves only when none is due |
| UrgencyScheduler.FirstRegistrationStands | src/ats.rs:121-127 | a stream keeps its first shaper, moved only by its own frames |
| UrgencyScheduler.RegisteredTrafficIsBounded | src/ats.rs:121-153 | the accepted frames of a registered stream obey its burst and rate in every run, by their own stamped times |
| UrgencyScheduler.UrgencyBasedScheduler.RegisterShaper | src/ats.rs:121-127 | whole new state; true only for a new stream |
| UrgencyScheduler.UrgencyBasedScheduler.EnqueueFrame | src/ats.rs:130-153 | whole new state, or refusal of an unknown stream |
| UrgencyScheduler.UrgencyBasedScheduler.DequeueEligibleFrame | src/ats.rs:156-168 | the scan finds the most urgent frame; the counter saturates |
| Capabilities.BlockRoundTripIff | src/bgp_caps.rs:490-527 | distinct capabilities are read back exactly when there are at most 64 |
| Capabilities.ParamsRoundTripIff | src/bgp_caps.rs:433-527 | a list that fits its parameter survives exactly when it has at most 64 entries |
| Capabilities.SixtyFiveAreRefused | src/bgp_caps.rs:490-527 | 65 distinct capabilities of 130 octets together are refused |
| Capabilities.ParamsRoundTrip | src/bgp_caps.rs:433-488 | an OPEN's capability list survives |
| Capabilities.BothEndsAgree | src/bgp_caps.rs:585-611 | both ends hold the same families, AS number width and refresh procedures |
| Capabilities.AgreedIffOffered | src/bgp_caps.rs:585-611 | agreed on is exactly what both lists offer, IPv4 unicast by default; enhanced refresh needs plain refresh |
| Capabilities.ReadIffRightLength | src/bgp_caps.rs:261-318 | a capability of anybody's is read as what its octets say, and refused exactly when a known one has the wrong length |
| Capabilities.EncodeOptParams | src/bgp_caps.rs:433-447 | the encoder's loop equals the specified encoding |
| Capabilities.ParseCapabilityBlock | src/bgp_caps.rs:490-527 | the block loop equals the specified parse |
| Capabilities.ParseOptParams | src/bgp_caps.rs:454-488 | the parameter loop equals the specified parse |

## Left out

- TCP, `SocketRuntime` and the dial timers: connections are channels whose ends fail and abort at arbitrary moments.
- `sync_fib`, `sync_ipv6_fib` and `RoutingTable`: the forwarding table's source is not part of this model.
- The IPv6 unicast copy of the RIBs in src/bgp_ipv6.rs and the IPv6 export next hop (src/bgp_router.rs:4168-4172), which is rewritten under next-hop-self even when reflecting: the same structure again.
- Retention of the IPv6 and EVPN tables: the speaker model keeps which families are stale but only the IPv4 table; the EVPN model treats staleness as an arbitrary input.
- The local side of a graceful restart and its End-of-RIB messages (src/bgp_router.rs:2274-2365), which are sent without regard to earlier failed writes.
- Hold and keepalive timers, NOTIFICATION contents and `OPEN` validation beyond the identifier: they enter as teardowns at arbitrary moments.
- Route policy as a rule list, event log, counters, summaries and all formatting.
- Changes of the cluster ID inside `Network`: stored paths are not checked again by the code (src/bgp_router.rs:662-670), so cluster IDs are fixed there; the single-speaker runs include them.
- EVPN NLRI octets, extended community octets, and the ADD-PATH NLRI and capability codecs: flat formats.
- Splitting an UPDATE at 4096 octets: the code does not, so the size is a hypothesis of the round trip.
- `BgpMessage` and `BgpRib` at the top of src/bgp.rs: the strict layer supersedes them.
- The remaining protocol files of the repository (CoAP, CDP, CFM, BGP-LS, BFD, CBS, 5G engines): separate small codecs and tables.
- EvpnRib.EvpnRouter.RemoveImportTarget: filters table by table where the code collects the paths first and then removes them one by one.
- RefreshEndToEnd.RefreshConverges: needs every announcement accepted by checks, limit and policy; without that, PeerSessions.RefreshIsExact still holds.
- AtsShaper.TrafficIsBounded: only while no eligibility time is cut to 64 bits; for a new shaper AtsShaper.FreshTrafficIsBounded reads that off the last frame's own time.
- Reannouncement.RepeatIsCoherentIff: where no three learned paths of the prefix beat each other in a circle (`Decision.NoCircleIff`); in a circle the winner is whatever the address order gives, before and after.
- RepeatedUpdates.UpdateIsCoherentIff: the same restriction, for each repeated prefix, and a clock that does not run backwards.
- ReplacementOpen.OpenIsCoherentIff: the same restriction, for every prefix of the peer.
- CoherentRuns.CoherentThroughoutIff: the same restrictions at the steps concerned.
