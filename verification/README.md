# dash-router: a model and its proofs

dash-router is a gossip protocol for single-author logs. Every node floods two kinds of message: a Want says what a
node holds, so that everything else in its scope is asked for; a Have carries ops. Seen-sets with a time to live end
the floods. A node composes a router (pure state and timers) with a capped relay store for channels it does not
subscribe to and the application's own store for those it does. The network may reorder, lose and repeat messages.

This project models that protocol, from the interval lists at the bottom to whole networks at the top, and proves what
it is for: that an authored op reaches everybody, that what is wanted is asked of everybody, that floods end, that
nothing is made up on the way, that a coverage question over unboundedly many authors is decided exactly, that cutting
a Want to fit a byte budget does not change what it asks, that any sequence of calls to the production shell is a run of
the model machine, that what arrives is reported exactly once and what is appended is pushed in time, and that failing
stores cost answers but never data.

`dafny verify dfyconfig.toml` checks the whole project.

## Layers

| files | what they model |
|---|---|
| `Ranges`, `LogRanges` | sets of sequence numbers as strictly increasing boundary lists over u32, nested by channel and author |
| `Interest`, `Coverage` | what a Want asks for, and the procedure that decides whether others already ask for it |
| `Router`, `RouterLaws`, `RouterMachine` | one node's protocol state machine: the step function, its laws per step and over runs, and the transition that runs |
| `Storage`, `Hydrate` | stores of ops with unit accounting; fetching, merging, grouping and parking ops |
| `Node`, `NodeInvariant`, `NodeLaws`, `Deliveries`, `NodeMachine` | the router composed with two stores: the step function, what it keeps, does to each copy, sends and reports |
| `Prufer`, `Topology` | random trees, connectedness |
| `Network`, `Flood`, `FloodCoverage`, `FloodTermination`, `FloodSettles`, `WantFlood`, `Provenance` | networks of nodes and claims over whole runs |
| `Slicing`, `PackWant`, `PackedAsk`, `PackHave` | fitting messages into a byte budget |
| `Clock`, `Paced` | the shell's tick-and-fire loop, and the node machine with its pushes put off that it runs |
| `Faults`, `Shell`, `Serving` | the shell's node core: store calls that fail or fall short, the handlers, and the loop that calls them |
| `RowKeys`, `Disk`, `DiskRelay` | the disk store: byte keys, an incremental summary of a table, and what it answers the shell |

## How the model reads the program

- Pure folds and expressions are functions; state that is updated in place is a class (`Net`, `Topology`, `NodeCore`,
  `DiskRelayStore`); a loop is a method proved equal to a function or to its meaning. The router and the node machine
  take their state by value, as the source does, so their transitions are methods on values.
- Sequence numbers and author prefixes are integers up to 2^32 - 1, with the open tail and the largest number treated as the source
  does. An author is its prefix and the rest of its id, and there are unboundedly many authors to a prefix. Channels, node ids
  and times are naturals; any finite order embeds in them. Intervals and lifetimes are positive where the claim needs it.
- A run is a list of states, actions and outputs, each step allowed by the step function. Claims over runs quantify over
  all of them; nothing bounds their length.
- A store call draws its fate from an arbitrary script (`faults`). A failed write may have happened all the same, and a
  failed eviction may have removed part of what it was asked to; a failed disk transaction changes nothing. A relay call may
  also report success and fall short: a write not done, a read of part of the store, a usage that is too low, a delta that is
  too high. That is how the disk store answers, since the bridge to the fallible interface turns every outcome into success
  (crates/dash-router/src/storage.rs:54-92); `DiskRelay` proves it call by call. `Reliable` means every call succeeds in full,
  `Answering` that none reports a failure, `Forthright` that no usage read is too low.
- The shell debounces its pushes, which `NodeMachine` does not. Its refinement is to `Paced`, whose moves are the node
  machine's own actions and a flush, the push (`Node.PushRanges`) of everything appended since the last one.
- Interval sampling, random seeds, decoding of bytes, the local-network check and the sender's transport identity are
  inputs. A decoded message is taken to satisfy its type's invariant: `Ranges` derives its deserialization without a check
  (crates/dash-router-core/src/ranges.rs:25), and what an ill-formed one would do is not modelled.
- For packing, the encoded size of a Have is arbitrary, save that more ops in front never make the last one cheaper; a
  one-entry Want is its channel's share, one varint per bound, and the size of its have, which grows with the have.
- The ranking `key` of flights stands for their derived order.

## Where the code and its comments differ

- The comment at crates/dash-router/src/disk.rs:468-472 says an open range cannot occur in the disk summary. It does for a log
  that holds sequence number 2^32 - 1, and `usage` then counts the log for nothing. `Disk.DiskRelayStore.UsageOf` gives the exact
  condition.
- The comment at crates/dash-router/src/shell.rs:745-751 says tracked usage can only over-count. The tracking can, but the
  disk store's `usage` that it starts from may be too low, and the cap is then overrun, with no failure anywhere in the case
  above. `DiskRelay.CapSafeIff` gives the exact condition, `DiskRelay.OverrunsByOne` the run.
- The comment at crates/dash-router-core/src/router.rs:378-380 says a node's own Want limits an unchanged interest to one Want
  per TTL. Entries it left out because others were asking are sent again once those others are forgotten.
  `Router.UnchangedInterestIsSilent` gives the exact condition, `Router.UnchangedInterestFiresAgain` runs on which it fails.
- The comment at crates/dash-router/tests/conformance.rs:384-388 says the node machine refuses an empty eviction. It takes
  it and changes nothing.
- `pack_want` is documented to split to fit (crates/dash-router/src/pack.rs:81-92). When the have is not empty and a pure want with five-byte
  bounds does not fit, every claim is shrunk away and the empty slices are sent whether or not they fit.
  `Slicing.BudgetHolds` gives the exact condition, `Slicing.SliceOverBudget` a concrete input.
- The comment at crates/dash-router/src/pack.rs:224-227 describes a pure want as the last resort after truncation. The branch
  is reached only for an entry that was pure to begin with, and from `pack_want` only to drop it: the channel then goes unasked, though the
  documentation promises the emitter is never under-answered. `PackedAsk.NothingUnaskedIff` gives the exact condition.
- `covered_by` asks the scopes to tile the entry's scope even where a prefix has no author.
  `Coverage.VerdictInSpace` says exactly what that costs.

## Model

| member | source | states |
|---|---|---|
| FloodSettles.AuthoredOpReachesEveryone | crates/dash-router-net-model/src/net.rs:121-200 | On a connected network at rest with respect to an op and with in-flight room for the bound, a run that authors it, loses no copy of it and from then on only delivers is no longer after the authoring than an explicit bound, and once nothing more can be delivered every node holds the op |
| FloodCoverage.FloodReachesEveryNode | crates/dash-router-net-model/src/net.rs:121-200 | On a connected topology, over any run that drops, evicts and sheds no copy of an op (and otherwise reorders, duplicates, subscribes, authors, expires records at will), once the op has been authored or has arrived somewhere and no flight carries it, every node holds it |
| FloodCoverage.StepFloods | crates/dash-router-net-model/src/net.rs:170-199 | The flood invariant, kept by every network step: whoever has broadcast the op holds it, and each of its neighbours has broadcast it too or has a copy on the way; only those who broadcast it have it in their seen-set |
| NodeFlood.StepSpreads | crates/dash-router-core/src/node.rs:223-313 | One node action: it holds what it sends, loses nothing it held, enters an op in its seen-set exactly when it sends it, and sends on whatever it is brought unless its seen-set already has it |
| FloodTermination.FloodingTerminates | crates/dash-router-core/src/router.rs:445-462 | With deliveries and losses only, a run is at most as long as the flights plus the largest degree times the number of (node, circulating key or interest) pairs still new to the node |
| FloodTermination.DeliveryDecreases | crates/dash-router-net-model/src/net.rs:181-188 | Every delivery and every loss strictly decreases that measure, and puts nothing new into circulation |
| FloodTermination.RecvConverges | crates/dash-router-core/src/router.rs:421-462 | A receipt forgets nothing, sends at most one message, and what it sends was new to the node before and is not afterwards |
| FloodSettles.FloodRunsToItsEnd | crates/dash-router-net-model/src/net.rs:121-152 | If the cap has room for the bound, then for as long as anything is in flight any of it can be delivered, so the bounded run can only stop with nothing in flight |
| FloodSettles.AddressedOverRun | crates/dash-router-net-model/src/net.rs:124-151 | Over every run, flights go only to nodes of the network and never to their own sender |
| WantFlood.WantReachesEveryNode | crates/dash-router-net-model/src/net.rs:121-200 | On a connected topology where nobody has been asked for a key, over any run that drops no ask for it (and otherwise reorders, duplicates, forgets Wants at will), once some node has broadcast a Want asking for it and no flight carries such an ask any more, every node has been asked for it |
| WantFlood.StepKeepsAsking | crates/dash-router-net-model/src/net.rs:170-199 | The invariant behind it, kept by every network step: each neighbour of a node that has broadcast an ask has broadcast it too or has one on the way, and whoever is asked is among those |
| WantFlood.StepSpreadsAsk | crates/dash-router-core/src/node.rs:223-313 | One node action: a node comes to be asked for a key only by broadcasting an ask for it; brought an ask by a Want, it has been asked already or broadcasts it; and what it broadcasts it is asked from then on |
| WantFlood.WantIsRelayed | crates/dash-router-core/src/node.rs:245-252 | A received Want is broadcast again, unchanged and under this node's name, exactly when it asks for something no Want seen here asks for; otherwise nothing is put out, and either way only the router's state changes |
| Provenance.EverythingIsGenuine | crates/dash-router-net-model/src/net.rs:170-199 | In every reachable state every op in any store or flight is one put in by an append or a native sync under that key, possibly without its payload, whatever is lost, repeated or reordered |
| Provenance.NodesAgree | crates/dash-router-core/src/node.rs:393-412 | With one op per key, any two nodes agree on the header of every op both hold, and on its payload where both have it |
| Provenance.UnheldChannelStaysUnheard | crates/dash-router-core/src/router.rs:432-441 | If nothing is ever put in under a channel, then in no reachable state does a flight list an author under it, does a node count it as heard, or hold anything under it |
| Network.Net.InsertSorted | crates/dash-router-net-model/src/net.rs:154-157 | Keeps the in-flight list sorted and adds exactly one flight to its multiset |
| Network.Net.TakeFlight | crates/dash-router-net-model/src/net.rs:96-100 | Removes exactly the flight at the position, or fails past the end and changes nothing |
| Network.Net.Broadcast | crates/dash-router-net-model/src/net.rs:136-147 | Adds one flight per neighbour, refused exactly when that would exceed the cap |
| Network.Net.Act | crates/dash-router-net-model/src/net.rs:173-179 | The in-place machine does a node action exactly as the multiset step relation, and refuses exactly when that does, receipts included |
| Network.Net.Deliver | crates/dash-router-net-model/src/net.rs:181-184 | Likewise for delivering the flight at a position |
| Network.Net.Drop | crates/dash-router-net-model/src/net.rs:186-188 | Likewise for losing one |
| Network.Net.Duplicate | crates/dash-router-net-model/src/net.rs:190-196 | Likewise for duplicating one |
| Network.StepFlights | crates/dash-router-net-model/src/net.rs:170-199 | Flight by flight and node by node: a delivery or a loss takes out its one flight, a repetition adds one more, whoever acts adds each of its broadcasts once per neighbour and takes the step its machine takes, and every other flight and node stays |
| Network.PassesThrough | crates/dash-router-net-model/src/net.rs:136-152 | Every effect that is no broadcast is handed on as often as it occurs, in the name of the node that acted, and nothing else is |
| Network.StepsIffPossible | crates/dash-router-net-model/src/net.rs:124-196 | A step is refused exactly when its flight is not under way, its node is not there or refuses, a receipt has no flight behind it, or what it puts under way does not fit the cap |
| Network.SortedUnique | crates/dash-router-net-model/src/net.rs:13-16 | Under a ranking that tells flights apart, a multiset of flights has one sorted list, so equal states have equal lists |
| NodeInvariant.StepKeepsInv | crates/dash-router-core/src/node.rs:223-313 | Every action keeps: the router's held snapshot is structurally relay union ext, its open channels are the subscriptions, the relay holds nothing under a subscribed channel and is within its cap |
| NodeInvariant.InvOverRun | crates/dash-router-core/src/node.rs:112-129 | So it holds in every state of every run of a fresh node |
| NodeInvariant.RecvNeverErrors | crates/dash-router-core/src/node.rs:245-270 | A message from another node is never refused: not by the router, and over a whole Have not by the relay machine, which checks each ingest against its real usage while ops are let in on the tracked one |
| NodeInvariant.SubscribeConserves | crates/dash-router-core/src/node.rs:278-289 | Subscribing changes neither what is held nor, for any held op, whether its payload is |
| NodeLaws.StepCopies | crates/dash-router-core/src/node.rs:223-313 | For every action and every key, the copies in both stores afterwards from those before: a garbage collection or eviction takes exactly its ranges out of its one store, a payload eviction exactly their payloads, a subscription merges the relay's copies of the channel into the application's keeping any payload, an append or native sync gives one op to the application's store, a Have gives each of its ops to its own side unless the relay has no room for it, and everything else touches neither store; and what is subscribed changes only by subscribing and unsubscribing |
| NodeLaws.StepSendsCopies | crates/dash-router-core/src/node.rs:393-411 | Whatever a node sends is in its own name, and every op in a Have it sends is one of its copies, with its payload whenever either store has that |
| NodeLaws.StepsIffPossible | crates/dash-router-core/src/node.rs:226-260 | A node refuses its own messages, router actions that only messages and the stores may cause, and what the router refuses; nothing else |
| Deliveries.ReportedExactly | crates/dash-router-core/src/node.rs:371-386 | From the invariant, for every action and key: the key is reported to the application exactly once if a Have brings it, its channel is subscribed to and it was in neither store, and not at all otherwise |
| NodeInvariant.IngestAllFacts | crates/dash-router-core/src/node.rs:334-361 | Taking in a Have loses nothing, adds only its ops, each on its own side, keeps the cap, and holds everything it does not shed |
| Node.IngestParked | crates/dash-router-core/src/node.rs:334-361 | The batch loop with its usage read once and tracked does what the per-op definition does, and the relay machine never refuses an ingest it attempts |
| Node.TrackingIsExact | crates/dash-router-core/src/node.rs:346-359 | Usage read once and tracked stays the real usage op by op, so the whole batch is the per-op definition and none of it is refused |
| Node.Migrate | crates/dash-router-core/src/node.rs:278-286 | Fetching, ingesting and evicting a channel's relay ops leaves the relay without the channel and ext with the better copy of each op |
| NodeMachine.Transition | crates/dash-router-core/src/node.rs:223-313 | The transition as it runs, loops over stores included, is the node's step function, refusals and effect order included; what that function does is stated key by key in `NodeLaws` and `Deliveries` |
| RouterMachine.Transition | crates/dash-router-core/src/router.rs:316-465 | The transition as it runs is the router's step function, refusals and effect order included; what that function does is stated action by action and key by key in `RouterLaws` |
| RouterLaws.StepsIffPossible | crates/dash-router-core/src/router.rs:319-447 | The router refuses an action exactly when a tick is empty or passes a timer, a timer to be armed is armed, a Have timer has nothing held to answer with, a timer to be fired is not at zero, a message is its own, or a push is empty |
| RouterLaws.WantReceived | crates/dash-router-core/src/router.rs:421-443 | A Want is passed on, unchanged, exactly when it asks for something no seen Want asks for; its asks are remembered for a full lifetime; exactly the channels it lists an author under and the node holds nothing under become heard, and so of interest, for a full lifetime from then, the others keep their time; nothing else changes |
| RouterLaws.HaveReceived | crates/dash-router-core/src/router.rs:445-462 | What a Have lists is held from then on, exactly what was not held is accepted, exactly what the seen-set lacks is passed on, the accepted part coming first, and the Have is remembered as its sender's last; nothing else changes |
| RouterLaws.PushDone | crates/dash-router-core/src/router.rs:400-410 | What is pushed is held from then on, exactly what the seen-set lacks is sent, and what is sent is remembered as the node's own last Have; nothing else changes |
| RouterLaws.WantFired | crates/dash-router-core/src/router.rs:370-384 | A fired Want has an entry for exactly the channels of interest under which something is neither held nor asked for by others, asks for exactly what is not held there, and lists an author exactly where something is held; it is remembered for a full lifetime |
| RouterLaws.HaveFired | crates/dash-router-core/src/router.rs:386-398 | A fired Have lists exactly what is held, asked for by a seen Want, and in nobody's last Have; it is remembered as the node's own last and as passed on |
| RouterLaws.TimersRun | crates/dash-router-core/src/router.rs:319-327 | A tick puts out nothing, takes its length off both armed timers, arms none, and touches neither what is held nor what is open |
| RouterLaws.HavesAreLastWitnessed | crates/dash-router-core/src/router.rs:246-255 | In every state of a run that starts with none, the record of a node is the last Have the run witnessed of it (received from it or, of this node's own, fired or pushed), with exactly the time left that its lifetime leaves, and there is no record once that is over |
| RouterLaws.FiredHaveIsExact | crates/dash-router-core/src/router.rs:213-224 | Over any run of a fresh router, a fired Have carries a key if and only if it is held, a live Want asks for it, and no node's last Have of less than a lifetime ago lists it |
| RouterLaws.WitnessedIsNotFired | crates/dash-router-core/src/router.rs:386-398 | After a Have listing a key is sent or received, no Have that fires carries the key until the lifetime has passed or a later Have of the same node that does not list it has taken its place |
| Router.InterestSources | crates/dash-router-core/src/router.rs:184-195 | A node is interested in exactly the channels it subscribes to, has recently heard, or holds something under, and asks under each for exactly what it does not hold |
| Router.OneRelayPerTtl | crates/dash-router-core/src/router.rs:400-410 | In any run, a receipt or push sends a key again only when at least the Have TTL has passed since it was last sent |
| Router.RecordsLiveOverRun | crates/dash-router-core/src/router.rs:239-262 | In every reachable state every record has time left, and no more than it was given |
| Router.TickExpiresExactly | crates/dash-router-core/src/router.rs:328-349 | A tick forgets a record, of any of the four kinds, exactly when its own time is up, and otherwise takes the tick off what it has left |
| Router.TicksCompose | crates/dash-router-core/src/router.rs:319-350 | Two ticks are one tick of the sum, and are allowed together |
| Router.FireWantLosesNoAsk | crates/dash-router-core/src/router.rs:370-384 | After a Want fires, every key not held under a channel subscribed to, recently heard or held under is asked for by some seen Want, and a second Want right after emits nothing |
| Router.FireWantCoversInterest | crates/dash-router-core/src/router.rs:193-202 | After a Want fires, every channel subscribed to, recently heard or held under has an entry in the node's interest, and the seen Wants, its own included, cover it |
| Router.OneWantPerTtl | crates/dash-router-core/src/router.rs:428-442 | In any run, a Want that was sent, fired or relayed, is not relayed again by a receipt of it before the Want TTL has passed |
| Router.UnchangedInterestIsSilent | crates/dash-router-core/src/router.rs:370-384 | In any run, for less than the Want TTL after a node fires a Want no Want it fires repeats an entry of it; if its interest is unchanged it fires nothing if and only if every entry the first Want left out is still asked for by others |
| Router.UnchangedInterestFiresAgain | crates/dash-router-core/src/router.rs:376-384 | Runs on which an unchanged interest is sent in two parts within the TTL |
| Router.OwnWantAsksForNothingHeld | crates/dash-router-core/src/router.rs:335-339 | A node's own Want asks for nothing it held when it emitted it |
| Router.AskOf | crates/dash-router-core/src/router.rs:207-211 | The network's ask is exactly the held keys that some seen Want asks for, without markers |
| Coverage.DecideCovered | crates/dash-router-core/src/interest.rs:134-184 | The finite procedure, a sorted sweep over scopes and an intersection per listed author, answers yes if and only if every (author, seq) the entry asks for is asked for by a seen entry, over unboundedly many authors |
| Coverage.ScopesCover | crates/dash-router-core/src/interest.rs:147-161 | The sweep finds a gap if and only if there is one, and its `hi + 1` stays in range |
| Coverage.VerdictInSpace | crates/dash-router-core/src/interest.rs:124-133 | When only some authors exist the verdict is coverage among them together with the scopes leaving no prefix out: sound always, and too strict exactly where an empty prefix is left out |
| Coverage.ExactWithUnlisted | crates/dash-router-core/src/interest.rs:124-133 | It is exact where every prefix in scope has an author nobody lists |
| Coverage.IncompleteInSmallSpace | crates/dash-router-core/src/interest.rs:147-164 | A concrete covered entry the procedure rejects when a prefix in scope has no author |
| Interests.NewEntry | crates/dash-router-core/src/interest.rs:69-87 | An entry is refused exactly when its scope is inverted or an author lies outside it; dropping empty ranges does not change what it asks |
| Interests.NewEntryLoop | crates/dash-router-core/src/interest.rs:69-87 | The loop over authors computes exactly that |
| Interests.FromHeld | crates/dash-router-core/src/interest.rs:223-234 | The interest asks, under exactly the given channels, for exactly what is not held, and an entry is pure exactly when nothing is held under its channel |
| Interests.AskWithin | crates/dash-router-core/src/interest.rs:266-270 | What an interest asks out of held ranges is exactly the held keys it asks for, without markers |
| Interests.SeenIsCovered | crates/dash-router-core/src/interest.rs:287-294 | An interest that has been seen is covered |
| Interests.CoverageIsMonotone | crates/dash-router-core/src/interest.rs:134-184 | More seen interests never uncover an entry |
| Slicing.SliceEntry | crates/dash-router/src/pack.rs:146-251 | The slices' scopes tile the entry's scope; each slice claims exactly the authors in it; each claim is a closed prefix of the original, cut no more often than it takes to fit; a slice ends only where the next run would not fit; the truncation count is exact, and zero exactly when every run fits alone; all slices fit if and only if `SlicesFit` |
| Slicing.SliceOverBudget | crates/dash-router/src/pack.rs:186-250 | A concrete entry and budget that are cut into slices of which one is over the budget |
| Slicing.BudgetHolds | crates/dash-router/src/pack.rs:170-178 | All slices fit exactly when the have is empty, a pure want with five-byte bounds fits, or an empty slice fits between the bounds of each prefix run |
| Slicing.ShrinkRun | crates/dash-router/src/pack.rs:195-217 | Shrinking a run ends, leaves closed prefixes, leaves the run alone if it fits, and reports exactly the authors it shortened |
| Slicing.CutDropsLastRange | crates/dash-router/src/pack.rs:199-216 | Each shrinking step takes the last unbroken range of sequence numbers from the last author, all of it and nothing else |
| Slicing.CutRuns | crates/dash-router/src/pack.rs:155-169 | The runs are exactly the groups of authors by prefix, in prefix order |
| Slicing.ScopeSlices | crates/dash-router/src/pack.rs:235-250 | The bounds never underflow and no `Entry::new` fails: every slice's authors lie in its scope |
| Slicing.VarintLenIsMinimal | crates/dash-router/src/pack.rs:134-142 | The width is the number of seven-bit groups of the value |
| PackWant.PackWant | crates/dash-router/src/pack.rs:93-131 | Across the frames each channel has its whole entry once, or exactly its slices; all frames fit if and only if every entry can be made to; nothing is counted exactly when no claim shrank and no channel went unasked; of two frames of whole entries in a row the second has an entry the first had no room for, unless a channel that goes unasked lies between them |
| PackedAsk.FramesAsk | crates/dash-router/src/pack.rs:81-92 | The frames ask for everything the interest asks for, except under a channel whose pure want fits no frame, under which they ask for nothing; and for more only where a claim shrank |
| PackedAsk.NothingUnaskedIff | crates/dash-router/src/pack.rs:224-233 | The frames ask for all of the interest if and only if no pure entry is too big for a frame |
| PackedAsk.FramesCoverEntry | crates/dash-router-core/src/interest.rs:134-184 | Every askable entry is covered by its own frames |
| PackedAsk.FragmentedWantIsOneAsk | crates/dash-router-core/src/router.rs:204-211 | A node that has seen the frames has structurally the same ask as one that has seen the whole Want when nothing shrank, and no smaller one otherwise |
| PackedAsk.PackedIsOneAsk | crates/dash-router/src/pack.rs:88-92 | When the count that packing returns is zero, a network that has seen the frames has structurally the ask of the whole Want |
| PackedAsk.SubscriberAsks | crates/dash-router-core/src/router.rs:184-202 | A subscriber's fired Want has the channel whole, asking for all the node lacks under it, unless the Wants it has seen ask for all of that already |
| PackedAsk.OneRoundFillsSubscriber | crates/dash-router-core/src/router.rs:386-398 | When a node that remembers the frames fires its Have, every op it holds under the channel that was not recently sent is either already held by the subscribed asker or carried by the Have, which leaves the asker holding it |
| PackHave.PackHave | crates/dash-router/src/pack.rs:41-79 | The frames hold, in order and once each, everything of each op that can be sent alone; each fits; a frame ends only where the next op would overflow it; what cannot be sent is counted |
| PackHave.WhatIsSent | crates/dash-router/src/pack.rs:65-73 | An op is missing only if its header alone is too big, and loses its payload only if it is too big alone; sent and dropped add up |
| PackHave.HydrateAndPack | crates/dash-router/src/shell.rs:621-663 | From two stores to grouped messages: they flatten to the hydrated ops in key order, each whole unless too big alone |
| PackHave.PackedHaveRoundTrip | crates/dash-router-core/src/node.rs:253-258 | When every op fits alone, what receivers park of all the messages is what was hydrated |
| Hydrate.Merge | crates/dash-router/src/shell.rs:642-651 | Sorting and de-duplicating two fetches lists each key once, in order, the payload-bearing copy winning |
| Hydrate.FetchOps | crates/dash-router-core/src/storage.rs:91-104 | A fetch lists exactly the store's ops within the ranges, in key order |
| Hydrate.GroupOps | crates/dash-router-core/src/node.rs:172-181 | Grouping by log loses and reorders nothing, and leaves no empty group and no two groups of one log side by side |
| Hydrate.ParkOps | crates/dash-router-core/src/node.rs:253-257 | Parking a grouped list parks what its flat list denotes |
| Hydrate.ParkedListing | crates/dash-router-core/src/node.rs:172-197 | Listing a store and parking the list gives the store back |
| Hydrate.RangesOf | crates/dash-router-core/src/node.rs:187-197 | The ranges of parked keys are structurally the marker-free value of exactly those keys |
| Clocks.AdvanceInTwo | crates/dash-router/src/shell.rs:236-286 | Advancing to a and then to b is advancing to b: same state, same output |
| Clocks.AdvanceEnds | crates/dash-router/src/shell.rs:236-286 | Advancing ends at the later of now and the target with nothing due |
| Clocks.NothingIsSkipped | crates/dash-router/src/shell.rs:273-283 | A tick is positive, never passes a timer or the push deadline, and ends at the target or the next deadline |
| Clocks.QuietUntilDeadline | crates/dash-router/src/shell.rs:225-231 | Before the next deadline advancing only ticks |
| Clocks.PushedWhenOwed | crates/dash-router/src/shell.rs:236-286 | However the timers fall, advancing flushes what is pending if and only if by then the oldest append has waited for the latency cap or the latest for the quiet window; otherwise nothing pending is touched |
| Clocks.WantsKeepTime | crates/dash-router/src/shell.rs:248-255 | Wants go out exactly when the script says: an armed Want timer stays armed, the next Want is due the drawn intervals after the first, and by the end exactly those are out whose time had come |
| Clocks.FiresInOrder | crates/dash-router/src/shell.rs:239-268 | Of what is due at one instant the push goes out first, then the Want, then the Have |
| Shell.HaveIsRearmed | crates/dash-router/src/shell.rs:256-268 | A fired Have timer is armed again, with the next interval, exactly if something is held that a live Want asks for |
| Paced.AdvanceRuns | crates/dash-router/src/shell.rs:236-286 | Advancing is a run of the node machine with its pushes put off: every tick, fire, re-arm and flush is one the machine allows in the state it is taken in, and the run ends in the router, and with the pushes pending, that advancing ends in, having emitted what it emits |
| Paced.AdvanceIsOwn | crates/dash-router/src/shell.rs:273-283 | That run holds no message, append or subscription change, and its ticks add up to the time that passes |
| Paced.PendingIsUnflushed | crates/dash-router/src/shell.rs:387-393 | Over any run, what is pending is exactly what was appended since the last flush |
| Paced.FlushedAppendIsAuthored | crates/dash-router-core/src/node.rs:271-277 | An append whose push is flushed next does what `Authored` does in one step, refusals included |
| Paced.RunKeepsInv | crates/dash-router-core/src/node.rs:112-129 | Putting pushes off keeps the node invariant over every run |
| Shell.NodeCore.AdvanceTo | crates/dash-router/src/shell.rs:236-286 | The loop ends where `Clocks.Advance` does, and has taken the node, whatever the stores do, through a run of the node machine of exactly the moves of `Paced.AdvanceMoves`; without failures it puts out what that run emits, and whatever fails every Want decided on is put out, and every message put out is this node's, was decided on, and carries copies from the stores |
| Shell.NodeCore.Init | crates/dash-router/src/shell.rs:215-221 | Without failures the first snapshot is the stores' contents and the node is synced; the first Want is armed |
| Shell.NodeCore.NextDeadline | crates/dash-router/src/shell.rs:225-231 | The earliest of the armed timers and the push deadline, in shell time; with nothing due now, advancing to any instant before it is one allowed tick and puts out nothing, so by `Clocks.PushedWhenOwed` no push is owed before it |
| Shell.NodeCore.Hydrate | crates/dash-router/src/shell.rs:621-651 | Whatever fetches fail, every op is a copy that one of the stores has, of a key in the ranges; when the application's own fetch succeeds all of its ops in the ranges are there, with their payloads; without failures it is the node machine's merge |
| Shell.NodeCore.RouteFx | crates/dash-router/src/shell.rs:568-610 | Whatever fails, each op that arrived, of a subscribed log, and did not fail to be stored is reported as often as the router accepts it and nothing else is; every Want decided on is put out, and every message put out was decided on and carries copies from the stores; without failures the output is the node machine's |
| Shell.NodeCore.OnWire | crates/dash-router/src/shell.rs:290-367 | Without store failures and from a synced state, a message taken in does what `NodeMachine` does (arming the Have timer after a Want that this node can answer), with the same output; a message not taken in (from off the local network, undecodable, the node's own, or not from the peer its transport names) changes nothing but the drop count, which counts exactly those. Whatever fails or falls short: no op and no payload held is lost; each op that arrived, of a subscribed log, not held before and not failed to be stored is reported exactly once and nothing else is, with as many storage errors put out as there are failed ops; every message put out was decided on and carries copies from the stores; the relay keeps its cap unless a read of its usage came out too low; and if no call reports a failure the snapshot still claims all of the application's store and nothing that neither store has |
| Shell.NodeCore.ReceiveHave | crates/dash-router/src/shell.rs:345-364 | The Have part of it: without failures stores, held snapshot, router and output are the node machine's; whatever fails, exactly the ops of subscribed logs that were not held before and did not fail to be stored are reported, once each |
| Shell.NodeCore.IngestParked | crates/dash-router/src/shell.rs:731-795 | With usage re-read after any relay failure, ingestion without failures is the node machine's; with any failures or short answers it loses nothing, reports every subscribed op it could not store, and keeps the cap unless a usage read came out too low |
| Shell.NodeCore.ReconcileTouched | crates/dash-router/src/shell.rs:674-701 | Where the held snapshot was right for the untouched logs, patching the touched ones gives structurally the full recomputation; where the relay's answer falls short, the snapshot still claims nothing false and misses nothing in the application's store |
| Shell.NodeCore.OnAppend | crates/dash-router/src/shell.rs:373-395 | Without failures an append is the node machine's native sync with the push put off; a failed store fails the command; the op joins what still waits by then, the oldest waiting append keeps its time and the latest is now |
| Shell.NodeCore.OnSubscribe | crates/dash-router/src/shell.rs:400-462 | Without failures subscribing is the node machine's; with any failures or short answers, what was held in either store is held in one of them afterwards, and what was held with its payload is held with it |
| Shell.NodeCore.OnUnsubscribe | crates/dash-router/src/shell.rs:471-483 | Without failures unsubscribing is the node machine's; it never touches the stores |
| Shell.NodeCore.OnHint | crates/dash-router/src/shell.rs:487-495 | After a hint the snapshot is right again if it was right outside the logs named, and nothing is put out beyond what catching up did; from a synced state a hint changes nothing |
| Shell.NodeCore.OnMaintain | crates/dash-router/src/shell.rs:500-552 | Without failures maintenance is the node machine's payload eviction, or its eviction when no payload qualifies; with any failures nothing asked for is touched and usage does not grow |
| Shell.MaintainedLeavesAsked | crates/dash-router-core/src/node.rs:199-210 | Over the threshold, maintenance leaves no payload nobody asks for, and if there was none to begin with, no op nobody asks for |
| Shell.MaintainedSpares | crates/dash-router/src/shell.rs:500-552 | Under the threshold maintenance changes nothing; over it, nothing asked for goes, no op goes while there is a payload nobody asks for, and what stays keeps its header |
| Serving.Serve | crates/dash-router/src/shell.rs:872-981 | Any requests one after the other, at any times: without failures and from a synced state the whole is one run of the node machine with its pushes put off, on exactly the messages taken in, the appends and the subscription changes, in their order, over exactly the time that has passed, with the output it emits, and keeps the node invariant. Whatever fails: nothing waits to be pushed, or everything that waits was appended from the oldest waiting append on and no request since came the latency cap after that one or the quiet window after the latest; the application's store loses nothing, as long as no maintenance is asked for no op and no payload is lost by both stores, and the cap is kept unless a usage read came out too low; if no call reports a failure the snapshot stays grounded |
| Serving.Handle | crates/dash-router/src/shell.rs:881-977 | The same for one turn of the loop, whichever of the seven it is; whatever fails, what waits to be pushed is flushed if and only if it is owed by then, and an append that is stored joins what still waits |
| Faults.PatchedIsRecomputed | crates/dash-router/src/shell.rs:692-700 | The incremental held snapshot equals the full recomputation structurally |
| Faults.PatchedClaims | crates/dash-router/src/shell.rs:676-700 | However little of the relay the read of the touched logs saw, the patched snapshot claims nothing that neither store has, and everything in the application's store |
| RowKeys.BoundsBracketLog | crates/dash-router/src/disk.rs:112-123 | The bounds hold exactly the well-formed row keys of the one log, among all byte strings |
| RowKeys.ParsedIsRowKey | crates/dash-router/src/disk.rs:93-110 | A row key that parses is the row key of what it parses to |
| RowKeys.RowKeyParses | crates/dash-router/src/disk.rs:93-110 | A row key parses back to its log and sequence number |
| RowKeys.RowOrder | crates/dash-router/src/disk.rs:28-31 | Within a log, byte order of row keys is order of sequence numbers |
| Disk.DiskRelayStore.Open | crates/dash-router/src/disk.rs:174-243 | Whatever rows cannot be read, the summary claims nothing the table lacks; when all reads succeed it is structurally the reference store's, malformed rows or not |
| Disk.DiskRelayStore.IngestOp | crates/dash-router/src/disk.rs:392-454 | Without failures ingests as the reference store does and keeps the summary exact; with any failures keeps it sound and writes all of the op or nothing |
| Disk.DiskRelayStore.Evict | crates/dash-router/src/disk.rs:586-633 | Without failures evicts as the reference store does and keeps the summary exact; with any failures keeps it sound, removes nothing outside the ranges and changes nothing it leaves |
| Disk.DiskRelayStore.EvictPayloads | crates/dash-router/src/disk.rs:509-584 | Likewise for payloads |
| Disk.DiskRelayStore.RebuildLog | crates/dash-router/src/disk.rs:280-303 | A rescan makes one log's summary right and leaves the others alone, or fails and changes nothing |
| Disk.DiskRelayStore.DropLog | crates/dash-router/src/disk.rs:264-267 | Afterwards the log is claimed to hold nothing; the others are left alone |
| Disk.DiskRelayStore.Fetch | crates/dash-router/src/disk.rs:338-390 | Returns only rows of the table within the ranges, and all of them when no read fails |
| Disk.DiskRelayStore.UsageOf | crates/dash-router/src/disk.rs:473-485 | Never over-reports, and is the real usage if and only if the summary is exact and no row has the largest sequence number |
| Disk.DiskRelayStore.DeltaOf | crates/dash-router/src/disk.rs:492-503 | Never under-counts what ingesting would really add; exact on an exact summary |
| Disk.DiskRelayStore.HeldOf | crates/dash-router/src/disk.rs:325-332 | Claims only rows of the table; on an exact summary it is the reference store's answer, markers included |
| Disk.ExactIsOracle | crates/dash-router-core/src/storage.rs:81-89 | An exact summary is structurally the reference store's held and payload ranges |
| Disk.Refreshed | crates/dash-router/src/disk.rs:567-580 | Rebuilding or dropping the summary of the one log written to keeps the whole sound, and rebuilding keeps it exact |
| DiskRelay.Ingest | crates/dash-router/src/disk.rs:392-454 | What the disk store does with an ingest is one of the ways the shell is proved to bear, and the exact one while nothing has failed |
| DiskRelay.Evict | crates/dash-router/src/disk.rs:586-633 | Likewise for an eviction |
| DiskRelay.EvictPayloads | crates/dash-router/src/disk.rs:509-584 | Likewise for a payload eviction |
| DiskRelay.Fetch | crates/dash-router/src/disk.rs:338-390 | Likewise for a fetch, which yields the whole of some part of the table within the ranges |
| DiskRelay.HeldOf | crates/dash-router/src/disk.rs:325-332 | Likewise for the held ranges of some logs |
| DiskRelay.UsageOf | crates/dash-router/src/disk.rs:473-485 | Likewise for usage: the answer is the real one less some units, and no units exactly when the summary is exact and no row has the largest sequence number |
| DiskRelay.DeltaOf | crates/dash-router/src/disk.rs:492-503 | Likewise for the units an op would add: the real ones, or more |
| DiskRelay.CapSafeIff | crates/dash-router/src/shell.rs:771-786 | Over a sound disk summary the shell's check keeps the relay's cap, whatever the cap and the op, if and only if the summary is exact and no row has the largest sequence number |
| DiskRelay.ParkBatch | crates/dash-router/src/shell.rs:752-792 | A batch over the disk store, usage read once and tracked: from such a summary the cap is kept whatever the database does on the way; and with no failures and no op at the largest sequence number the next batch starts from such a summary again |
| DiskRelay.OverrunsByOne | crates/dash-router/src/shell.rs:771-791 | A run where nothing fails and the cap is overrun: an exact store at its cap with a row at the largest sequence number takes in a new header |
| Topologies.RandomTree | crates/dash-router-net-model/src/topology.rs:88-120 | Decoding never runs out of leaves and never draws a self-edge; the result is connected over exactly the nodes, has n - 1 edges, and is exactly the tree its code stands for |
| Topologies.TreesDiffer | crates/dash-router-net-model/src/topology.rs:86-88 | Different codes are decoded to different trees, so a uniform code is a uniform labelled tree |
| Prufer.EdgesInjective | crates/dash-router-net-model/src/topology.rs:86-88 | No two codes stand for the same set of edges |
| Prufer.Degree | crates/dash-router-net-model/src/topology.rs:101-106 | A node's degree is one more than the times its code names it |
| Topologies.Topology.IsConnected | crates/dash-router-net-model/src/topology.rs:145-159 | The worklist ends and answers yes if and only if every node reaches every other |
| Topologies.Topology.EdgeCount | crates/dash-router-net-model/src/topology.rs:138-140 | Half the number of arcs |
| Topologies.Topology.AddEdge | crates/dash-router-net-model/src/topology.rs:50-55 | Adds the one edge in both directions and nothing else |
| Storage.DeltaIsGrowth | crates/dash-router-core/src/storage.rs:120-139 | The delta is exactly what usage grows by on ingest |
| Storage.UsageLoop | crates/dash-router-core/src/storage.rs:143-149 | Summing units per op counts the ops and the payloads |
| Storage.UsageMonotone | crates/dash-router-core/src/storage.rs:143-149 | Fewer ops and fewer payloads never cost more |
| Ranges.Canonical | crates/dash-router-core/src/ranges.rs:24-26 | Equal sets have equal boundary lists |
| Ranges.Combine | crates/dash-router-core/src/ranges.rs:164-197 | The sweep denotes its connective pointwise and its boundaries stay strictly increasing |
| Ranges.CombineLoop | crates/dash-router-core/src/ranges.rs:168-197 | The two-cursor loop computes exactly that |
| Ranges.ContainsIsParity | crates/dash-router-core/src/ranges.rs:112-114 | Membership is the parity of the number of boundaries at or below |
| Ranges.FromSeqs | crates/dash-router-core/src/ranges.rs:75-96 | Contains exactly the given numbers, the largest one included |
| Ranges.RoundTrip | crates/dash-router-core/src/ranges.rs:126-135 | Building from numbers and listing gives them back sorted and without repeats |
| Ranges.IterListsMembers | crates/dash-router-core/src/ranges.rs:126-135 | Lists exactly the members, ascending |
| Ranges.LenIsCardinality | crates/dash-router-core/src/ranges.rs:138-144 | The length of a closed set is its cardinality |
| Ranges.LastIsGreatest | crates/dash-router-core/src/ranges.rs:117-123 | The last of a closed set is its greatest member |
| Ranges.Complement | crates/dash-router-core/src/ranges.rs:160-162 | Contains exactly what the set does not |
| LogRanges.KnownCanonical | crates/dash-router-core/src/ranges.rs:200-219 | Values with the same known logs and the same contents are the same value |
| LogRanges.CleanCanonical | crates/dash-router-core/src/ranges.rs:200-219 | Without markers the contents alone determine the value |
| LogRanges.Union | crates/dash-router-core/src/ranges.rs:328-344 | Contains what either side does and knows what either side knows, markers included |
| LogRanges.UnionLoop | crates/dash-router-core/src/ranges.rs:331-344 | The nested loop computes exactly that |
| LogRanges.Intersection | crates/dash-router-core/src/ranges.rs:346-365 | Contains what both sides do, without markers |
| LogRanges.IntersectionLoop | crates/dash-router-core/src/ranges.rs:349-365 | The nested loop computes exactly that |
| LogRanges.Difference | crates/dash-router-core/src/ranges.rs:367-385 | Contains what is left, without markers |
| LogRanges.DifferenceLoop | crates/dash-router-core/src/ranges.rs:370-385 | The nested loop computes exactly that |
| LogRanges.Insert | crates/dash-router-core/src/ranges.rs:306-314 | Sets one log's ranges, keeping an empty one as a marker, and leaves the others alone |
| LogRanges.Remove | crates/dash-router-core/src/ranges.rs:316-326 | Forgets one log and no other, and never leaves a channel empty |
| LogRanges.EmptyHasNothing | crates/dash-router-core/src/ranges.rs:291-300 | Empty means nothing is contained, whatever is known |

## Left out

- The sockets, the gossip overlay, the channel handles and the select loop around `NodeCore`: foreign libraries.
- Byte formats beyond the sizes packing needs, and the version and topic constants.
- The simulator and the metrics: sampled and floating-point behaviour around the same machines.
- The `Fair` wrapper, the visualiser and the in-memory store: they would only add easy members.
- Bounded latency: nothing in the protocol bounds how long a message is under way.
- Shell.NodeCore.OnWire: broadcasts are the unsplit messages; their splitting is the subject of `PackWant` and `PackHave`, and is not composed into the shell's output.
- Shell.NodeCore.OnMaintain: the floating-point threshold is a parameter.
- Shell.NodeCore.AdvanceTo: with failing stores the run is exact, and of the output it states which messages may and which Wants must be put out, not their order.
- Shell.NodeCore: the traffic and peer counters behind the log summary are not modelled, nor is time that would run backwards between calls.
- Storage.UsageLoop: the reference store is one map from keys to ops rather than nested by log; no inner map is ever empty there, so this loses no state, but its in-place updates are modelled as values.
- The store machines' own held-changed reports: the node glue discards them.
- Hydrate.FetchOps: visits keys in order and filters them, instead of walking the requested ranges log by log.
- Node.Migrate: visits a channel's ops in no particular order; ingesting different keys commutes.
- Disk.DiskRelayStore.Fetch: yields the rows as a map, not in key order; the shell sorts whatever it fetches.
- Disk.DiskRelayStore.IngestOp: a transaction is atomic; a commit that reports failure yet persists is not modelled. Here it would leave the summary sound.
- Disk.DiskRelayStore.Evict: likewise atomic, and here such a commit would leave the summary claiming rows that are gone, until the log is next rebuilt: the invariant `Valid` is not promised for it.
- Disk.DiskRelayStore.EvictPayloads: the same, for payloads.
- DiskRelay.ParkBatch: the relay's share of a batch only, on logs whose keys can be stored; the application's share is `Shell.NodeCore.IngestParked`.
- Serving.Serve: a call list that has ended; what ends the loop (a closed channel, a shutdown, a transport that is gone) and the statistics requests are not modelled.
- Network.Net.Deliver: on a refused action the in-place state is left as it stands, where the source drops its working copy.
