# Verification model of the router's control programs

The repository packages software for home routers. This project models the five parts of it that hold
real algorithms with state, and proves what each is for:

1. **The PGBGP anomaly engine** of the BGP daemon (`net/quagga/patches/160-pgbgp.patch`): a history of
   origins, prefixes and edges per routing-table node, flags on suspicious routes, and a time-ordered
   queue of suspicions to forgive. `PgbgpModel` has the state and its transitions as functions,
   `PgbgpEngine` the program that changes it in place, `PgbgpOrigins`, `PgbgpEdges`, `PgbgpLocks` and
   `PgbgpRuns` the invariants of every run, `PgbgpCollection` when collection is safe,
   `PgbgpVerdicts` when exactly a detector flags, `PgbgpForgiveness` when exactly each flag goes
   again, `PgbgpPrefixes` the sub-prefix suspicions of every run, `PgbgpWitnesses` and
   `PgbgpSubPrefixRuns` (with `PgbgpDirect`) runs in which something goes wrong, `PgbgpTrie` the search
   for the super-prefix and `PgbgpStore` the history file.
2. **The firewall rule compiler** (`net/gargoyle-firewall-util/src/make_iptables_rules.c`): a definition
   that says which values must match in each of eight dimensions becomes a linear list of rules that
   can only test, set bits of one byte of the connection mark, and jump. `MarkBits` has marks as sets
   of bits, `Netfilter` runs rule lists, `RuleCompiler` is the compilation, `RuleBuilder` the program
   that builds the same list step by step, `RuleMeaning` says independently what a definition means,
   `RuleBits` what becomes of the bits in a run, and `RuleCorrect` compares the two.
   `QuotedList` is the parser of quoted lists in the same file.
3. **The quota programs** (`net/gargoyle-firewall-util/src/restore_quotas.c` and
   `delete_chain_from_table.c` beside it): `QuotaModel`, `QuotaBuilder`, `QuotaCorrect` and
   `QuotaEffects` for the chains that ask the bandwidth counters, `QuotaSections` for what they do, said
   on the text of the configuration alone, `GroupText`, `Subnets` and `BackupFilter` for what is restored
   from a backup, `ChainDeletion` for removing a chain and all rules that lead to it.
4. **The QoS controller** (`net/qos-gargoyle/src/qosmon.c`): `QosModel` is one tick of the control loop,
   `Qosmon` the program with its global variables, `QosSafety` what holds over all runs, and `Checksum`
   the Internet checksum of its pings.
5. **The QoS classifier** (`net/qos-gargoyle/files/qos_gargoyle.init`): `Classifier`.

Programs that change things in place are classes and methods with loops. Each ensures that its result
is a function of its inputs or of the old state, and the lemmas are about those functions.

## How to read the results

- **Time.** Each update of the anomaly engine uses one clock value, and the clock does not go back. The
  history windows are longer than the suspicion windows, as the program's header demands (160-pgbgp.patch:168).
- **Collection.** The handler of an edge entry dereferences a node's history without looking
  (160-pgbgp.patch:2492), and collection can free that history before the entry is due:
  `PgbgpWitnesses.CollectionStrands` is a run from the start that does, up to the drain that handles
  the entry. A drain faults exactly when an entry so stranded is due; one whose node is announced again
  before does no harm (`PgbgpRuns.FaultsExactly`). An announcement strands an
  entry if and only if, in the state before it, collection is due and some other node is to stay
  pending with nothing to spare its history: no route that some record vouches for, and no record
  within its window that was seen since the last collection or has no lapsed suspicion
  (`PgbgpRuns.SafeExactly`, `PgbgpCollection.Spared`). Runs are taken to avoid just that.
- **Routes the engine is not told of.** The daemon calls the engine for a replaced route only in a route
  server client's table, for a new route only in the main table, and for external peers only
  (160-pgbgp.patch:2841-2860). Every other change of a route is the event `Bypassed`. It keeps the
  invariant if and only if the replaced route is not flagged SUSPICIOUS_O or its new origin is on
  record (`PgbgpRuns.BypassExactly`), which runs are taken to respect; otherwise the handler's
  assertion about the origin can fail (`PgbgpWitnesses.BypassLosesRecord`).
- **Sub-prefixes.** What a drain takes back is less than what was set, and each of the following flags
  can stay for good, with the queue empty; the runs have the program's default windows.
  A route of a super-prefix loses SUSPICIOUS_P exactly when it is the first from its neighbour, a note
  about that neighbour on its own node has lapsed, and a due entry names its node as the super-prefix
  (`PgbgpForgiveness.DrainForgives`). The second of two routes from one neighbour stays flagged
  (`PgbgpSubPrefixRuns.FlagStays`). So does the only one, with its note, when the suspicion began on
  account of another super-prefix and a nearer one was blamed later
  (`PgbgpSubPrefixRuns.BlameStaysElsewhere`).
  A route loses IGNORED_P exactly when an entry of its own prefix is due
  (`PgbgpForgiveness.DrainRestores`), and such an entry is there exactly while the prefix is under
  suspicion (`PgbgpPrefixes.SuspectedIffQueued`). A route selection sets the flag whenever a running
  note names the prefix (`PgbgpForgiveness.SelectionIgnores`); a note prolonged for another sub-prefix
  can outlive its own, and then nothing takes the flag back (`PgbgpPrefixes.IgnoredAfterDrain`,
  exactly; `PgbgpSubPrefixRuns.IgnoredStays`, a run).
  The log of a suspicion can find the super-prefix without an origin, which it asserts not to happen
  (`PgbgpVerdicts.LogFailsExactly`; `PgbgpSubPrefixRuns.LogCanFail`, a run).
- **Ties.** The queue takes the first of several least entries; handling any due entry keeps the
  invariant (`PgbgpRuns.ReuseAtKeeps`), so no order among equals is relied on.
- **Paths.** A path without an origin makes the program abort (160-pgbgp.patch:657-700). Paths with an
  origin are a type of their own; no result is about others.
- **The rule compiler is right if and only if** some emitted rule looks at the protocol and the bits it
  sets do not change what the definition's connection marks say (`RuleCorrect.CompilerCorrect`). A
  definition for TCP or UDP that consists of negated lists only, without single tests, lets every packet
  of the other protocol through to the target. A definition for any protocol with negated ports beside
  single tests keeps every packet without ports away, though it means them; for packets of all protocols
  that is the third condition (`RuleCorrect.CompilerCorrectForAll`). The comment at make_iptables_rules.c:884-894 says that
  masks of connection marks must leave the high byte alone, but the code passes a full mask (line 682);
  the model follows the code. Masks that avoid the bits in use are always right
  (`RuleCorrect.DisjointMasksFit`); a value without a mask is right exactly when no dimension of its
  definition uses a bit (`RuleCorrect.UnmaskedValueFits`), and `RuleCorrect.SingleValueFits` has the
  condition for any one value. For several values at once the condition speaks of all marks, and only
  the sufficient one about masks can be checked value by value. The hypotheses are that no list is empty or unusable and that a TCP reset
  is asked for only in rules for TCP: an unusable list is passed over as if it were not there
  (`RuleCorrect.UnusableListPassedOver`), and such a reset loses packets that are meant
  (`RuleCorrect.ResetLosesMeant`).
- **Deleting a chain** looks at the word after the line number. For a rule without a target that word is
  its protocol, so the deletion is exact if and only if no such rule of another chain has a protocol
  named like the chain (`ChainDeletion.ExactUnlessLookalike`).
- **A subnet's range** is the set of addresses that agree under the mask if and only if the mask is
  contiguous (`Subnets.RangeIsSubnet`). The four loops that remove spaces test for dashes only: the last
  two never run, and spaces that no dash adjoins stay, those around a slash too
  (`GroupText.SlashSpacesStay`).
- **The death mark** of the quota chains keeps out of the two bookkeeping nibbles (`QuotaModel.Apart`).
  It is given on the command line; the start script passes bit 15 (gargoyle_firewall_util.sh:10).
- **Measuring the ping limit again** after a reset adds to the limit found before when the `-a` switch is
  set (`QosSafety.RemeasuringNeverLowers`), so a limit once too high stays so.

## Model

| member | source | states |
|---|---|---|
| PgbgpRuns.RunKeeps | net/quagga/patches/160-pgbgp.patch:1319-1384 | over every run of announcements, withdrawals, route selections and routes the engine is not told of, the origin, edge and lock invariants hold together, the queue's counter is its size, and after a drain every key left lies in the future |
| PgbgpRuns.BypassExactly | net/quagga/patches/160-pgbgp.patch:2841-2860 | a route that enters or changes without a call of the engine keeps the invariant if and only if the replaced route is not flagged for its origin or the new origin is on record |
| PgbgpRuns.SafeExactly | net/quagga/patches/160-pgbgp.patch:1448-1550 | an announcement leaves no edge entry without a history if and only if the condition on the state before it holds |
| PgbgpRuns.StrandsExactly | net/quagga/patches/160-pgbgp.patch:2492-2504 | exactly which nodes an announcement leaves with an edge entry and no history |
| PgbgpRuns.FaultsExactly | net/quagga/patches/160-pgbgp.patch:2432-2512 | a drain handles an edge entry of a node without a history if and only if such an entry is due when it begins |
| PgbgpRuns.AnnounceWaits | net/quagga/patches/160-pgbgp.patch:704-736 | no announcement loses an entry that is not due |
| PgbgpRuns.RouteEnters | net/quagga/patches/160-pgbgp.patch:1320-1384 | an announcement drains the queue, lets the detectors add to the flags the peer's route has by then, collects exactly when the last time is an hour ago, and the route takes the place of the peer's old one or comes in front; all other routes stay |
| PgbgpCollection.FreesExactly | net/quagga/patches/160-pgbgp.patch:1448-1550 | a history is freed exactly when it holds something and neither a route on record nor a record of its own spares it |
| PgbgpCollection.CollectedEdges | net/quagga/patches/160-pgbgp.patch:2218-2300 | collection keeps a pair exactly when an interned path has it, or it is within its window and not over and unseen since the last collection; pairs of interned paths are stamped, and a deadline goes exactly when it has passed |
| PgbgpCollection.CollectedHistory | net/quagga/patches/160-pgbgp.patch:1448-1550 | what is left of a history: whether it is freed, when its prefix record is kept and stamped, which deadline it keeps |
| PgbgpCollection.CollectedOrigin | net/quagga/patches/160-pgbgp.patch:1458-1502 | an origin is kept and stamped when a route has it, and otherwise kept as it was within its window |
| PgbgpCollection.GcOriginsConcat | net/quagga/patches/160-pgbgp.patch:1458-1502 | every origin of a list is judged by itself and the order stays, so the oldest stays last |
| PgbgpCollection.DrainPending | net/quagga/patches/160-pgbgp.patch:2432-2512 | after a drain a node has an edge entry exactly if it had one that was not due, or one that was while a route held a suspect pair |
| PgbgpRuns.StepKeeps | net/quagga/patches/160-pgbgp.patch:1320-1384 | each event keeps the invariant of the whole engine |
| PgbgpRuns.AnnounceKeeps | net/quagga/patches/160-pgbgp.patch:1320-1384 | an announcement, with its drain, its detectors and collection when due, keeps the invariant whenever its collection strands no entry |
| PgbgpRuns.RibUpdatedKeeps | net/quagga/patches/160-pgbgp.patch:1200-1317 | ignoring or restoring sub-prefixes after a route selection keeps the invariant |
| PgbgpRuns.FreshInv | net/quagga/patches/160-pgbgp.patch:798-872 | an engine that was just enabled satisfies the invariant |
| PgbgpRuns.ReuseAtKeeps | net/quagga/patches/160-pgbgp.patch:704-736 | handling any due entry, whichever comes first among equals, keeps the invariant |
| PgbgpRuns.DrainKeeps | net/quagga/patches/160-pgbgp.patch:704-736 | a drain ends although edge entries come back, keeps the invariant, and leaves only later keys |
| PgbgpRuns.QuietDrainForgives | net/quagga/patches/160-pgbgp.patch:704-736 | once every deadline is past, one drain empties the queue and clears every origin and edge flag; the locks left are those of histories and notes |
| PgbgpRuns.GcKeeps | net/quagga/patches/160-pgbgp.patch:1448-1550 | collection that spares the nodes with an edge entry keeps the invariant |
| PgbgpWitnesses.CollectionStrands | net/quagga/patches/160-pgbgp.patch:2492-2504 | a run from the start after which an announcement's collection frees a history that a pending edge entry names, and the drain of a later announcement handles that entry while the node has none |
| PgbgpWitnesses.BypassLosesRecord | net/quagga/patches/160-pgbgp.patch:2841-2860 | a run from the start after which a route replaced without a call leaves an entry whose handler finds no record of the flagged route's origin |
| PgbgpOrigins.ReuseOriginAsserts | net/quagga/patches/160-pgbgp.patch:1703-1788 | the asserts of the handler never fail: the node has its history and knows the origin of every flagged route |
| PgbgpOrigins.ReuseOriginKeeps | net/quagga/patches/160-pgbgp.patch:1703-1788 | handling a due origin entry orphans neither a flag nor an entry |
| PgbgpOrigins.ReuseAtKeepsOrigins | net/quagga/patches/160-pgbgp.patch:704-736 | every due entry of any kind keeps the origin invariant |
| PgbgpOrigins.DrainKeepsOrigins | net/quagga/patches/160-pgbgp.patch:704-736 | a whole drain keeps the origin invariant |
| PgbgpOrigins.TouchOriginSpec | net/quagga/patches/160-pgbgp.patch:1629-1700 | announcing an origin changes no other record and stamps its own; a suspicion that is running keeps its deadline, a new one gets the whole window |
| PgbgpOrigins.UpdateOriginKeeps | net/quagga/patches/160-pgbgp.patch:1629-1700 | the invariant is kept, the origin is on record as seen now, and a flagged announcement has an entry pending |
| PgbgpOrigins.GcOriginsMembers | net/quagga/patches/160-pgbgp.patch:1458-1502 | collecting a list keeps exactly the surviving records |
| PgbgpOrigins.GcOriginSurvives | net/quagga/patches/160-pgbgp.patch:1447-1507 | an origin that is still suspected, or was seen now, is not collected |
| PgbgpOrigins.GcKeepsOrigins | net/quagga/patches/160-pgbgp.patch:1447-1550 | collection leaves every pending entry its record and every flag its origin |
| PgbgpVerdicts.OriginVerdict | net/quagga/patches/160-pgbgp.patch:1629-1700 | an announcement is flagged for its origin exactly when that is not the prefix's oldest and is still under suspicion, or was not seen within the window while the peer is not new |
| PgbgpVerdicts.EdgeVerdict | net/quagga/patches/160-pgbgp.patch:2348-2429 | a path is flagged exactly when one of its pairs is still under suspicion, or was not seen within the window while the peer is not new, however often the path holds the pair |
| PgbgpVerdicts.EdgesAnnounced | net/quagga/patches/160-pgbgp.patch:2348-2429 | every pair of the path is stamped, and the node without an entry gets one for the greatest deadline of the objectionable pairs; no other record changes |
| PgbgpVerdicts.PeerVerdict | net/quagga/patches/160-pgbgp.patch:1133-1170 | a peer counts as new exactly when it is in its grace period or was not seen for 30 days |
| PgbgpVerdicts.GracePeriod | net/quagga/patches/160-pgbgp.patch:1133-1170 | a peer that turns up after 30 days is new for exactly one day, however often it is seen, as long as it does not stay away again |
| PgbgpVerdicts.PrefixVerdict | net/quagga/patches/160-pgbgp.patch:1875-2039 | exactly when a suspicion of a sub-prefix begins, when the announced route is flagged for a note about its neighbour, and when it is ignored |
| PgbgpVerdicts.BlameNotes | net/quagga/patches/160-pgbgp.patch:1990-2018 | a blamed neighbour is avoided until the suspicion ends, and no note is shortened or lost |
| PgbgpVerdicts.PathIsPrefixMeans | net/quagga/patches/160-pgbgp.patch:1844-1872 | one path leads to another exactly when they have as many segments, of the same kinds, each continuing its match |
| PgbgpVerdicts.FlagsRaised | net/quagga/patches/160-pgbgp.patch:1347-1360 | the flags of an announced route are those it had and those each detector raises on the state before the announcement, said on the records |
| PgbgpVerdicts.DetectorsBegin | net/quagga/patches/160-pgbgp.patch:1320-1360 | what the detectors start from: the node's history, the super-prefix found with it, and whether the peer counts as new |
| PgbgpVerdicts.OriginIs | net/quagga/patches/160-pgbgp.patch:657-700 | the origin is the last AS of the last segment that is not a set, and a path has one exactly if that segment is not empty |
| PgbgpVerdicts.AllAses | net/quagga/patches/160-pgbgp.patch:2449-2459 | the pairs of a path run over the ASes of all its segments, in order |
| PgbgpForgiveness.DrainForgivesOrigins | net/quagga/patches/160-pgbgp.patch:1703-1788 | over a whole drain a route loses SUSPICIOUS_O exactly when an entry about an origin of its node is due and its own origin is no longer under suspicion |
| PgbgpForgiveness.DrainForgivesEdges | net/quagga/patches/160-pgbgp.patch:2432-2512 | over a whole drain a route loses SUSPICIOUS_E exactly when the edge entry of its node is due and no pair of its path is still under suspicion |
| PgbgpForgiveness.DrainForgives | net/quagga/patches/160-pgbgp.patch:2061-2102 | over a whole drain a route loses SUSPICIOUS_P exactly when it is the first from its neighbour, a note about that neighbour on its node has lapsed, and a due entry names the node as the super-prefix |
| PgbgpForgiveness.DrainDropsNotes | net/quagga/patches/160-pgbgp.patch:2061-2102 | over a whole drain a lapsed note goes exactly when a due entry names its node as the super-prefix |
| PgbgpForgiveness.DrainRestores | net/quagga/patches/160-pgbgp.patch:2043-2060 | over a whole drain a route loses IGNORED_P exactly when an entry of its own prefix is due |
| PgbgpForgiveness.SelectionIgnores | net/quagga/patches/160-pgbgp.patch:1200-1270 | after a route selection IGNORED_P follows the choice exactly on the sub-prefixes that a running note of the node names, and stays as it was on all others |
| PgbgpPrefixes.RunKeepsPrefixes | net/quagga/patches/160-pgbgp.patch:1320-1384 | over every run each sub-prefix entry matches a record under suspicion until the entry's time, and each such record has its entry |
| PgbgpPrefixes.SuspectedIffQueued | net/quagga/patches/160-pgbgp.patch:1945-1968 | in every state a run reaches a prefix has an entry exactly while it is under suspicion, due when that ends |
| PgbgpPrefixes.GcKeepsPrefixes | net/quagga/patches/160-pgbgp.patch:1508-1526 | collection drops no record under suspicion and changes no deadline that is running |
| PgbgpPrefixes.RestoredPrefixes | net/quagga/patches/160-pgbgp.patch:978-1078 | a restored engine starts within that invariant |
| PgbgpPrefixes.IgnoredAfterDrain | net/quagga/patches/160-pgbgp.patch:1200-1270 | a selection and any later drain together: IGNORED_P is what the selection left unless the prefix's own suspicion ends in between |
| PgbgpVerdicts.LogFailsExactly | net/quagga/patches/160-pgbgp.patch:1822-1823 | the log's assertion fails exactly when a suspicion begins while the super-prefix has no origin on record |
| PgbgpSubPrefixRuns.LogCanFail | net/quagga/patches/160-pgbgp.patch:1822-1823 | a run from the start after which the next suspicion's log fails its assertion |
| PgbgpSubPrefixRuns.FlagStays | net/quagga/patches/160-pgbgp.patch:2061-2102 | a run from the start after which every suspicion is over, no note is left, and a route is still flagged |
| PgbgpSubPrefixRuns.BlameStaysElsewhere | net/quagga/patches/160-pgbgp.patch:1970-2018 | a run from the start after which the queue is empty, and the only route from a neighbour stays flagged and its lapsed note stays, because the entry names another super-prefix |
| PgbgpSubPrefixRuns.IgnoredStays | net/quagga/patches/160-pgbgp.patch:1200-1270 | a run from the start after which the queue is empty, the note gone and the suspicion over, and the sub-prefix's route still ignored |
| PgbgpLocks.ReuseAtLocks | net/quagga/patches/160-pgbgp.patch:704-736 | handling an entry releases exactly the locks it holds and those of the notes that expire with it |
| PgbgpLocks.GcNodeLocks | net/quagga/patches/160-pgbgp.patch:1527-1547 | collecting a node returns its history's lock and the locks of its notes, no others |
| PgbgpLocks.GcNodesLocks | net/quagga/patches/160-pgbgp.patch:1448-1550 | collecting the whole table keeps lock conservation |
| PgbgpLocks.PrepareLocks | net/quagga/patches/160-pgbgp.patch:1320-1370 | up to the detectors, one lock more than owed is held on the super-prefix and on nothing else |
| PgbgpLocks.UpdatePrefixLocks | net/quagga/patches/160-pgbgp.patch:1960-2018 | a suspicious sub-prefix locks exactly the nodes its entry and its note name |
| PgbgpLocks.DetectLocks | net/quagga/patches/160-pgbgp.patch:1320-1384 | what an announcement locks for its own time is released by its end |
| PgbgpEdges.PairsAt | net/quagga/patches/160-pgbgp.patch:2449-2459 | the pairs of a path are exactly its consecutive AS numbers, across segments |
| PgbgpEdges.LatestExpirySpec | net/quagga/patches/160-pgbgp.patch:2447-2471 | a route's expiry is the greatest deadline of its suspect pairs, 0 exactly when it has none |
| PgbgpEdges.NextExpirySpec | net/quagga/patches/160-pgbgp.patch:2442-2505 | the time to look again is the least expiry of the routes that still hold a suspect pair |
| PgbgpEdges.ReuseEdgeSpec | net/quagga/patches/160-pgbgp.patch:2432-2512 | the handler unflags exactly the routes without a suspect pair, changes nothing else about a route, and queues the node again at the least remaining expiry |
| PgbgpEdges.ReuseEdgeAsserts | net/quagga/patches/160-pgbgp.patch:2492-2504 | the history an edge entry dereferences is there |
| PgbgpEdges.ReuseAtEdges | net/quagga/patches/160-pgbgp.patch:704-736 | handling any entry keeps: one edge entry per node at most, and one wherever a route is flagged |
| PgbgpEdges.DetectEdges | net/quagga/patches/160-pgbgp.patch:2348-2430 | a route flagged for a new edge has an edge entry pending on its node |
| PgbgpEdges.GcEdgesKeep | net/quagga/patches/160-pgbgp.patch:2218-2300 | collecting edges leaves the edge invariant |
| PgbgpTrie.FindSuperIsLongest | net/quagga/patches/160-pgbgp.patch:758-782 | the result is the longest strictly shorter covering prefix of at least eight bits with a prefix record not to be ignored, or none exactly when there is none |
| PgbgpTrie.Walk | net/quagga/patches/160-pgbgp.patch:738-782 | the walk down any well-formed path-compressed trie finds what a scan of all lengths finds |
| PgbgpStore.RestoreRebuilds | net/quagga/patches/160-pgbgp.patch:978-1125 | storing and restoring at the same instant rebuilds exactly the trusted and recent histories, edges and peers, with no queue, no flag and one lock per history |
| PgbgpStore.RestoresRecords | net/quagga/patches/160-pgbgp.patch:978-1125 | exactly which peers, prefixes, origins and edges come back, on their own records, each as last seen and without a deadline |
| PgbgpStore.OldFileIgnored | net/quagga/patches/160-pgbgp.patch:993-1002 | a file more than seven days old is not read, and a younger one is |
| PgbgpStore.KeptOrigins | net/quagga/patches/160-pgbgp.patch:1387-1444 | the origins of a restored prefix are, as a set, exactly its trusted origins without their deadlines |
| PgbgpStore.RestoredInv | net/quagga/patches/160-pgbgp.patch:978-1078 | a restored engine starts inside the invariant |
| PgbgpStore.ReadEdges | net/quagga/patches/160-pgbgp.patch:2145-2183 | the edge lines read back add exactly the trusted and recent edges |
| PgbgpStore.ReadPeers | net/quagga/patches/160-pgbgp.patch:1081-1125 | the peer lines read back add exactly the trusted peers |
| PgbgpEngine.Engine.ReuseOrigin | net/quagga/patches/160-pgbgp.patch:1703-1788 | the loop over the routes computes the transition that DrainForgivesOrigins is about; its assertion holds |
| PgbgpEngine.Engine.ForgiveSuper | net/quagga/patches/160-pgbgp.patch:2043-2128 | unlinking expired notes in place clears one flag and one lock for each |
| PgbgpEngine.Engine.ReusePrefix | net/quagga/patches/160-pgbgp.patch:2043-2128 | the handler computes the transition for sub-prefix entries |
| PgbgpEngine.Engine.ReuseEdge | net/quagga/patches/160-pgbgp.patch:2432-2512 | the nested loops over routes, segments and AS numbers compute the edge transition |
| PgbgpEngine.Engine.Drain | net/quagga/patches/160-pgbgp.patch:704-736 | the loop that dequeues, handles or puts back terminates in the drained state |
| PgbgpEngine.Engine.UpdateOrigin | net/quagga/patches/160-pgbgp.patch:1629-1700 | searching, prepending and stamping in place is the origin transition |
| PgbgpEngine.Engine.UpdatePrefix | net/quagga/patches/160-pgbgp.patch:1875-2039 | the sub-prefix detector's flags and its whole new state |
| PgbgpEngine.Engine.UpdateEdge | net/quagga/patches/160-pgbgp.patch:2348-2429 | the edge detector's flag and its whole new state |
| PgbgpEngine.Engine.CollectNode | net/quagga/patches/160-pgbgp.patch:1448-1550 | unlinking origins, prefix record and history of one node in place |
| PgbgpEngine.Engine.Collect | net/quagga/patches/160-pgbgp.patch:954-975 | collection of the whole table and of the edges is the transition that CollectedEdges and CollectedHistory are about |
| PgbgpEngine.Engine.Announce | net/quagga/patches/160-pgbgp.patch:1320-1384 | one update in the program's order of calls, keeping the engine's invariant |
| PgbgpEngine.Engine.RibUpdated | net/quagga/patches/160-pgbgp.patch:1200-1317 | which sub-prefix routes become ignored or are restored after a selection |
| PgbgpEngine.Engine.Restored | net/quagga/patches/160-pgbgp.patch:978-1078 | reading a file token by token yields the restored state |
| Netfilter.RunConcat | net/gargoyle-firewall-util/src/make_iptables_rules.c:464-535 | a rule list goes on where the list before it stopped |
| RuleCorrect.CompilerCorrect | net/gargoyle-firewall-util/src/make_iptables_rules.c:157-606 | the compiled block reaches its target on exactly the TCP and UDP packets the definition means, if and only if some emitted rule looks at the protocol and the block's own bits do not disturb the connection marks asked for |
| RuleCorrect.CompilerCorrectForAll | net/gargoyle-firewall-util/src/make_iptables_rules.c:157-606 | the same for packets of every protocol: there is one more condition, that negated ports do not stand beside single tests in a rule for any protocol, unless no connection mark meets the definition |
| RuleCorrect.SingleValueFits | net/gargoyle-firewall-util/src/make_iptables_rules.c:674-683 | one connection-mark value is undisturbed if and only if its mask leaves the standing bits alone or no mark can meet it either way |
| RuleCorrect.UnmaskedValueFits | net/gargoyle-firewall-util/src/make_iptables_rules.c:674-683 | a connection-mark value without a mask is undisturbed if and only if no dimension of its definition uses a bit |
| RuleCorrect.DisjointMasksFit | net/gargoyle-firewall-util/src/make_iptables_rules.c:884-894 | values whose masks avoid the bits standing by then are undisturbed, those of the low 24 bits among them |
| RuleCorrect.BlockRun | net/gargoyle-firewall-util/src/make_iptables_rules.c:241-535 | for every definition without an empty or unusable list: exactly which packets of any protocol reach the target, connection marks being read with the bits standing by then, and the mark afterwards |
| RuleCorrect.UnguardedSlips | net/gargoyle-firewall-util/src/make_iptables_rules.c:409-505 | without a protocol guard every packet of the other protocol reaches the target |
| RuleCorrect.CompileRun | net/gargoyle-firewall-util/src/make_iptables_rules.c:543-548 | the whole list with the white-list rules: what else they accept, and that a run without a verdict restores the mark |
| RuleCorrect.BlocksCompose | net/gargoyle-firewall-util/src/make_iptables_rules.c:241-548 | any list of definitions gives the verdict of the first that takes the packet, each judging the mark the packet came with, and never touches the low 24 bits |
| RuleBits.MarkBlockRun | net/gargoyle-firewall-util/src/make_iptables_rules.c:409-505 | a block with bits fires exactly when every bit in use would be set given those before it and the single tests hold after them, else it restores the mark |
| RuleBits.FindsSeen | net/gargoyle-firewall-util/src/make_iptables_rules.c:409-505 | the bits a dimension's rules find set once those before it are: all of the earlier dimensions, and the initial ones of the later |
| RuleBits.EndUpTo | net/gargoyle-firewall-util/src/make_iptables_rules.c:409-505 | all bits in use end up set exactly when each would, given those before it |
| RuleCorrect.PlainBlockRun | net/gargoyle-firewall-util/src/make_iptables_rules.c:506-535 | a block without bits fires exactly when its single tests hold under its guards |
| RuleBits.ValueRun | net/gargoyle-firewall-util/src/make_iptables_rules.c:558-606 | the rules of one dimension touch its own bit only, and exactly when some value matches the mark they begin with |
| RuleCorrect.EightBits | net/gargoyle-firewall-util/src/make_iptables_rules.c:241-416 | the bits of the dimensions and that of the single tests are distinct and all in the high byte |
| RuleCorrect.ResetLosesUdp | net/gargoyle-firewall-util/src/make_iptables_rules.c:409-505 | with a TCP reset in the options, no UDP packet reaches the target of a block with bits |
| RuleCorrect.ResetLosesMeant | net/gargoyle-firewall-util/src/make_iptables_rules.c:487-501 | unless the definition is for TCP alone, such a block loses a packet it means, for every definition that some connection mark meets |
| RuleCorrect.UnusableListPassedOver | net/gargoyle-firewall-util/src/make_iptables_rules.c:319-380 | a destination given by hardware addresses only can never be met, and for every such definition the block takes what is meant without it |
| RuleMeaning.MeansDims | net/gargoyle-firewall-util/src/make_iptables_rules.c:157-399 | the dimensions the compiler works on hold exactly when the definition's own fields ask for the packet |
| RuleMeaning.ProtoIs | net/gargoyle-firewall-util/src/make_iptables_rules.c:217-268 | the protocol the rules look at is the definition's own, and TCP where there are URLs |
| RuleMeaning.ExtrasAre | net/gargoyle-firewall-util/src/make_iptables_rules.c:170-214 | the tests of time, layer 7, peer-to-peer and size are those the definition asks for |
| RuleMeaning.UsesBits | net/gargoyle-firewall-util/src/make_iptables_rules.c:271-399 | which lists use a bit of the mark: those of several values, and negated packet marks in any case |
| RuleBuilder.ComputeRules | net/gargoyle-firewall-util/src/make_iptables_rules.c:157-606 | the step-by-step construction yields the compiled list |
| RuleBuilder.Collect | net/gargoyle-firewall-util/src/make_iptables_rules.c:241-399 | all dimensions in turn claim their bits and push their rules or their single test |
| RuleBuilder.Builder.ComputeMultiRules | net/gargoyle-firewall-util/src/make_iptables_rules.c:558-606 | no list, a single check put in front, or a rule for every value |
| RuleBuilder.SumMasks | net/gargoyle-firewall-util/src/make_iptables_rules.c:431-461 | the summed masks are the bits in use and the bits set at the start |
| QuotedList.ParseQuotedList | net/gargoyle-firewall-util/src/make_iptables_rules.c:950-1015 | the two passes write inside the array of num_quotes/2+2, terminator included, and yield the texts between paired unescaped quotes |
| QuotedList.QuotesByParity | net/gargoyle-firewall-util/src/make_iptables_rules.c:956-960 | a quote counts exactly when the run of escapes before it, possibly empty, is of even length |
| QuotedList.RoundTrip | net/gargoyle-firewall-util/src/make_iptables_rules.c:950-1015 | with two different characters, any non-empty list of properly escaped items, quoted between any separators, parses to itself |
| QuotedList.RemainderComesLast | net/gargoyle-firewall-util/src/make_iptables_rules.c:986-1011 | what follows an unpaired quote comes last if a remainder is asked for and is lost otherwise; without any item the whole text comes back |
| QuotedList.PiecesSealed | net/gargoyle-firewall-util/src/make_iptables_rules.c:963-985 | every piece of every text is properly escaped |
| QuotedList.ReparseStable | net/gargoyle-firewall-util/src/make_iptables_rules.c:950-1015 | quoting the pieces of any text again and parsing returns the same pieces |
| QuotedList.OneCharacterForBoth | net/gargoyle-firewall-util/src/make_iptables_rules.c:950-1015 | with one character as quote and escape the round trip holds if and only if no item and no separator between two items is empty |
| QuotedList.EmptyListComesBackWhole | net/gargoyle-firewall-util/src/make_iptables_rules.c:998-1011 | a text without quotes comes back whole, so the empty list does not round-trip |
| ChainDeletion.DeletesExactly | net/gargoyle-firewall-util/src/restore_quotas.c:955-1009 | for every table the commands in pop order leave, in order, exactly the rules that do not show the chain, and drop the chain |
| ChainDeletion.ExactUnlessLookalike | net/gargoyle-firewall-util/src/restore_quotas.c:978-990 | exactly the rules targeting the chain go if and only if no targetless rule elsewhere has a protocol of that name |
| ChainDeletion.NothingRefers | net/gargoyle-firewall-util/src/restore_quotas.c:998-1007 | no rule refers to the chain afterwards, which is why it can be dropped |
| ChainDeletion.PopChain | net/gargoyle-firewall-util/src/delete_chain_from_table.c:65-75 | from the end, a deletion by number does not renumber the deletions still to come |
| ChainDeletion.ScanFinds | net/gargoyle-firewall-util/src/restore_quotas.c:967-996 | the scan of the listing finds each such rule with its chain and number |
| ChainDeletion.ListOrderFails | net/gargoyle-firewall-util/src/restore_quotas.c:1002-1007 | in list order the same deletions remove a rule that was not meant |
| ChainDeletion.DeleteChainFromTable | net/gargoyle-firewall-util/src/delete_chain_from_table.c:28-75 | the scanning loop and the popping loop bring about that table |
| Subnets.RangeIsSubnet | net/gargoyle-firewall-util/src/restore_quotas.c:915-930 | lying between the computed ends is agreeing under the mask, for every address, if and only if the mask is contiguous |
| Subnets.SizeIsContiguous | net/gargoyle-firewall-util/src/restore_quotas.c:922-927 | the masks of prefix lengths 1 to 32 are contiguous |
| Subnets.MaskGrows | net/gargoyle-firewall-util/src/restore_quotas.c:922-927 | the mask of a prefix length has so many ones, all at the top |
| BackupFilter.IpRangeToHostInts | net/gargoyle-firewall-util/src/restore_quotas.c:904-945 | the two ends of an address, a subnet or a range |
| BackupFilter.RangeCovers | net/gargoyle-firewall-util/src/restore_quotas.c:904-945 | the range of a word holds exactly the addresses the word means |
| GroupText.RemoveSpaces | net/gargoyle-firewall-util/src/restore_quotas.c:842-868 | the first two loops end, remove exactly the spaces next to dashes, and leave the guards of the other two false |
| GroupText.SlashSpacesStay | net/gargoyle-firewall-util/src/restore_quotas.c:857-868 | spaces between any two characters other than a dash, a slash among them, are never removed |
| BackupFilter.FilterGroupFromList | net/gargoyle-firewall-util/src/restore_quotas.c:840-902 | shifting and pushing once for every range keeps, in order, what is in none |
| BackupFilter.Rebuild | net/gargoyle-firewall-util/src/restore_quotas.c:818-830 | popping the list into the array from its end preserves the order |
| BackupFilter.RestoreBackupForId | net/gargoyle-firewall-util/src/restore_quotas.c:788-838 | the entries handed on, filtered only for individual others |
| BackupFilter.RestoresTheRest | net/gargoyle-firewall-util/src/restore_quotas.c:788-902 | what is restored is the in-order subsequence outside every defined group |
| QuotaSections.CutOff | net/gargoyle-firewall-util/src/restore_quotas.c:249-700 | said on the text of the sections: a packet is cut off exactly when some section that concerns it has a limit in this chain, no marks for both directions, and is over that limit, and the connection then has the death mark and else nothing of the chain's |
| QuotaSections.SlowedDown | net/gargoyle-firewall-util/src/restore_quotas.c:249-700 | a packet gets a mark exactly from a section that concerns it, gives marks for both directions, and is over a limit for the packet's direction |
| QuotaSections.CountedFor | net/gargoyle-firewall-util/src/restore_quotas.c:249-700 | a counter counts a packet once for each section with that counter that concerns it, however the sections are ordered |
| QuotaSections.ConcernsIs | net/gargoyle-firewall-util/src/restore_quotas.c:263-317 | which sections concern a packet: on, in time, and of its addresses or, for all others, of nobody's |
| QuotaSections.LeavesOut | net/gargoyle-firewall-util/src/restore_quotas.c:319-330 | a backup kept for each address is restored without the addresses of exactly the sections that are on and have some |
| QuotaSections.OrderKept | net/gargoyle-firewall-util/src/restore_quotas.c:249-330 | a section is worked off before those after it in the configuration, unless it is for all others and they are not |
| QuotaCorrect.ChainCorrect | net/gargoyle-firewall-util/src/restore_quotas.c:249-700 | whatever mark a packet brings, each counter is asked for exactly the packets its quota applies to, in order, and both nibbles are clear at the end |
| QuotaCorrect.GuardIsUnclaimed | net/gargoyle-firewall-util/src/restore_quotas.c:477-671 | the low nibble is clear between quotas, and the guard of an "all others" quota holds exactly when no enabled quota with addresses claims the packet |
| QuotaCorrect.QuotaRun | net/gargoyle-firewall-util/src/restore_quotas.c:477-671 | one quota does what it means and claims exactly the packets of its addresses |
| QuotaCorrect.MarksRun | net/gargoyle-firewall-util/src/restore_quotas.c:482-536 | the low nibble fills exactly when one of the addresses matches in the chain's direction |
| QuotaCorrect.IpTestsHold | net/gargoyle-firewall-util/src/restore_quotas.c:477-568 | the tests of a quota's rules hold exactly when the quota applies |
| QuotaCorrect.EachOnce | net/gargoyle-firewall-util/src/restore_quotas.c:263-330 | the order of work is a permutation of the enabled sections |
| QuotaEffects.KillsOverLimit | net/gargoyle-firewall-util/src/restore_quotas.c:622-626 | a quota kills exactly when it has no marks and is over its limit |
| QuotaEffects.CountsOnce | net/gargoyle-firewall-util/src/restore_quotas.c:600-626 | a packet is counted once for each limit of the quota in its chain |
| QuotaEffects.AsksItsOwn | net/gargoyle-firewall-util/src/restore_quotas.c:572-626 | only counters of the quota itself that have a limit are asked |
| QuotaEffects.MarksByDirection | net/gargoyle-firewall-util/src/restore_quotas.c:572-619 | exactly when a packet gets which mark: that of its direction, after a counter over its limit |
| QuotaCorrect.PlainSpec | net/gargoyle-firewall-util/src/restore_quotas.c:319-330 | the quotas processed first are those not for all others, and they make all the claims |
| QuotaBuilder.Builder.ProcessAll | net/gargoyle-firewall-util/src/restore_quotas.c:249-700 | the deferring worklist ends, handles each enabled section once, those for all others last, and builds the three chains |
| QuotaBuilder.Builder.Process | net/gargoyle-firewall-util/src/restore_quotas.c:301-680 | what one section appends to each chain, to the known groups and to the restored backups, which RestoredAsWanted is about |
| QuotaBuilder.Builder.TestAddresses | net/gargoyle-firewall-util/src/restore_quotas.c:477-568 | the marking rules and the tests of one section in one chain |
| QuotaBuilder.Builder.AskCounters | net/gargoyle-firewall-util/src/restore_quotas.c:572-626 | the rules that ask a quota's counters |
| QuotaBuilder.IndividualKnowsAll | net/gargoyle-firewall-util/src/restore_quotas.c:319-330 | every backup kept for each address is filtered by the groups of all enabled quotas with addresses, wherever they stand |
| QuotaBuilder.RestoredAsWanted | net/gargoyle-firewall-util/src/restore_quotas.c:372-375 | each backup is restored exactly as often as enabled sections with that limit want it, those set to be ignored once left out |
| QuotaBuilder.RestoredIffWanted | net/gargoyle-firewall-util/src/restore_quotas.c:659-663 | a backup is restored if and only if some section of the configuration wants it |
| QosSafety.AlwaysSafe | net/qos-gargoyle/src/qosmon.c:911-1158 | in every run the three limits stay within 15% and 100% of the link, the kernel enforces the running limit, and at the end has the full bandwidth or was never told anything |
| QosSafety.After | net/qos-gargoyle/src/qosmon.c:904-1158 | the state after any inputs from the start is defined and within the invariant, so no ping limit of 0 is ever divided by |
| QosSafety.StepKeeps | net/qos-gargoyle/src/qosmon.c:911-1158 | every tick keeps the controller's invariant |
| QosSafety.SmallSteps | net/qos-gargoyle/src/qosmon.c:1134-1157 | without a mode switch a tick raises the limit by at most 0.8% and only if the load uses it, and lowers it by at most 2% and a fraction and only if pings are slow |
| QosSafety.SlowPingsLower | net/qos-gargoyle/src/qosmon.c:1146-1153 | while the filtered ping exceeds its limit, the link's limit strictly falls or is at its floor |
| QosSafety.SlowRunReachesFloor | net/qos-gargoyle/src/qosmon.c:1134-1157 | a long enough run of slow pings in one mode brings the limit to its floor |
| QosSafety.WakesOnLoad | net/qos-gargoyle/src/qosmon.c:1035-1048 | asleep, the controller wakes exactly when the load reaches 15% of the link, which every limit lets through; until then it neither pings nor changes a limit |
| QosSafety.SleepsWithoutLoad | net/qos-gargoyle/src/qosmon.c:1130-1131 | it goes to sleep exactly when the load is below 10% of the link |
| QosSafety.SwitchRemembers | net/qos-gargoyle/src/qosmon.c:1050-1126 | switching modes saves the limit of the mode left and goes on from the one saved for the mode entered |
| QosSafety.SavedKept | net/qos-gargoyle/src/qosmon.c:1050-1126 | over any run in other modes the limit saved for a mode stays |
| QosSafety.MeasuredLimit | net/qos-gargoyle/src/qosmon.c:1003-1030 | exactly when the measurement ends and what it finds: twice the filtered ping, or with the `-a` switch 1.1 times that on top of the given one, within 10 and 800 ms; the link gets its limit back |
| QosSafety.AdjustedSpec | net/qos-gargoyle/src/qosmon.c:1131-1157 | range and direction of one adjustment, and bounds on its size |
| QosSafety.RaisedTo | net/qos-gargoyle/src/qosmon.c:1136-1144 | the raised limit is, rounded down, 0.4% a second above the old one for each ping limit the pings stay below it, and at most the bandwidth |
| QosSafety.LoweredTo | net/qos-gargoyle/src/qosmon.c:1146-1154 | the lowered limit is, rounded down, 0.5% a second below the old one for each ping limit of the excess, of which two count at most, and at least the floor |
| QosSafety.TickLimit | net/qos-gargoyle/src/qosmon.c:1133-1157 | what one tick makes of the limit: fast pings raise it by that amount if 85% of it is used and leave it otherwise, slow ones lower it |
| QosSafety.FastRunReachesLink | net/qos-gargoyle/src/qosmon.c:1133-1157 | after congestion, fast pings on a link in use bring the limit back to the full bandwidth in a bounded number of ticks |
| QosSafety.HalfIsEnough | net/qos-gargoyle/src/qosmon.c:1136-1144 | with pings of half the tolerated time every tick raises the limit by a whole bit or more |
| QosSafety.TickPing | net/qos-gargoyle/src/qosmon.c:967-998 | what one tick makes of the filtered ping: it follows the trip times while the controller pings, is kept otherwise, and starts from the trip that brings the second pong |
| QosSafety.DisturbedTick | net/qos-gargoyle/src/qosmon.c:956-966 | an error or another number of classes starts the controller all over, but for its limits, and nothing else does |
| QosSafety.StartsAt | net/qos-gargoyle/src/qosmon.c:911-911 | at the start every limit is 90% of the bandwidth |
| QosSafety.AlphaIs200 | net/qos-gargoyle/src/qosmon.c:801-803 | the filter constant is 200 for every interval |
| QosSafety.FilterSpec | net/qos-gargoyle/src/qosmon.c:968-971 | the filter never passes the sample, moves a fifth of the way, and stops exactly within 4 microseconds |
| QosSafety.FilterFits | net/qos-gargoyle/src/qosmon.c:354-354 | samples within the interval keep the filter within 1000 times the interval and its product within 32 bits |
| QosSafety.Converges | net/qos-gargoyle/src/qosmon.c:968-971 | under a constant sample the filter comes within 4 microseconds and stays |
| QosSafety.RemeasuringNeverLowers | net/qos-gargoyle/src/qosmon.c:1010-1030 | with the `-a` switch a second measurement adds to the first |
| QosSafety.KernelHasLastRate | net/qos-gargoyle/src/qosmon.c:557-569 | after any rates were passed on the kernel has the last one, exactly if it had the cached rate before or one of them differed from that; nothing else changes |
| Qosmon.Monitor.Adjust | net/qos-gargoyle/src/qosmon.c:1133-1157 | the new limit, which RaisedTo and LoweredTo are about, passed on to the kernel |
| Qosmon.Monitor.RunStates | net/qos-gargoyle/src/qosmon.c:1035-1158 | the idle, active and realtime states with their fall-through |
| Qosmon.Monitor.Measure | net/qos-gargoyle/src/qosmon.c:1003-1030 | the measuring state |
| QosSafety.LeavesWhenAnswered | net/qos-gargoyle/src/qosmon.c:977-998 | over every undisturbed run the controller is in its first state exactly until two pongs have come, never again afterwards, and the kernel then has the limit or the measuring rate |
| Qosmon.Monitor.Pass | net/qos-gargoyle/src/qosmon.c:907-1165 | one pass of the main loop, resets included |
| Qosmon.Monitor.Run | net/qos-gargoyle/src/qosmon.c:907-1175 | a whole run ends with the full bandwidth in the kernel, or the limit found |
| Checksum.InCksum | net/qos-gargoyle/src/qosmon.c:217-250 | the routine computes the checksum of section 1 of RFC 1071 for every length whose accumulator cannot overflow, odd ones included |
| Checksum.PaddedByte | net/qos-gargoyle/src/qosmon.c:236-241 | an odd byte counts as if a zero byte followed it |
| Checksum.StandardExample | net/qos-gargoyle/src/qosmon.c:217-250 | the checksum of the example bytes in section 3 of RFC 1071 |
| Checksum.TwoFolds | net/qos-gargoyle/src/qosmon.c:243-248 | adding the carries back twice gives the one's complement sum |
| Checksum.FilledChecksToZero | net/qos-gargoyle/src/qosmon.c:269-283 | a packet whose zeroed field is filled with its checksum checks to 0 |
| Checksum.ChangeIsSeen | net/qos-gargoyle/src/qosmon.c:217-250 | no other value of the field checks to 0, but for the two zeros of one's complement |
| Checksum.ByteOrderIndependent | net/qos-gargoyle/src/qosmon.c:217-250 | the checksum's bytes in memory do not depend on the byte order of the host |
| Classifier.Classifies | net/qos-gargoyle/files/qos_gargoyle.init:447-464 | an unmarked packet gets the class of the first rule in the list that takes it, or the default; a marked packet keeps its mark; the mark is saved under the mask |
| Classifier.LeastOrderDecides | net/qos-gargoyle/files/qos_gargoyle.init:130-236 | over all sections, that rule has the least test_order of those that take the packet |
| Classifier.InsertedRun | net/qos-gargoyle/files/qos_gargoyle.init:205-232 | inserted at the head, the first rule has the last word |
| Classifier.MangleChain.ApplyAllRules | net/qos-gargoyle/files/qos_gargoyle.init:130-236 | the loop of insertions builds that chain, skipping rules without class or match |
| Classifier.MangleChain.Assemble | net/qos-gargoyle/files/qos_gargoyle.init:447-464 | the whole chain of either direction |

## Left out

- PgbgpRuns.RunKeeps: speaks of runs whose announcements strand no edge entry and whose bypassed routes do not lose the origin of a flagged route; both conditions are on the state before the event and exact, and outside them the program can dereference a null pointer or fail an assertion.
- Disabling PGBGP and clearing its tables (160-pgbgp.patch:875-950): queue entries are freed without releasing their locks, so lock conservation does not hold there and no run contains it.
- Several address families and several routing tables: one table is modelled.
- The interned paths edge collection stamps (160-pgbgp.patch:2248-2283) are given as the set of their pairs; the asynchronous route selection is an event of its own.
- Withdrawals: the code that takes a route out of the RIB is the daemon's own and not in the repository; the model only removes the route.
- Log lines, statistics, the command shell, sockets, netlink, signals, files, UCI and crontab editing: input and output only. Of the log of a sub-prefix suspicion only its assertion is modelled.
- The priority queue, hash table, trie storage and string library the sources call: they are sequences, maps, a trie datatype and parameters.
- PgbgpStore.RestoreRebuilds: speaks of tokens of the file format, not of characters, and origins of a node come back in reverse order, which is why they are compared as sets.
- The textual form of iptables commands; a rule is a datatype, and every command is taken to be accepted.
- The main program of the rule compiler always compiles for egress; `RuleCorrect` covers both directions.
- The case folding of targets and options before compilation, and the reject flavour beyond its protocol guard.
- RuleCorrect.CompilerCorrect: is about packets of TCP and UDP, other protocols being in CompilerCorrectForAll, and both about marks with a clear high byte; what a terminal verdict leaves in the mark for the connection's next packet is not.
- BackupFilter.IpRangeToHostInts: takes prefix lengths 1 to 32; the C shift is undefined for others.
- Splitting a group on commas, tabs and spaces and reading dotted addresses are library calls, given as parameters; so is the sorting of rules by test_order, given by its result.
- The redirect chain of the nat table, the jumps into the quota chains, the values of limits and reset times, and the generation of quota ids, whose suffix counter never advances (restore_quotas.c:342-358).
- Checksum.InCksum: requires at most 65536 bytes, beyond which the accumulator can overflow.
- QosSafety.AlwaysSafe: takes netlink requests to succeed; the program does not look at their result before it caches the rate.
- Floating-point rounding in the controller, and the bandwidth filter that feeds it: fractions are exact reals and the load is an input. The command line's ping limit is taken to be non-negative.
- The QoS script's classes, queueing disciplines and shell quoting.
- `trpmp.c`, the `ns_name_skip` patch, `print_quotas.c`, `backup_quotas.c`, and the remaining packages: no algorithm whose state this model needs.
