# Maltrail, modelled and verified in Dafny

Maltrail replaces simple structures by fast ones and says in its comments that each fast form behaves exactly
like the simple one. This project models those pairs and proves how far they agree: for all inputs, all runs
and, where two threads meet, all interleavings. `dafny verify dfyconfig.toml` checks the whole project.

The modules, by the part of the system they model:

- **Trail builds** (`TrailGroup`, `TrailShard`, `TrailLocality`, `TrailMerge`, `TrailOrder`, `TrailBuild`,
  `TrailParts`, `StreamBuild`, `BuildsAgree`, `BuildsDiffer`, `RemoteDiffers`, with `TrailFold`, `Hex` and `Sorting`): the one-dict build and the
  streaming build of the trail set. `TrailShard` is the specification both share, a state machine of puts and
  deletes; `TrailBuild` and `StreamBuild` are the classes of the source, updating dicts, a bit filter, a repeat
  set and runs of scores in place. `TrailRules`, `TrailWritten` and `StreamFilter` say what those shared rules leave,
  apart from them and with every keyword and bit written out: names, labels, agreement sets, confidences.
- **Cache** (`SieveSpec`, `Lru`, `SieveUse`): the sensor's linked slab with index, free list, hand and doorkeeper, refining
  SIEVE on a sequence, and what use does to an entry over whole runs.
- **Trail stores** (`Powers`, `TrailTable`, `TrailBin`, `TrailsDict`, `AdoptRace`): the probed table built in two passes, the
  bisected split-hash arrays, and the lock-free swap with a reader in between.
- **Dashboard** (`Collect`, `Threats`, `Engine`, `ThreatRows`, `Feed`, `DeltaSync`, `WorkerPage`): aggregation against
  incremental merging, which rows make a threat and what it says of them, line reassembly, and the delta protocol from
  worker to page.
- **Alerts** (`Alert`): the bounded queue between two threads.
- **Addresses** (`SmallStr`, `Decimal`, `Ipv6Text`, `Ipv6Parse`, `Addr`, `AddrText`, `Ipv6Literals`, `HostPort`): the
  address texts in fixed buffers, their parsers, and the grammar these read.
- **Log and lookups** (`EventLine`, `EventFields`, `Confidence`, `ScoreFile`, `Candidates`, `SieveOff`, `CidrNeedle`, `Geo`):
  the event line and its splitter, the byte-wise binary search, the chunked line sieve with its text prefilter, the
  country tables.
- **Hash** (`FxHash`): the word chain modulo 2^64.

Hashes, the idna codec, whitelist, bogon and other regex tests, the clock and the network are parameters: the
theorems hold for all of them.

## Where the code and its comments differ

The model follows the code. In these places its comments, or what one would expect of it, promise something else.

1. The streaming build is called "byte for byte the one-dict build" (`core/update.py:833-846`). Contents and scores are
   equal without further conditions on merge and set rows (`BuildsAgree.BuildBoth`) if the first pass foresees the
   groups of the names the cleanup gives a key. It does for ASCII keys, for those idna turns into ASCII
   (`TrailGroup.ForeseenNames`), and for all keys if case folding works character by character
   (`TrailFold.AllForeseen`, `BuildsAgree.ProperWhenCharwise`). The order of the rows is equal if and only if the one
   dict ends in the order of its stamp texts (`BuildsAgree.SameOrder`). That holds whenever every inserting cleanup
   visit starts from a merge-phase stamp, in particular when the cleanup renames no key
   (`BuildsAgree.SameOrderWhenStill`); these two conditions on the rows are sufficient, and no exact one on the rows
   themselves is given. It fails on one feed of the five names "WWW.x", "x", "www.www.www.x", "www.www.x" and "C.d", in
   this order (`BuildsDiffer.OrderCanDiffer`).
2. A remote row is checked as the line was written and stored without its outer dots. The two forms are in one
   group exactly as `BuildsAgree.RemoteFormsGroup` says: not for a line made of "www." and dots only. With rows whose
   forms share a group the contents are equal (`BuildBoth`); for every other ASCII line without a slash there is a
   custom trail beside which the two builds write different contents (`RemoteDiffers.RemoteCanDiffer`).
3. `adopt` promises consistent snapshots "through any mode transition" (`core/trailsdict.py:166-168`). That is so if
   and only if no swap raises the mode, in the order mmap above frozen above build
   (`AdoptRace.SafeExactlyWhenFalling`).
4. `mergeRows` excepts a trail newly crossing the flood threshold. The exception is real
   (`Threats.NewFloodDiffers`), and exact: the merge equals a full aggregate if and only if every row was grouped as
   the flood set of the whole day groups it (`Threats.MergeIsFullExactly`).
5. The page's copy of a set's capped flag can lag behind the worker's when the ellipsis was itself one of the
   hundred values (`DeltaSync.CapLags`). Everything else on the page is exact.
6. `sensor/src/addr.rs:6-8` says that the last longest run of zero groups is collapsed. The code, like
   `core/addr.py:81-95`, rewrites the first one of the greatest length (`Ipv6Text.GapIsFirstLongest`); for
   1:0:0:2:0:0:3:4 that is another one (`Ipv6Text.FirstNotLast`).
7. An alert dropped while its post was under way, and then delivered, counts as dropped and as sent
   (`Alert.Conservation`, with a run in `Alert.CountedTwice`).
8. `_confidence_lookup` finds no key of more than 256 characters, present or not (`Confidence.Lookup`).
9. Once the sieve is off, `_candidates` splits chunks at carriage returns too. With CR LF line ends that changes
   nothing (`Candidates.SplitIsLines`, `Candidates.OftenExact`). A line that can match and has a carriage return of its
   own is torn and lost (`Candidates.ReturnsTearLines`), and nothing else is (`Candidates.ExactlyWhenClean`).
10. The prefilter of an address search is said never to skip a line that can match (`core/httpd.py:333-336`). That is so
   of lines whose addresses have octets up to 255 without leading zeros (`CidrNeedle.HuntLineHasIp`); the comparison
   also takes "10.00.0.5" for 10.0.0.5, and the prefilter does not (`CidrNeedle.SkipsOddOctets`).
11. `sensor/src/addr.rs:360` speaks of an optional trailing IPv4 form. The parser also reads a dotted quad where the text
   before "::" ends, as in "1.2.3.4::" (`Ipv6Literals.QuadFirst`); all that it reads is `Ipv6Literals.LiteralExactly`.
12. `confidence_score` calls its argument the number of agreeing feeds, 0 for a single source (`core/update.py:190-194`).
   The set it counts also holds the reference of the first listing: two feeds make 70, and 55 is the score of a trail
   listed again under its one reference only (`TrailRules.AgreementIs`). A trail that is renamed leaves its agreement behind
   (`TrailWritten.TrailIsWritten`).

## Model

| member | source | states |
|---|---|---|
| TrailGroup.GroupUnconditional | core/update.py:578-592 | the branch of `_group` on "/" and "?" only saves work: cutting and collapsing every lower-cased key gives the same group |
| TrailGroup.GroupOfLower | core/update.py:578-592 | lower-casing an ASCII key stays in its group |
| TrailGroup.GroupOfWithoutWww | core/update.py:578-592 | taking a leading "www." off an ASCII key stays in its group, whatever precedes or follows |
| TrailGroup.GroupOfCut | core/update.py:578-592 | cutting an ASCII key at its first "?" stays in its group |
| TrailGroup.GroupOfHalve | core/update.py:578-592 | one left-to-right replacement of "//" by "/" stays in the group, for runs of any length |
| TrailGroup.GroupAscii | core/update.py:578-592 | the group of an ASCII key is ASCII, so no ASCII row is ever in a group that is not |
| TrailGroup.ReachAscii | core/update.py:578-592 | an ASCII key reaches its own group only, through all renames one after the other |
| TrailGroup.ForeseenNames | core/update.py:595-604 | the groups of all names the cleanup can give a key that is ASCII, or that idna turns into ASCII, are exactly those of `_idn_groups` |
| TrailFold.AllForeseen | core/update.py:595-604 | so are those of every other key, a name idna refuses included, if the case folding works character by character |
| TrailLocality.CleanReach | core/update.py:668-750 | every store operation of one cleanup visit, renames, deletions and re-insertions alike, touches only groups of the names the visited key can be given, whatever idna makes of it |
| TrailLocality.OpsReach | core/update.py:657-769 | the same for every pass of the post-processing, the whitelist pass included |
| TrailLocality.OpsDependOn | core/update.py:657-769 | what a visit does depends only on the entries of the groups its key can reach |
| TrailLocality.VisitInside | core/update.py:657-769 | cutting a shard down to a set of groups commutes with a visit inside the set, stamps and agreement sets included |
| TrailLocality.VisitOutside | core/update.py:657-769 | a visit outside a set of groups leaves that part of the shard as it was |
| TrailLocality.VisitAllOnly | core/update.py:657-769 | a whole pass over any keys, restricted to some groups, is the pass over those groups alone |
| TrailLocality.PostProcessOnly | core/update.py:657-769 | post-processing one part of a shard gives that part of the post-processed shard |
| TrailMerge.FedOnly | core/update.py:633-655 | feeding all rows and looking at some groups is feeding the rows of those groups |
| TrailMerge.BuildOnly | core/update.py:633-769 | sharded execution equals sequential execution: building only the rows of some groups gives exactly that part of the build of all rows, in the same order and with the same stamps and agreement counts |
| TrailMerge.BuildGroups | core/update.py:633-769 | no trail of a build lies outside the groups its rows can reach |
| TrailOrder.CleanLength | core/update.py:619-631 | a cleanup visit inserts fewer than 16 keys, so the 16 stamp slots of a visit never overflow |
| TrailOrder.BuildEarly | core/update.py:619-631 | a stamp below the late range in a finished build is the sequence number of a row of that very trail |
| TrailOrder.BuildOrdered | core/update.py:619-769 | if every inserting visit starts from a merge-phase stamp, the dict ends in the order of its stamps |
| TrailOrder.OrderedRows | core/update.py:771-777 | entries in stamp order are rows in text order: up to 2^58 rows the stamps have 16 hexadecimal digits |
| TrailOrder.StillOrderly | core/update.py:668-750 | rows whose keys the cleanup does not rename (lower-case ASCII, no "www." of a name, no query but of a path, no "//") always meet that condition |
| TrailOrder.SinglesOrderly | core/update.py:969-973 | rows that share no group always meet that condition, so batches need no assumption |
| Hex.PaddedOrder | core/update.py:771-777 | zero-padded to 16 digits, numbers below 2^64 compare as text as they compare as numbers |
| TrailBuild.Shard.Put | core/update.py:619-626 | the in-place put is the specified one: a new key goes to the end of the dict and gets the stamp of the visit, an old key keeps both |
| TrailBuild.Shard.Delete | core/update.py:628-631 | deleting a key removes its entry and its stamp |
| TrailBuild.Shard.Apply | core/update.py:633-655 | one source row by the rules for merge, remote and set rows: priorities, reference agreement, custom trails kept; which label that leaves is `TrailRules.LabelKept` |
| TrailBuild.Shard.CleanTrail | core/update.py:668-750 | one visit of the basic cleanup, branch by branch, is the visit the locality lemmas speak of; what it leaves is `TrailRules.CleanupLeaves` |
| TrailBuild.Shard.PostProcess | core/update.py:657-769 | both passes over their key snapshots |
| TrailBuild.Shard.Rows | core/update.py:771-777 | the rows of a shard: one per trail in dict order, with the order text when it keeps stamps |
| TrailBuild.Shard.Scores | core/update.py:779-789 | one score per trail, sorted by trail, each by its reference and agreeing sources as `TrailRules.ConfidenceIs` gives it |
| TrailBuild.OneDictBuild.MergeSource | core/update.py:799-811 | appends the merge rows of a source with their normalized keys |
| TrailBuild.OneDictBuild.RemoteRow | core/update.py:813-814 | appends one remote row |
| TrailBuild.OneDictBuild.SetRow | core/update.py:816-817 | appends one set row |
| TrailBuild.OneDictBuild.Build | core/update.py:822-827 | writes the sequential build of all rows fed, in dict order, and its scores |
| TrailRules.WinsWhen | core/update.py:633-649 | when a merge row takes a trail over, keyword by keyword: always under a static or custom reference without "history" in the info, or with "mass scanner" or "ipinfo" in it; one of the ten low-priority words takes over nothing; any other row takes over what is not static or custom |
| TrailRules.KeptUnique | core/update.py:633-649 | of any labels merged one after the other at most one is left by the closed form of LabelKept |
| TrailRules.LabelKept | core/update.py:633-649 | after any run of rows, those of a key being merges: the label left is the last commanding one or else the first, or the ordinary one after it that nothing held against; the agreement set is the set of all references merged there, once there are two merges |
| TrailRules.OtherKinds | core/update.py:649-655 | a set row is always taken over; a remote one unless the trail under its checked form has "custom" or "static" in its reference; neither touches the agreement sets |
| TrailRules.SourceKeyIs | core/update.py:799-811 | the key of a source row: canonical if it has a colon, then without one leading "www." unless it has a slash |
| TrailRules.SourceRowsAre | core/update.py:799-811 | the rows of a source are merges, one an item, in its order |
| TrailRules.NamesAre | core/update.py:668-750 | the names a visit goes through, each from the one before: lower case or idna, without "www.", up to the first "?", "//" replaced from the left, lower case |
| TrailRules.CleanupLeaves | core/update.py:657-750 | what one visit of the cleanup leaves: which names go, under which name the trail stands, when it is dropped (disabled, empty, letters only, octets, too few feeds, a sinkhole), its info and reference, and the agreement sets; every keyword written out |
| TrailRules.SweepLeaves | core/update.py:752-769 | what one visit of the whitelist pass leaves, prefixes and keywords written out |
| TrailWritten.SweepAllLeaves | core/update.py:752-769 | the whole whitelist pass deletes exactly the unlisted trails |
| TrailRules.RowIs | core/update.py:771-777 | the row of a trail: its key and label behind the sixteen hexadecimal digits of its stamp |
| TrailRules.ConfidenceIs | core/update.py:188-202 | 100 for a reference with "custom" or "static"; else 40, 55, 70, 85 and 100 for 0, 1, 2, 3 and more agreeing references |
| TrailRules.AgreementIs | core/update.py:633-655 | of a trail merged under one key the agreeing references are none for one listing, and for more all references listed, its own among them |
| TrailWritten.TrailIsWritten | core/update.py:633-789 | from rows to output: of a trail whose groups no other row reaches, the name, the label and the confidence written, or none, from the labels merged under it |
| TrailParts.LonelyRow | core/update.py:864-879 | a row whose group hash is not in the repeat set has its group to itself: no other row can read, overwrite or delete its key, whatever hashes collide |
| TrailParts.RowSides | core/update.py:864-879 | a held-back row reaches groups of the held-back part only, and any other row its own group only, which is in no held-back part |
| TrailParts.HeldPart | core/update.py:943-950 | building the held-back rows in one dict gives the held-back part of the whole build |
| TrailParts.BatchPart | core/update.py:953-996 | building a batch of the other rows gives its part of the whole build, and no two of its rows share a group |
| TrailParts.PartsCover | core/update.py:943-996 | every trail of the whole build is in the held-back part or in a batch |
| TrailParts.PartRows | core/update.py:771-789 | a part's rows and scores are the whole build's rows and scores of its groups |
| TrailParts.BatchShape | core/update.py:953-996 | a batch's rows come out sorted, within the stamps of the batch or late |
| StreamBuild.NoneMissed | core/update.py:864-879 | the filter may hold back a group without need, never misses a repeated one, and holds back all groups of `_idn_groups` of a non-ASCII key |
| StreamBuild.Stream.Note | core/update.py:864-879 | sets exactly the two bits of the group, and adds to the repeat set exactly the hashes the key gives reason for |
| StreamFilter.RepeatsAre | core/update.py:864-885 | exactly which group hashes are held back, bit positions written out: those of `_idn_groups` of a key beyond ASCII, those of remote rows, and those both of whose bits earlier rows set |
| StreamBuild.Stream.MergeSource | core/update.py:898-908 | counts the merge rows of a source without storing them: filter, hashes and repeat set are those of all rows so far |
| StreamBuild.Stream.RemoteRow | core/update.py:910-915 | counts one remote row and always holds it back |
| StreamBuild.Stream.SetRow | core/update.py:917-919 | counts one set row |
| StreamBuild.Stream.Finish | core/update.py:936-941 | post-processes a shard that holds one part and adds exactly the scores of that part, in runs of 100000 or the rest |
| StreamBuild.Stream.BuildHeld | core/update.py:943-950 | builds and sorts the held-back rows |
| StreamBuild.Stream.StreamRows | core/update.py:953-996 | streams the batches: what is out, what is late and what is still held are the rows of the groups done, sorted, none lost |
| StreamBuild.EmittedIs | core/update.py:975-996 | streaming a sorted batch past the held rows loses nothing and stays sorted |
| StreamBuild.StreamEnd | core/update.py:989-996 | the late rows and the rest of the held rows, merged at the end, come after everything that went out |
| StreamBuild.Stream.Build | core/update.py:921-1002 | writes the rows of the sequential build, each once, sorted by stamp and trail, and its scores; also for rows of which the held-back ones only need to make the same as others |
| BuildsAgree.SameContents | core/update.py:833-846 | both builds write the same trails with the same info and reference, each trail once |
| BuildsAgree.SameScores | core/update.py:998-1002 | both builds write the same scores in the same order |
| BuildsAgree.SameOrder | core/update.py:833-846 | the two files are equal row by row if and only if the one dict ends in stamp-text order |
| BuildsAgree.SameOrderWhenOrderly | core/update.py:833-846 | they are equal whenever every inserting visit starts from a merge-phase stamp |
| BuildsAgree.SameOrderWhenStill | core/update.py:833-846 | in particular whenever the cleanup renames none of the keys of the rows |
| BuildsAgree.BuildBoth | core/update.py:792-1002 | both builds run on the same sources: each writes the sequential build of all rows, with equal scores, equal contents, and equal files exactly under the order condition |
| BuildsAgree.ProperWhenCharwise | core/update.py:595-604 | for a folding that works character by character, what BuildBoth asks of the rows is only that remote rows are checked and stored in one group |
| BuildsAgree.RemoteFormsGroup | core/update.py:578-592 | a remote line and the same line without its outer dots are in one group if and only if it has a "?", or something other than "www." and dots, or nothing but dots |
| BuildsDiffer.FeedRows | core/update.py:898-908 | the rows merged of a feed of five names, each without one leading "www." |
| BuildsDiffer.ReorderedIs | core/update.py:668-769 | these five rows leave the one dict in another order than that of its stamps |
| BuildsDiffer.OrderCanDiffer | core/update.py:833-846 | both builds run on this feed write the same contents in different orders |
| RemoteDiffers.HeldBack | core/update.py:910-915 | of a custom row and a remote row whose two forms are in different groups, the first pass holds back the remote one alone |
| RemoteDiffers.DictGroups | core/update.py:813-817 | in one dict the custom row keeps the remote one out: every trail left is in the group of the custom row |
| RemoteDiffers.RemoteStays | core/update.py:668-769 | built alone the remote row leaves a trail, whatever its form is renamed to |
| RemoteDiffers.MovedAlike | core/update.py:943-950 | the streaming build makes of the two rows what one dict makes of them with the remote row checked as it is stored |
| RemoteDiffers.RemoteCanDiffer | core/update.py:792-1002 | for every line whose two forms are in different groups, both builds run on a custom trail "www." and the line and the remote line: the streaming build writes a trail of a group the one-dict build writes none of |
| SieveSpec.WalkIs | sensor/src/lru.rs:246-260 | the walk of the hand clears at most one lap of bits, towards the head and round, and stops at the first entry without one |
| SieveSpec.VisitedSurvives | sensor/src/lru.rs:246-265 | a visited entry is evicted only if every entry was visited, and then it is the one the hand was on |
| SieveSpec.EvictKeeps | sensor/src/lru.rs:246-265 | exactly the entry the walk stops at goes; the others stay in order, with key and value, at most losing their bit |
| SieveSpec.DoSound | sensor/src/lru.rs:61-243 | every request keeps distinct hashes, a hand inside the list and the bound of the capacity |
| SieveSpec.DoCaches | sensor/src/lru.rs:217-243 | every request keeps "each entry holds f of its key" if the inserted values do |
| SieveSpec.HitsAreRight | sensor/src/lru.rs:127-135 | over any run from an empty cache whose inserts are f(k) for key k, every hit on k is f(k), with shared hashes, refused inserts and evictions |
| SieveSpec.LetIn | sensor/src/lru.rs:198-209 | after any run a hash is let in if and only if the last sighting in its doorkeeper slot had its fingerprint |
| SieveUse.GetMarks | sensor/src/lru.rs:127-135 | a get that hits sets the bit of its entry and changes nothing else; a miss changes nothing |
| SieveUse.PutReplaces | sensor/src/lru.rs:217-231 | a put under a hash that is there replaces that entry in place, with its bit set exactly if the key is the same |
| SieveUse.PutAdds | sensor/src/lru.rs:231-244 | any other put makes room if the cache is full; the new entry comes first and without a bit, the hand stays on its entry |
| SieveUse.EvictTakes | sensor/src/lru.rs:246-265 | the victim, by distance from the hand; exactly the bits of the entries the hand passes are cleared; the hand is left on the next one |
| SieveUse.UsedSurvives | sensor/src/lru.rs:246-265 | an entry with its bit set survives an eviction if another has none |
| SieveUse.OpensIs | sensor/src/lru.rs:198-209 | the doorkeeper lets a hash in exactly if there is none, or its slot holds the fingerprint of the upper bits |
| SieveUse.DoNext | sensor/src/lru.rs:61-244 | what any one request does to the bit of a key that is cached after it |
| SieveUse.MarkedIs | sensor/src/lru.rs:61-244 | over any run from an empty cache, the bit of a cached key is set exactly if it was hit, or overwritten under its own key, since it was inserted and since the hand last passed it |
| SieveUse.UsedStays | sensor/src/lru.rs:127-135 | a key used since then is still cached after the next put of another hash, if some cached key was not used |
| Lru.Unlink | sensor/src/lru.rs:267-285 | joining the neighbours of a node takes it, and nothing else, out of the doubly linked list |
| Lru.LruMap.constructor | sensor/src/lru.rs:61-74 | an empty, valid cache; capacity at least one |
| Lru.LruMap.WithAdmissionFilter | sensor/src/lru.rs:77-80 | a doorkeeper of at least 64 slots, a power of two, all empty; the cache is unchanged |
| Lru.LruMap.Len | sensor/src/lru.rs:82-84 | the number of entries, never above the capacity |
| Lru.LruMap.Clear | sensor/src/lru.rs:90-98 | no entries and no hand; the doorkeeper stays |
| Lru.LruMap.FindIs | sensor/src/lru.rs:107-114 | the index finds exactly what a scan of the list would |
| Lru.LruMap.Slot | sensor/src/lru.rs:107-114 | the slot of the entry with this hash and this key, none for another key of the same hash |
| Lru.LruMap.GetHashed | sensor/src/lru.rs:127-135 | a hit gives the value of the entry and sets its bit and nothing else, a miss changes nothing; both also stated without the specified step |
| Lru.LruMap.Contains | sensor/src/lru.rs:137-143 | whether a get would hit, without setting the bit |
| Lru.LruMap.Detach | sensor/src/lru.rs:267-285 | the links from head to tail list the same nodes without the detached one, no data changed |
| Lru.LruMap.PushFront | sensor/src/lru.rs:287-298 | the links list the new node before all others, no data changed |
| Lru.LruMap.Sweep | sensor/src/lru.rs:254-260 | the loop of evict computes the specified walk on the linked list and stops |
| Lru.LruMap.Evict | sensor/src/lru.rs:249-265 | refines the eviction on the sequence, keeping links, index, free list and hand consistent |
| Lru.LruMap.InsertHashed | sensor/src/lru.rs:217-244 | refines the insert on the sequence: overwrite in place, displace another key of the same hash, or evict when full and add |
| Lru.LruMap.Admit | sensor/src/lru.rs:198-209 | refines the doorkeeper: remember the fingerprint, admit if it was there |
| Lru.LruMap.InsertIfSeenBefore | sensor/src/lru.rs:161-168 | refines the guarded insert |
| Powers.MaskIsRemainder | core/trailsbin.py:78-95 | masking a hash with one less than a power of two is its remainder, bit by bit |
| TrailTable.HasRoom | core/trailsbin.py:61-76 | a table with more slots than stored hashes has a free slot, so every probe stops |
| TrailTable.Absent | core/trailsbin.py:78-95 | a free slot reached from the home of a hash means the hash is not stored |
| TrailTable.StillHolds | core/trailsbin.py:78-95 | a new hash in the first free slot from its home hides no other from its probe |
| TrailTable.Table.constructor | core/trailsbin.py:61-76 | a power of two of free slots, at least twice the rows expected |
| TrailTable.Table.Insert | core/trailsbin.py:78-95 | stores a new hash; false and no change for one that is there |
| TrailTable.Table.Find | core/trailsbin.py:194-232 | the number stored for a hash, or nothing, after finitely many probes |
| TrailBin.ClashingAre | core/common.py:644-700 | the colliding hashes are those of two rows, of one key or of two |
| TrailBin.FirstPass | core/common.py:644-700 | notes exactly the hashes met before, and fails exactly if the distinct pairs do not fit the numbering |
| TrailBin.SecondPass | core/common.py:644-700 | stores each hash of a single row with its pair and each row of a colliding hash by its key, the last one winning |
| TrailBin.Lookup | core/trailsbin.py:194-232 | probing and the exact-collision side give the answer the stored tables stand for |
| TrailBin.KeptIsFaithful | core/common.py:644-700 | what the second pass keeps answers as the last-wins map of the stream |
| TrailBin.BuildBin | core/common.py:644-700 | for every stream, colliding hashes and repeated keys included: the last pair for every key in it, nothing for any other key unless its hash is that of exactly one row, and a length that counts the distinct keys |
| TrailsDict.BisectLeft | core/trailsdict.py:186-234 | the first place not below the target, by bisection |
| TrailsDict.SplitFinds | core/trailsdict.py:91-143 | the sorted high and low halves find exactly the listed hashes with their pair numbers |
| TrailsDict.GroupByHash | core/trailsdict.py:91-143 | the first loop groups the keys by hash |
| TrailsDict.Collect | core/trailsdict.py:91-143 | the second loop keeps keys of shared hashes verbatim and lists the others with pair numbers |
| TrailsDict.CollectedCompacts | core/trailsdict.py:91-143 | what the loops collect, sorted and split, answers as the dict did |
| TrailsDict.Store.Get | core/trailsdict.py:236-256 | in either mode the value the store was given for a key, and for other keys what the mode answers |
| TrailsDict.Store.Contains | core/trailsdict.py:186-206 | in either mode every key the store was given, and otherwise exactly the keys get answers |
| TrailsDict.Store.Len | core/trailsdict.py:258-263 | in either mode the number of keys the store was given |
| TrailsDict.Store.Finalize | core/trailsdict.py:91-143 | keeps value, membership and length of every stored key, shared hashes or not; a key not stored hits if and only if its hash is that of a lone stored key; a second call changes nothing |
| AdoptRace.FirstFound | core/trailsdict.py:159-184 | on runs whose mode never rises, the first field found set holds a version at rest or being written, and the last field of a reader is never empty |
| AdoptRace.StepKeeps | core/trailsdict.py:159-193 | every step of the writer or the reader keeps that |
| AdoptRace.RiseFails | core/trailsdict.py:159-193 | any adopt from a lower to a higher mode (frozen to mmap, build to mmap, build to frozen) has an interleaving that leaves a reader with None |
| AdoptRace.SafeExactlyWhenFalling | core/trailsdict.py:159-193 | readers answer from a version current during their read under every interleaving if and only if no adopt of the run raises the mode |
| Collect.Accum | html/js/engine.js:50-68 | adds the non-empty parts of a comma list, or one value, until a hundred distinct ones are in, then closes the set with an ellipsis |
| Collect.TakeAllProper | html/js/engine.js:50-68 | a set only grows, at its end, and stays closed |
| Collect.CollectedIsCut | html/js/engine.js:50-68 | any run of calls holds the first hundred distinct parts seen, and an ellipsis exactly if there were more |
| Collect.DistinctAre | html/js/engine.js:50-68 | the reference of CollectedIsCut has each non-empty part once, in order of first sight |
| Collect.HundredValues | html/js/engine.js:50-68 | a hundred values at most, then one "…" |
| Threats.MergeTotals | html/js/engine.js:289-343 | merging keeps the totals per hour, type, source and trail and the flood set of a full aggregation, whatever happens to the threats |
| Threats.MergeIsFull | html/js/engine.js:283-343 | merging b into the aggregate of a equals the aggregate of a + b: totals and flood set always, everything else whenever no row groups differently under the two flood sets |
| Threats.MergeIsFullWithoutNewFlood | html/js/engine.js:283-343 | in particular threats, order, counts, hours, values, stored rows and dropped count agree whenever b brings no trail over the threshold |
| Threats.MergeIsFullExactly | html/js/engine.js:283-343 | with nothing dropped, and no source or info key written like a flood threat, the merge equals the full aggregate if and only if no row groups differently: a row that does is missing from the events of its flood trail |
| Threats.NewFloodDiffers | html/js/engine.js:283-287 | the documented exception is real: 50 sources loaded and the 51st merged give other threats than loading all 51 |
| Threats.GroupRowSound | html/js/engine.js:237-271 | a row keeps index and bounds and adds its weight to exactly one threat unless it is dropped |
| Threats.EveryEventCounted | html/js/engine.js:211-282 | with nothing dropped, the counts of the threats add up to the events of the day |
| Threats.MergeSound | html/js/engine.js:289-343 | the same over any split into a load and merges |
| ThreatRows.KeyIs | html/js/engine.js:245-250 | the text a row is grouped by, in its two sides, markers written out: dns exhaustion before flood before dga before heuristic |
| ThreatRows.LandsOnce | html/js/engine.js:237-271 | a row that counts adds to exactly one threat, the one of its text, or is dropped; any other to none |
| ThreatRows.SameThreat | html/js/engine.js:245-252 | two rows of a day make one threat if and only if both sides of their texts are equal: for dga rows source and info key, whatever the trail |
| ThreatRows.WeightIs | html/js/engine.js:91-96 | a row stands for as many events as the longest comma list of its ports, addresses and protocol, and those its info adds |
| ThreatRows.TotalsAre | html/js/engine.js:211-236 | the totals of a day per hour, type, type and hour, source and trail are sums of weights over its rows; the sources of a trail are those of its rows |
| ThreatRows.FloodIs | html/js/engine.js:211-220 | the flood set holds exactly the trails with more than 50 sources |
| ThreatRows.ThreatIs | html/js/engine.js:237-271 | every threat is that of the rows that landed in it: count, hours, first and last time, six value sets, and its first rows up to 500, or to 60000 in all |
| ThreatRows.DropsWhen | html/js/engine.js:252-253 | a row is dropped exactly if there are 120000 threats and none of its text |
| ThreatRows.SevCountIs | html/js/engine.js:272-276 | the count of a severity is the number of its threats |
| ThreatRows.SeveritiesShare | html/js/engine.js:272-276 | the three severities share out the threats, and in every hour their events |
| Engine.Day.constructor | html/js/engine.js:211-282 | the two passes and the naming loop compute the full aggregate |
| Engine.Day.AddTotals | html/js/engine.js:289-316 | the totals of one row, by its weight, hour, type, source and trail |
| Engine.Day.AddSource | html/js/engine.js:289-343 | the source joins the sources of its trail; the trail joins the flood set exactly when that crosses the threshold |
| Engine.Day.StoreRow | html/js/engine.js:237-271 | the six columns, count, hours, bounds and stored rows of one threat take one more row in |
| Engine.Day.GroupOne | html/js/engine.js:289-343 | the threat of a row is found or opened, or the row is dropped at the cap; the severity counters follow; which rows share a threat is `ThreatRows.SameThreat` |
| Engine.Day.ThirdPass | html/js/engine.js:272-276 | naming every threat and counting by severity |
| Engine.Day.MergeRows | html/js/engine.js:289-343 | folding rows in computes the specified merge, and the touched threats are those the rows went to |
| ThreatRows.TouchedAre | html/js/engine.js:289-343 | a merge marks exactly the threats it opened and those whose counts it raised |
| Engine.GroupsNamed | html/js/engine.js:272-276 | naming the threats at the end gives what naming them when they open does |
| Feed.Reader.Join | html/js/worker.js:45-51 | the pending bytes before the new ones, none pending afterwards |
| Feed.Reader.Chunk | html/js/worker.js:53-66 | after any chunks, the texts handed to the parser are the stream up to its last newline, and what is pending is the rest |
| Feed.Reader.End | html/js/worker.js:160-167 | the incomplete final line is counted and dropped |
| Feed.LinesOfTexts | html/js/worker.js:53-66 | the lines of the texts, in order, are the complete lines of the stream |
| Feed.SameStream | html/js/worker.js:45-66 | two ways of cutting one stream hand over the same bytes and leave the same rest |
| DeltaSync.RecordCopies | html/js/worker.js:104-116 | a threat shipped whole is read back whole |
| DeltaSync.GrowthCopies | html/js/worker.js:130-136 | appending what the six sets gained brings a copy of the old sets to a copy of the new ones |
| DeltaSync.UpdateCopies | html/js/worker.js:122-137 | an update brings a copy of a threat to a copy of the threat as it is now |
| DeltaSync.CapLags | html/js/worker.js:130-136 | the one thing a copy may miss: a set whose hundred values include the ellipsis closes without growing, so the page is not told |
| DeltaSync.MergeMoves | html/js/worker.js:43-43 | a merge changes only the threats it marks as touched, and only by growth |
| DeltaSync.DeltaCopies | html/js/worker.js:104-142 | after a delta the page has a copy of every threat, in order |
| DeltaSync.ReplayRebuilds | html/js/worker.js:96-142 | over any run of merges and deltas, replaying the deltas rebuilds every threat: six value lists, rows, count, first, last and hours |
| DeltaSync.SentOnce | html/js/worker.js:104-142 | every threat is shipped whole exactly once, in the order of the aggregate |
| WorkerPage.Sets | html/js/worker.js:84-90 | the six sets back to back, with their sizes |
| WorkerPage.Gained | html/js/worker.js:129-136 | what the sets gained since their remembered sizes, nothing if nothing |
| WorkerPage.Worker.Merge | html/js/worker.js:43-43 | folds rows in, remembering the touched threats across calls |
| WorkerPage.Worker.Delta | html/js/worker.js:104-142 | new threats whole, touched known ones by what moved; sizes and bounds remembered for the next delta |
| WorkerPage.SetSets | html/js/main.js:3410-3416 | the page cuts the flat list back into six sets |
| WorkerPage.GrowSets | html/js/main.js:3419-3425 | the page appends the gained values to the right sets |
| WorkerPage.Page.Apply | html/js/main.js:3430-3457 | the page applies new threats and updates by position |
| WorkerPage.Exchange | html/js/main.js:3430-3457 | a page that has applied every delta before has, after one more, a copy of every threat of the worker |
| Alert.Reachable | core/alert.py:232-307 | the invariant of the two threads holds after every interleaving of sends, takes, answers and wake-ups |
| Alert.Delivery | core/alert.py:232-307 | the queue never exceeds its cap, no alert is posted successfully twice, successes follow the order of sending, and every accepted alert is queued, dropped or sent |
| Alert.Conservation | core/alert.py:232-307 | accepted + (dropped in flight and then delivered) = queued + dropped + sent, in every interleaving |
| Alert.CountedTwice | core/alert.py:232-307 | a run with such an alert: a full queue, its oldest alert under way, one more sent, and then a successful answer |
| Alert.DroppedInFlight | core/alert.py:274-307 | an alert under way was dropped exactly if it is no longer the oldest waiting, and then its answer removes nothing |
| Alert.Alerts.Send | core/alert.py:232-250 | queues the payload, dropping the oldest when full; nothing without a payload |
| Alert.Alerts.Take | core/alert.py:274-283 | the oldest alert, left in the queue while it is posted |
| Alert.Alerts.Delivered | core/alert.py:285-299 | removes the alert only if it is still the oldest, counts it as sent, resets the delay |
| Alert.Alerts.Failed | core/alert.py:300-307 | keeps the alert, counts the failure, doubles the delay up to its maximum |
| Alert.Alerts.Woken | core/alert.py:300-307 | ends the sleep, then the oldest alert is tried again |
| Alert.DropsWhenFull | core/alert.py:232-250 | a thousand alerts wait at most: one more takes the place of the oldest, and only then is one dropped |
| Alert.DelayGrows | core/alert.py:300-307 | from the first failure on the pauses are 1, 2, 4, 8, 16, 32 and then 60 seconds, with the alert still queued |
| Alert.SuccessResets | core/alert.py:285-299 | a success starts the pauses anew |
| SmallStr.SmallStr.PushByte | sensor/src/smallstr.rs:47-53 | appends a byte, or nothing when full |
| SmallStr.SmallStr.PushStr | sensor/src/smallstr.rs:37-44 | appends a text, or as much of it as fits without cutting a UTF-8 character |
| SmallStr.FloorCharBoundary | sensor/src/smallstr.rs:104-109 | the last place up to a limit where a character begins: a byte whose two upper bits are not 10 |
| SmallStr.CutIsWhole | sensor/src/smallstr.rs:104-109 | a text of whole characters cut there is one of whole characters |
| SmallStr.SmallStr.PushU16 | sensor/src/smallstr.rs:56-71 | appends the decimal text of a 16-bit number, as much as fits |
| Ipv6Text.BestIsLongest | sensor/src/addr.rs:139-175 | scanning the text for runs of "0000:" is scanning the groups before the last one for runs of zeros |
| Ipv6Text.GapIsFirstLongest | sensor/src/addr.rs:142-166 | what the scan finds is a run no other run is longer than, and every earlier one is shorter |
| Ipv6Text.FirstNotLast | sensor/src/addr.rs:1-10 | of the two longest runs of 1:0:0:2:0:0:3:4 the first becomes "::", not the last |
| Ipv6Text.NothingShortened | sensor/src/addr.rs:139-175 | without a zero group before the last one every group keeps its four digits |
| Ipv6Text.CompressIsRender | core/addr.py:81-107 | collapsing and stripping the expanded text, backtracking regex included, gives the groups without leading zeros with that run as "::" |
| Ipv6Parse.QuadRoundTrip | core/addr.py:14-67 | reading the dotted text of a 32-bit number gives the number |
| Ipv6Parse.RenderRoundTrip | sensor/src/addr.rs:362-421 | the parser reads the rendering of any eight groups back; it has at most 39 characters, a colon and no dot |
| Ipv6Parse.RenderInjective | sensor/src/addr.rs:69-92 | two addresses never share a text |
| Addr.FindBest | sensor/src/addr.rs:139-175 | the loop over "0000:" units finds the longest run and its first place |
| Addr.MatchZeros | sensor/src/addr.rs:176-215 | the hand-written match of zeros before a word character backtracks as the regex does |
| Addr.PushStripped | sensor/src/addr.rs:176-230 | the substitution pushed byte by byte is the regex substitution of the text |
| Addr.CompressInto | sensor/src/addr.rs:139-230 | the whole compressed text fits its buffer |
| Addr.PushHex4 | sensor/src/addr.rs:119-125 | four hexadecimal digits of two bytes |
| Addr.RenderInto | sensor/src/addr.rs:69-92 | the text of an address, IPv4 or IPv6, untruncated |
| AddrText.ParseIpv6 | sensor/src/addr.rs:362-421 | reads what the specified parser reads, which `Ipv6Literals.LiteralExactly` gives by a grammar |
| Ipv6Literals.LiteralExactly | sensor/src/addr.rs:360-421 | the parser reads exactly the literals of a grammar given apart from it, each as its groups: words of one to four hexadecimal digits, one "::" for at least one group, a dotted quad as the last two groups of a side |
| Ipv6Literals.QuadTail | sensor/src/addr.rs:390-391 | a literal that ends in a dotted quad has its number in the low 32 bits and reads as with two words in its place |
| Ipv6Literals.MappedV4 | sensor/src/addr.rs:390-391 | "::ffff:" and a dotted quad v is 0xffff00000000 + v, for every v |
| Ipv6Literals.QuadFirst | sensor/src/addr.rs:360-421 | a dotted quad before "::" and nothing else is read too, as the first two groups |
| AddrText.V6RoundTrip | sensor/src/addr.rs:69-92 | every 128-bit number is read back from its text |
| AddrText.CanonicalExactly | sensor/src/addr.rs:342-359 | a text is accepted as an address if and only if it is the text the renderer gives that address |
| AddrText.CanonicalIdempotent | sensor/src/addr.rs:317-337 | the canonical form of any text is its own canonical form |
| AddrText.CanonicalSeparates | sensor/src/addr.rs:317-337 | two IPv6 literals have one canonical text if and only if they are one address |
| Ipv6Literals.KeyCanonical | sensor/src/addr.rs:317-334 | the canonical form of a bracketed key: the address rewritten and the port kept as written if it is one to five digits up to 65535, or the text unchanged |
| Ipv6Literals.TextCanonical | sensor/src/addr.rs:334-338 | the canonical form of any other text |
| AddrText.AddrPort | sensor/src/addr.rs:96-115 | the key of an address and a port fits its buffer |
| AddrText.HostPortRoundTrip | sensor/src/addr.rs:284-312 | a key is taken apart into the text of its address and its port |
| HostPort.HostOnly | sensor/src/addr.rs:284-312 | without a colon and brackets a text, white space around it aside, is a host without port |
| HostPort.HostAndPort | sensor/src/addr.rs:284-312 | otherwise the port is what follows the last colon, if it is digits up to 65535 |
| HostPort.HostInBrackets | sensor/src/addr.rs:284-312 | in brackets the host ends at the first closing one, and a port follows only after a colon |
| EventLine.PushSafeValue | sensor/src/event.rs:240-266 | a value with its line breaks as spaces, "-" for nothing, in quotes with doubled quotes where it needs them |
| EventLine.PushSafeField | sensor/src/event.rs:228-238 | the same for a field, a zero port being nothing |
| EventLine.RenderLine | sensor/src/event.rs:170-195 | the eleven fields, separated by spaces, and a newline |
| EventLine.SplitTextLineSlow | core/logfmt.py:57-84 | the loop with its flags is the state machine from one character to the next |
| EventLine.LineRoundTrip | core/logfmt.py:57-84 | a line of any values without line breaks is split into exactly those values |
| EventLine.EventRoundTrip | core/logfmt.py:40-101 | every event comes back as exactly eleven fields, each the value with line breaks as spaces and "-" for nothing, for any csv reader that refuses a line of several values or splits it as the slow splitter does; the line has one newline, at its end |
| EventFields.SplitIs | core/logfmt.py:57-84 | the splitter on any text, written by the sensor or not: a space or line break counts exactly with an even number of quotes before it, and of quotes only the first of two inside stays |
| EventFields.FieldsAre | core/logfmt.py:86-101 | any line: JSON exactly if it begins with a brace, else the first eleven fields of its text before a line break, if there are as many |
| EventFields.ValuesAreThese | sensor/src/event.rs:170-195 | the eleven values of a line in order: line breaks as spaces, "-" for nothing, numbers in decimal |
| EventFields.BodyIs | sensor/src/event.rs:240-266 | the text of a line: single spaces between the values, each in quotes exactly if it has a space or a quote, its quotes doubled |
| EventLine.CsvReads | core/logfmt.py:40-54 | Python's reader reads a line of several values back exactly if none is over its limit and it refuses no NUL of it |
| EventLine.CsvAgrees | core/logfmt.py:40-54 | the state machine of Python's csv reader for this dialect is such a reader, whatever its field limit and whether or not it refuses a NUL |
| EventLine.NeverJson | core/logfmt.py:28-38 | a line is taken for JSON if and only if its timestamp begins with a brace and needs no quotes; never with a space in the timestamp |
| Confidence.Around | core/httpd.py:180-201 | the newline searches around any byte of a record find its start and end, and the first tab its key |
| Confidence.Search | core/httpd.py:180-201 | on sorted clean records the search answers what a scan would; it stops on every buffer |
| Confidence.Lookup | core/httpd.py:153-206 | the score of a key that is present, None otherwise, and None for an empty key or one of more than 256 characters |
| ScoreFile.WriteScores | core/update.py:217-229 | writes one record of key, tab, score and newline per pair |
| ScoreFile.FileIsSound | core/update.py:217-229 | the file of the scores of a build is one of clean records sorted by the bytes of their keys if and only if no name has a tab or a newline |
| ScoreFile.ScanIsScore | core/httpd.py:180-201 | a scan of that file finds the confidence the build gives a trail, and nothing for another name |
| ScoreFile.WriteAndLookup | core/httpd.py:153-206 | from the scores of a build through the file to a lookup: the confidence of each trail of the build, written out as in `TrailRules.ConfidenceIs`, and None for any other name if no name has a tab or a newline; a name with one is never found |
| Candidates.PickedFilter | core/httpd.py:310-321 | picking lines by their starts, in order, loses none a filter keeps if every kept line is picked |
| Candidates.Sieve | core/httpd.py:309-318 | the starts found are those of the lines of all places, and cover every line that holds a needle, or a non-ASCII byte when folding |
| Candidates.SplitIsLines | core/httpd.py:305-308 | splitting a chunk at carriage returns too gives its lines if and only if every carriage return ends the chunk or comes before a newline |
| Candidates.Yield | core/httpd.py:305-323 | one chunk: the lines of all places in order and whether the sieve stays on, or every line |
| Candidates.Candidates | core/httpd.py:273-323 | for any blocks, what is yielded is what the chunks of whole lines give one after the other, the sieve off for good after the first chunk of which more than half the lines are candidates |
| Candidates.ExactlyWhenClean | core/httpd.py:273-323 | filtering the candidates by any test that implies a needle gives the lines of the whole file that pass it, in file order, if no line that can match has a carriage return of its own once the sieve is off; for the needle test itself if and only if |
| Candidates.OftenExact | core/httpd.py:273-323 | that condition holds for every file when folding, and for every file whose carriage returns all come before newlines |
| Candidates.ReturnsTearLines | core/httpd.py:305-308 | logs on which it fails, with a first block of any length: a matching line with a carriage return inside, read after the sieve turned off, comes out torn |
| SieveOff.CandidateWhen | core/httpd.py:273-318 | a line can match exactly if an ASCII needle is spelled in it, capital letters folded when folding, or if folding it has a byte beyond ASCII |
| SieveOff.KeepsWhen | core/httpd.py:320-323 | the sieve stays on exactly while it folds, or at most half as many lines can match as the chunk has whole lines |
| CidrNeedle.HuntIpQuery | core/httpd.py:326-366 | a query over 32 bits is none; otherwise the prefix is masked, the needle is that of its whole octets and the queried address, octets over 255 included, is in the network |
| CidrNeedle.MaskedIs | core/httpd.py:326-366 | a mask leaves the greatest multiple of its power of two not above the address |
| CidrNeedle.NeedleIs | core/httpd.py:361-364 | the needle is the whole octets in decimal, each with its dot but the fourth; none below 8 bits |
| CidrNeedle.NeedleBegins | core/httpd.py:326-366 | the dotted text of every address inside a network begins with the network's needle |
| CidrNeedle.HuntLineHasIp | core/httpd.py:369-392 | a yes is always right; a no is wrong exactly if an address of the line is in the network and the line lacks the needle, which no line with canonical addresses only does |
| CidrNeedle.CanonicalHasNeedle | core/httpd.py:326-341 | a line with an address of the network in canonical form holds the needle |
| CidrNeedle.SkipsOddOctets | core/httpd.py:326-341 | a query of 10.0.0.5 skips a line with 10.00.0.5, the same address by its value |
| CidrNeedle.ScopeNeedles | core/httpd.py:249-270 | the texts of the addresses and the needles of the networks; none if there is nothing, or some network fixes no whole octet |
| CidrNeedle.ScopeHasNeedle | core/httpd.py:249-270 | every line in scope holds one of these needles |
| Geo.Merge | core/update.py:1471-1481 | sorted ranges of which those of one country that touch or overlap are joined: ascending and disjoint, the same country for every address |
| Geo.RowsOf | core/update.py:1483-1488 | strictly rising starts, and bisecting them gives the country of a range or none in a gap |
| Geo.WriteGeo | core/update.py:1490-1499 | the header and one hexadecimal delta and country per row, IPv6 starts in units of a /64 |
| Geo.Parse | core/geo.py:45-65 | accumulates the deltas of a text with the right header |
| Geo.TableRoundTrip | core/geo.py:45-65 | a table is read back as it was written |
| Geo.StoredTable | core/update.py:1490-1499 | a table of two rows, character by character |
| Geo.SixWhen | core/geo.py:45-65 | a table is in units of a /64 exactly if its first line ends in ":6", spaces aside |
| Geo.NewTable | core/geo.py:45-65 | a text with the mark of deltas is read as lines of hexadecimal distances, lines without a comma skipped |
| Geo.OldTable | core/geo.py:45-65 | a text without the mark of deltas is read as lines of decimal starts in any order, lines without a comma skipped |
| Geo.Lookup | core/geo.py:101-108 | bisecting from the right gives the last row that starts at or before the address |
| Geo.Locate | core/geo.py:101-108 | records to answers through all four steps: an address has the country of a record that holds it, and none if there is no such record |
| FxHash.StepInjective | sensor/src/fasthash.rs:39-41 | one step keeps two words apart, and two states apart |
| FxHash.FinishInjective | sensor/src/fasthash.rs:92-100 | the final mixing keeps two states apart |
| FxHash.TailInjective | sensor/src/fasthash.rs:110-119 | the overlapping reads of a tail of one to seven bytes read every byte |
| FxHash.WriteBytes | sensor/src/fasthash.rs:46-58 | the loop over words, the tail and the length is the chain of steps |
| FxHash.NoByteIgnored | sensor/src/fasthash.rs:46-100 | from one start, inputs of one length that differ within one 8-byte block, tail included, hash differently |
| FxHash.StepIs | sensor/src/fasthash.rs:39-41 | a step multiplies by its constant after turning the state left by five bits, round the end |
| FxHash.FoldBits | sensor/src/fasthash.rs:92-100 | mixing leaves the upper 32 bits and turns a lower one over where the one 32 places above is set |
| FxHash.FinishIs | sensor/src/fasthash.rs:92-100 | the final mixing of a state below 2^32 |
| FxHash.TailIs | sensor/src/fasthash.rs:110-119 | the word of a tail of one to seven bytes, byte by byte |
| FxHash.WordsAre | sensor/src/fasthash.rs:46-58 | the length is mixed in first, then each eight bytes from the lowest up, then the tail |

## Left out

- Input and output: files, temporary files, CSV, mmap, sockets, gzip, JSON blobs, SQLite; rows, buffers and blocks are values.
- `hash()`, md5, the seeded hashes and murmur3, which are parameters; nothing is claimed of a key whose hash happens to be that of a stored key beyond what it then answers.
- Regexes of whitelist, bogon, CDN, info and address tests, and the idna codec: parameters of the rules.
- BuildsAgree.BuildBoth: of names idna refuses, that the first pass foresees their groups is proved for foldings that work character by character. Python's does but for a capital sigma at the end of a word; a name with one is covered if the groups its renames lead to are those of `_idn_groups` or not ASCII.
- Interning of pairs and memory of the streaming build: sorting and merging of runs (`sorted`, `heapq.merge`) are functions.
- StreamBuild.Stream.Build: requires at most 2^58 rows, since later stamps have more than 16 digits, and remote rows whose checked and stored forms share a group, since it is false of others (`RemoteDiffers`).
- TrailBin.BuildBin: the table's file layout is not modelled, and more than 2^32 - 1 distinct pairs end the build as a result instead of an exception.
- TrailsDict.Store: the mmap mode of the dict is `TrailBin.Lookup`; the arrays' type codes and the error of `finalize` on a mapped store are not modelled.
- Lru.LruMap: capacities up to 2^32 - 1, the range of its links; masking by a power of two is a remainder.
- Threats and Engine: the order of map iteration, the top lists, the lazily filled search text and risk; threats are identified by position, not by object.
- WorkerPage.Worker.Delta: typed arrays and the parallel index lists of the message are one record per threat; pacing and statistics are not modelled.
- Alert: throttling, formatting, the HTTP post and its error texts; each payload is an object of its own.
- Addr.RenderInto: 128-bit numbers are numbers with bounds, shifts are divisions.
- EventLine.EventRoundTrip: the csv reader of `split_text_line` and the reading of JSON lines are parameters; `EventLine.CsvReader` is the csv reader of CPython for this dialect, in which a line over the field limit falls back to the slow splitter.
- ScoreFile.WriteAndLookup: requires an encoding that keeps the order of texts, tabs and newlines, as UTF-8 does; beside a name with a tab or a newline nothing is promised of the other names.
- Confidence.Search and Geo.Parse: Python's `int()` also accepts signs, underscores and spaces; scores are read by a parameter, deltas by their digits.
- CidrNeedle.HuntLineHasIp: digits outside ASCII and numbers too long for `int()`; `CidrNeedle.ScopeHasNeedle` speaks of addresses in canonical form.
- Geo.Locate: requires what the registries publish, ranges of different countries being disjoint and IPv6 ranges whole /64s.
- FxHash.NoByteIgnored: the seeded hasher and its multiplications folded to 64 bits.
- Agreement of the Python and Rust texts of ports, which differ on leading zeros by design.
- Feeds, configuration, sessions, login, colouring, self-tests, the DOM code of the page.
