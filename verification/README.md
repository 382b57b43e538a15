# Retro Archive Box: a verified model

Retro Archive Box is an archive whose worth lies in what it never gets wrong: masters are addressed by
their content, indexes can be rebuilt from sidecars, hostile disk images are analysed within bounds, and
interrupted work continues. This project models those cores in Dafny and proves their promises for every
input, every run and every interleaving. `dafny verify dfyconfig.toml` checks all of it.

| files | subject |
|---|---|
| FatTable, FatChain, FatDirectory, FatEntry, FatRoundTrip, FatBoot, FatWriter, FatAdd | the FAT reader, and a writer it has to undo; the format is Microsoft "FAT: General Overview of On-Disk Format" version 1.03, sections "Boot Sector and BPB Structure", "FAT Data Structure", "FAT Type Determination" and "FAT Directory Structure" |
| SafePath, BoundedCopy, VisitRun, VisitInventory, VisitCause, Visit, Analyzers | confinement of names, bounded extraction, recursive analysis as a function and in place, what there is in a container, why an analysis ends early, and the analyzers it meets |
| Bencode, BencodeSpans, BencodeSource, HttpResume | torrent identity (BEP 3, sections "bencoding" and "metainfo files") and resumed downloads (RFC 9110, sections 14.4, 15.3.7 and 15.5.17) |
| Packages | live package tables against their replay from sidecars |
| Store, StoreLive | ingest as interleaved file and database writes with crashes, and what an ingest achieves |
| Inbox, Workflow, Provider | the inbox watcher, the preservation workflow, the malware provider queue |
| Graphs, Identity, Broker | the two acyclicity guards |
| Cue, Redump | CUE sheets and the optical disc authority |
| Common, Text, AnalysisTypes | shared vocabulary |

Objects whose methods update fields are classes; each method is proved against a function of the old
state, and the promises are lemmas about those functions or invariants that every method keeps. Servers,
providers, analyzers, capture devices, clocks and services are arbitrary inputs. Hash functions are
uninterpreted; where an identifier is a digest of several fields, the fields stand for it, which takes
the digest to be injective.

## What the proofs found

Where the code does less than it seems to promise, the code is modelled as it is, a lemma or contract
names an input that shows it, and the exact condition is proved.

- Analysis: the count limit is consulted for members but not for a nested file whose second probe fails
  after its first one matched. The list exceeds `max_files` by one exactly when that happens while it is full
  (`Visit.Analysis.Analyze`); `VisitRun.OneEntryTooMany` is such a run. Under a preserving policy a container
  that contains itself ends in a PolicyError, and so does a relationship recorded before, because its time
  differs (`Visit.Analysis.Keep`).
- Extraction: the FAT analyzer cuts a chain to the announced size and does not limit it itself; the bound on
  the workspace rests on the check of the announced size (`Analyzers.FatKeepsSize`,
  `Analyzers.FatAloneDoesNot`).
- FAT: the kind named by the boot sector's label wins over the cluster count, unlike in the specification.
  The two agree iff the label names no kind or the same one (`FatChain.KindIsByCountIff`);
  `FatChain.LabelWins` has a boot sector where they do not.
- Bencode: a negative string length can lead back to the start of the string or before it. Then "l-3:" never
  ends (`BencodeSource.NegativeLengthStalls`), and "d6:xxx12:0:4:info-15:0:e" is accepted with the digest of no
  bytes as its info hash (`BencodeSource.BackwardSpanIsHashed`). The parser stops with a fault of its own at
  such a string and follows the source on all other input (`BencodeSource.AtFollows`,
  `BencodeSource.BackwardIff`); data in which no minus sign begins a number before a colon has none
  (`BencodeSource.SourceEnds`). A negative length that leads forward can still make the hashed bytes no encoding
  of anything, exactly when the info value is such a string (`BencodeSpans.HashedBytesAreInfo`,
  `BencodeSpans.NegativeSpanIsNoValue`).
- Downloads: when a transfer breaks off after its last byte the partial file is complete, every later attempt
  asks for a range that starts at its end, and a server that refuses such a range leaves the download stuck
  (`HttpResume.StuckDownload`). One attempt that goes well is enough iff no attempt starts that way
  (`HttpResume.Download.Acquire`). A body that ends in an exception that is not retried, like IncompleteRead,
  ends the download.
- Rebuild: it fails for a package whose newest generation lacks a payload or readme, and it matches events
  to packages by path alone, so presence needs stems that are not shared between sources and are not paths
  of tracked files (`Packages.RebuildIffWhole`, `Packages.IncompletePackageStopsRebuild`, `Packages.ForeignEvent`). Rows are
  committed before their sidecars are written; a run that stops in between leaves live rows that a replay does not
  give, exactly when a generation file or an event of presence is missing, and a later run does not write it
  (`Packages.InterruptedIff`, `Packages.VanishedUpToIff`).
- Workflow: a conservative run stops only for two different objects, so it completes when one of its
  captures, or both, preserved nothing. Resuming skips verification and completes only while no analysis
  job is recorded; afterwards it ends in a forbidden transition and stays in PRESERVED, although
  docs/preservation-workflow.md presents runs as resumable.
- Inbox: whatever goes wrong between the commit of an occurrence and the final job write, a crash or an
  exception in recording the event, the sidecar or the malware state, leaves an occurrence that no completed
  job covers. The file is tried again, after an exception up to `max_retries` times, and each time gets another
  occurrence (`Inbox.TwoScansDuplicate`). The recovery also passes over a completed job that it cannot read, and
  over all of them when it cannot hash the file; such a file, or one whose content changes between that hash and the
  staging, gets another occurrence and another completed job (`Inbox.TwoScansOverlook`). There is no other way to a
  second occurrence (`Inbox.WatchedInbox.Scan`).
- Broker: the guard searches an empty graph while the archive has no database file, although definitions are
  stored beside it. A definition that closes a cycle with others is then accepted, and only then
  (`Broker.ResourceBroker.Register`, `Broker.CycleSlipsIn`).
- Identity: the guard follows relationships of every kind, and adding an identical relationship later is
  refused, because its time differs.
- Provider: a status of IMPORTED sent by the provider is stored although no result was imported.
- Optical: seconds of a CUE time are not bounded. A disc whose track numbers do not strictly increase over
  its sessions does not match its own rows, and since a disc's identifier does not cover the CUE archive,
  importing it again with fewer tracks leaves rows behind that stop it from matching.

## Model

| member | source | states |
|---|---|---|
| FatTable.Entry | src/rab/analysis.py:309-316 | an entry is read exactly when its last byte lies inside the table, and is always below the number of values its width can hold |
| FatTable.ReadAfterWrite | src/rab/analysis.py:309-316 | reading cluster c after writing v gives v modulo 4096, 65536 or 2^28, for every cluster and every table length |
| FatTable.WriteIsLocal | src/rab/analysis.py:309-316 | writing the entry of c leaves the entry of every other cluster as it was, the 12-bit neighbour that shares a byte included |
| FatBoot.FormatIsRead | src/rab/analysis.py:295-306 | a geometry written at the offsets of the specification (11, 13, 14, 16, 17, 19 or 32, 22 or 36, 44, and the label at 54 or 82) is recognised as it is, for FAT12, FAT16 and FAT32 and whatever else the sector holds |
| FatBoot.FrontIsSpecified | src/rab/analysis.py:295-306 | the table and the fixed root directory are read from the sectors of that geometry |
| FatBoot.ClusterIsSpecified | src/rab/analysis.py:317-328 | cluster n is read from the sectors that the specification gives it, counted from 2 |
| FatBoot.EntryIsSpecified | src/rab/analysis.py:309-316 | an entry is the two bytes, the 28 bits or the byte and a half at its place, stated byte by byte |
| FatBoot.MarksAreSpecified | src/rab/analysis.py:317-328 | a chain goes on exactly at the values from 2 below 0xff8, 0xfff8 or 0xffffff8 |
| FatBoot.FormattedRoundTrip | src/rab/analysis.py:295-358 | on an image formatted with any sound geometry, whatever tree is laid out at its places is listed with its names in order, and each file is extracted with its bytes |
| FatEntry.NameIsRead | src/rab/analysis.py:344 | the name listed for an entry is the base, or base and extension with a dot between, that the eight and three bytes spell before their blanks |
| FatEntry.PaddedNameIsListed | src/rab/analysis.py:344 | any base of one to eight characters and extension of up to three, encoded and padded with blanks, is listed as the base or as base, dot, extension |
| FatEntry.EntryIsRead | src/rab/analysis.py:338-348 | an entry is passed over iff it is deleted, a label, a long-name fragment or a dot entry; otherwise attributes, first cluster (both halves) and size are those at their offsets |
| FatChain.BpbGeometry | src/rab/analysis.py:295-306 | an accepted boot sector has clusters of positive size and puts table, root directory and data behind one another, behind the first sector |
| FatChain.KindIsByCountIff | src/rab/analysis.py:300-306 | the kind is the one the specification determines by the cluster count iff the label names no kind or this one |
| FatChain.LabelWins | src/rab/analysis.py:300-306 | a boot sector of 97 clusters labelled FAT16 is read as FAT16 |
| FatChain.ChainPathIsChain | src/rab/analysis.py:317-328 | the walk succeeds iff the image holds a complete chain within the limits, declared without reference to the walk: distinct clusters inside the image, each the successor of the one before, then a stop mark; it then visits that chain |
| FatChain.LoopHasNoChain | src/rab/analysis.py:317-328 | a table that leads back to a visited cluster ends the walk with an error, for every loop |
| FatChain.ChainBytes | src/rab/analysis.py:317-328 | what a chain yields is no longer than the larger of max_single_bytes and one cluster |
| FatChain.Chain | src/rab/analysis.py:317-328 | the loop over out, seen and current terminates on every table and returns the concatenated clusters of that chain, or its error |
| FatDirectory.Walk | src/rab/analysis.py:329-352 | the members listed so far stay, and their number never exceeds max_files; termination holds on cross-linked and cyclic images |
| FatDirectory.FatReader.Directory | src/rab/analysis.py:333-349 | the recursive walk equals the specification; no cluster starts a directory twice on one path, and each descent has used up one count, so depth and count are within max_files |
| FatDirectory.FatReader.ListMembers | src/rab/analysis.py:329-352 | lists from the root chain of FAT32 or from the fixed root directory; never more than max_files members |
| FatDirectory.Materialize | src/rab/analysis.py:353-358 | an extracted file has exactly the size of its directory entry |
| FatRoundTrip.WalkFindsSlots | src/rab/analysis.py:333-349 | from any slot of a directory on, the walk lists exactly what the remaining slots of the laid-out tree stand for |
| FatRoundTrip.ListingIsExact | src/rab/analysis.py:329-352 | listing a volume on which a tree is laid out within the limits gives the members of the tree, in order, and nothing else |
| FatRoundTrip.FilesAreRecovered | src/rab/analysis.py:353-358 | every file of the tree, however deep, is extracted with its exact bytes |
| FatRoundTrip.RoundTrip | src/rab/analysis.py:295-358 | both together, from the bytes of the image: list_members lists the tree, whose slots carry base and extension of their names and stand in the bytes as the specification has it, and materialize_member returns each content, for FAT12, FAT16 and FAT32 |
| FatWriter.WrittenChainReads | src/rab/analysis.py:309-328 | linking free clusters and filling them makes a chain the reader walks, and its bytes are the ones written |
| FatWriter.WriteIsConfined | src/rab/analysis.py:309-328 | that write changes neither entry nor bytes of any other cluster |
| FatWriter.TreeFrame | src/rab/analysis.py:329-358 | a tree stays laid out while its own clusters keep entries and bytes |
| FatWriter.BpbFromFirstSector | src/rab/analysis.py:295-306 | the recognised geometry depends on the first sector and the size of the image only |
| FatAdd.PutIsRead | src/rab/analysis.py:317-328 | an entry written into one cluster of a directory is the one change in the bytes of its chain |
| FatAdd.AddFileIsConfined | src/rab/analysis.py:309-328 | adding a file changes no table entry but those of its clusters, and no bytes but theirs and those of the directory cluster written to |
| FatAdd.ExpectedInsert | src/rab/analysis.py:332-350 | the members of the tree with one more slot, anywhere in it, are the old ones with what stands for the slot at its place |
| FatAdd.AddFileExtendsTree | src/rab/analysis.py:329-358 | adding a file on free clusters to any directory of the tree, the fixed root, the root chain of FAT32 or a subdirectory at any depth, gives a volume that holds the tree with the file |
| FatAdd.AddFileThenList | src/rab/analysis.py:295-358 | from the bytes of an accepted image that has room for the file: the image with the file is accepted with the same geometry, the reader lists one more member at the place of the file, extracts from it the bytes written, and lists all others as before |
| FatAdd.RoomSuffices | src/rab/analysis.py:295-306 | the checks of an accepted boot sector give what adding a file needs beside the room for it: parts placed behind one another, clusters of whole directory entries, and a sound place for the entry |
| FatAdd.AddFileKeepsBpb | src/rab/analysis.py:295-306 | an image with an added file is recognised with the same geometry |
| SafePath.AcceptedIsConfined | src/rab/analysis.py:104-108 | whatever name a container supplies, an accepted path is a chain of proper components below the root without a drive prefix, and is accepted again unchanged |
| SafePath.CleanIsAccepted | src/rab/analysis.py:104-108 | every path of proper components is accepted as it is |
| SafePath.SafeLogicalIff | src/rab/analysis.py:104-108 | for every name, written as components with slashes or backslashes between: refused iff it has a NUL, starts with a separator, has a component ".." or a colon in the first component that counts; otherwise the components that are neither empty nor "." joined by slashes, or "member" |
| SafePath.EveryNameIsWoven | src/rab/analysis.py:104-108 | every name can be written like that |
| SafePath.EntryPathExtends | src/rab/analysis.py:344-346 | below a directory a proper name extends the path by exactly that component |
| BoundedCopy.Copy | src/rab/analysis.py:111-120 | copies the whole source iff it has at most `maximum` bytes; otherwise it refuses, having written at most `maximum` |
| BoundedCopy.Region | src/rab/analysis.py:123-131 | yields exactly the declared region; the three outcomes are told apart by exact conditions on offset and size |
| VisitRun.OneEntryTooMany | src/rab/analysis.py:453-490 | a run with room for one entry that lists two and ends complete: the probe answers differently when the member is visited |
| VisitInventory.AnalysisIsInventory | src/rab/analysis.py:435-503 | in a world whose answers do not depend on the moment, that is never late and whose store takes everything: the analysis ends normally iff everything there is in the container, found by plain recursion without limits, fits max_files, max_nested, max_bytes, the size and ratio limits, raises nothing and repeats no relationship; its entries, files, visits, relationships and warnings are then those of that inventory |
| VisitCause.WhyAnalyzed | src/rab/analysis.py:435-503 | every analysis that ends early has a cause that is real in its final variables: LIMIT_EXCEEDED iff entries, nested visits, announced size, ratio or total size are used up or an analyzer said so, TIMEOUT iff a reading of the clock was late or one said so, and likewise for the other states; one that ends normally has none |
| Analyzers.FatKeepsSize | src/rab/analysis.py:353-358 | the FAT analyzer writes no more than one member may have, for every member whose announced size passed the check |
| Analyzers.FatAloneDoesNot | src/rab/analysis.py:353-358 | without that check it would write a whole cluster that is larger than the limit |
| Analyzers.FatExtractsMember | src/rab/analysis.py:353-358 | extraction through visit gives the bytes of the FAT model |
| Analyzers.FatWorldIsBounded | src/rab/analysis.py:453-490 | where the FAT analyzer is the one that matches, the bound on the workspace applies |
| Analyzers.CopyMember | src/rab/analysis.py:111-120 | extraction by _bounded_copy keeps the limit whatever was announced |
| Analyzers.CopyRegion | src/rab/analysis.py:123-131 | extraction by _bounded_region keeps the limit whatever was announced |
| Visit.Analysis.Check | src/rab/analysis.py:476-481 | the checks of an extracted file in their order, and what each leaves in the workspace |
| Visit.Analysis.Materialize | src/rab/analysis.py:474-481 | a member is accepted iff its extraction raised nothing and every check passes (announced size, max_single_bytes, max_ratio, time, max_bytes), and then with exactly the bytes extracted |
| Visit.Analysis.Keep | src/rab/analysis.py:482-488 | a member is preserved iff the store takes it, it is not its own container and the relationship, by analyzer, path, raw name and depth, is new; then it is marked with the digest of its bytes and related once |
| Visit.Analysis.ListUnrecognised | src/rab/analysis.py:460-462 | an unrecognised file is listed without asking a limit, when the list is not beyond max_files; so the list exceeds it by one at most, and does iff it was full |
| Visit.Analysis.Take | src/rab/analysis.py:473-488 | extraction, then ingest when the policy preserves, succeeds iff every check passes and the store takes the file; the entry under work is the only one touched, and the container of nested members is known |
| Visit.Analysis.Enter | src/rab/analysis.py:455-459 | a visit passes iff it is within max_depth, max_nested and the time limit |
| Visit.Analysis.Inspect | src/rab/analysis.py:466-469 | members are taken over iff the analyzer is available, answers and is in time |
| Visit.Analysis.Visit | src/rab/analysis.py:453-490 | terminates for any analyzers, clock and store, for probes that raise and for containers that contain themselves, with exactly the state of the specification; keeps every budget; never raises the max_depth exception when started at a permitted depth; when it ends normally every container it opened is handled completely |
| Visit.Analysis.Probe | src/rab/analysis.py:460-490 | behind the limits: an exception of a probe ends the analysis, a file that nothing matches is listed, and the members of a recognised one are all handled |
| Visit.Analysis.Open | src/rab/analysis.py:489 | what was extracted is visited iff an analyzer matches it above the depth limit; a recognised file is always opened |
| Visit.Analysis.Admit | src/rab/analysis.py:470-488 | a member is refused for max_files iff the list is full, and then nothing changes; otherwise it gets one entry, and is admitted iff it is a directory, only metadata is wanted, or its extraction passes every check and the store takes it; the entry stands under its container with the status the policy asks for |
| Visit.Analysis.Member | src/rab/analysis.py:470-489 | one round: the member is admitted, and opened if it is recognised and above the depth limit |
| Visit.Analysis.Members | src/rab/analysis.py:470-490 | the loop over members keeps every budget and leaves every member listed, in order, and opened where it has to be |
| Visit.Analysis.Analyze | src/rab/analysis.py:435-503 | for any analyzers: expanded equals the sum of the accepted files and is within max_bytes; at most max_files + 1 entries are listed, and more than max_files iff a nested visit found nothing to recognise while the list was full; every parent is the root or was preserved before; an analysis that ends complete has listed every member of every container it opened, from the root on, and has opened every recognised member above the depth limit; one that ends early does so for a real cause, which decides the state; in a quiet world it ends normally iff the inventory of the container fits, and has then listed exactly it. With analyzers that keep the size limit of a member the workspace never exceeds root + max_bytes + max_single_bytes |
| Bencode.Parse | src/rab/acquisition.py:658-678 | the recursive parser with its two loops equals the specification and terminates on every input; it stops with a fault of its own at a string that leads backward |
| Bencode.ReadDecimal | src/rab/acquisition.py:661-678 | the decimal text of every integer is read back by int() |
| Bencode.ReadIntIff | src/rab/acquisition.py:661-678 | int() accepts exactly blanks, a sign, digits with single underscores between them, and blanks, and gives their value |
| Bencode.KeyIff | src/rab/acquisition.py:669-675 | a dictionary with any value as its key is read iff that key is a number or a string, and is a TypeError otherwise |
| Bencode.RoundTrip | src/rab/acquisition.py:658-678 | parsing the encoding of any value, with any bytes before and after it, returns the value with the exact span of every dictionary value and stops exactly at its end |
| Bencode.InfohashIsOfInfo | src/rab/acquisition.py:657-686 | the info hash of an encoded torrent is the digest of the encoding of its info value |
| Bencode.InfohashIff | src/rab/acquisition.py:679-686 | an encoded dictionary, with repeated keys and anything behind it, has an info hash iff nothing is behind it and it has the key "info" |
| Bencode.InfohashIsOfLastInfo | src/rab/acquisition.py:670-686 | with repeated keys the info hash is the digest of the encoding of the last info value |
| Bencode.OnlyDictionaries | src/rab/acquisition.py:679-684 | no value but a dictionary has an info hash |
| Bencode.InfohashIgnoresOtherKeys | src/rab/acquisition.py:657-686 | two torrents with the same info value have the same info hash, whatever other keys they have and in whatever order |
| BencodeSpans.HashedSpanIsInfo | src/rab/acquisition.py:657-686 | for arbitrary bytes that the parser accepts the hashed span is the one at which the value stored under info was read, and lies inside the data |
| BencodeSpans.AtLocal | src/rab/acquisition.py:658-678 | a value is read in the same way from its own bytes alone, up to the last byte looked at |
| BencodeSpans.HashedBytesAreInfo | src/rab/acquisition.py:657-686 | the hashed bytes are by themselves an encoding of the info value, to their very end, iff that value is not a string with a negative length that leads forward |
| BencodeSpans.NegativeSpanIsNoValue | src/rab/acquisition.py:676-678 | "d4:info-2:ab0:e" is accepted, and the hashed byte is the sign of a length |
| BencodeSource.AtFollows | src/rab/acquisition.py:658-678 | for every input on which no string leads backward the parser gives the answer of the source with its unchecked lengths: value, spans, end or exception |
| BencodeSource.SpanFollows | src/rab/acquisition.py:657-686 | for such input the source hashes exactly the span of the model |
| BencodeSource.NeverBackward | src/rab/acquisition.py:658-678 | no string leads backward in data in which no minus sign begins a number that ends before the next colon, at whatever position parsing starts |
| BencodeSource.SourceEnds | src/rab/acquisition.py:657-686 | on such data, and so on data without any minus sign, the source ends with the value, span or exception of the parser |
| BencodeSource.BackwardIff | src/rab/acquisition.py:676-678 | the parser stops with its own fault iff the source would go on at or before the start of the string |
| BencodeSource.SourceProgress | src/rab/acquisition.py:676-678 | a string moves the source forward iff its length does not undo the text it was read from |
| BencodeSource.NegativeLengthStalls | src/rab/acquisition.py:663-678 | on "l-3:" the source never ends: it uses up any amount of fuel |
| BencodeSource.BackwardSpanIsHashed | src/rab/acquisition.py:657-686 | "d6:xxx12:0:4:info-15:0:e" is accepted by the source with the span from 17 to 6, so that the digest of no bytes is returned |
| Packages.StateOf | src/rab/catalogue.py:206-219 | the replay loop returns the newest generation of the package and the presence its events leave it with |
| Packages.Rebuild | src/rab/catalogue.py:276-283 | the rebuild loop writes one row for each package with generations, or fails |
| Packages.ReplayEqualsLive | src/rab/catalogue.py:206-219 | in every state that agrees with its sidecars, replay gives exactly each live row and no others |
| Packages.RebuildIffWhole | src/rab/catalogue.py:276-283 | a rebuild succeeds iff every live package has a payload and a readme, and then restores the live rows |
| Packages.IncompletePackageStopsRebuild | src/rab/catalogue.py:276-283 | one recorded package without a payload makes every rebuild fail, although the live rows agree with the sidecars |
| Packages.NewIsPresent | src/rab/catalogue.py:206-219 | nothing recorded before the first generation of a package makes it absent |
| Packages.RecordedAgrees | src/rab/acquisition.py:572-610 | recording any content of a package keeps agreement: generations dense from 1, neighbours different, newest content and presence as in the row |
| Packages.VanishedAgrees | src/rab/acquisition.py:561-569 | marking any number of packages as gone, rows first and events after, ends in agreement |
| Packages.InterruptedIff | src/rab/acquisition.py:572-610 | when recording a package stops after the commit of its row and some of its sidecars, replay is still the live state iff a changed package has its generation file and an absent one its reappearance; a later run that finds the same changes nothing |
| Packages.VanishedUpToIff | src/rab/acquisition.py:561-569 | when a run stops among the events of vanished packages, replay is still the live state iff all were written; a later run passes over the others |
| Packages.ForeignEvent | src/rab/catalogue.py:213-218 | the exact condition under which an event about something else leaves a row in agreement |
| Packages.SharedStemIsMisread | src/rab/catalogue.py:213-218 | two sources with one stem: the disappearance of one package is replayed for the other too |
| Packages.TrackedStemIsMisread | src/rab/catalogue.py:213-218 | a package whose stem is the path of a tracked file is replayed as absent when that file disappears |
| Packages.Acquisition.Package | src/rab/acquisition.py:572-610 | an unchanged package at most reappears; a changed one gets the next generation, its event, and a reappearance if it was absent |
| Packages.Acquisition.Ingest | src/rab/acquisition.py:154-192 | the path becomes tracked and present; package rows and generations stay |
| Packages.Acquisition.MarkMissing | src/rab/acquisition.py:502-513 | exactly the tracked files of the source that are not present any more become missing, each with one event of its own; the number of them is returned |
| Packages.Acquisition.MarkDisappeared | src/rab/acquisition.py:561-569 | exactly the packages of the source that the run did not find become absent, each with one event of its own |
| Packages.Acquisition.Sync | src/rab/acquisition.py:515-570 | after any run the tables agree with the sidecars again. Package by package: what was acquired for a stem, its completeness by cases (failed, complete, without payload, without readme), presence, generation and metadata; the other packages of the source are absent. File by file: present iff it was so or was ingested, and is still found if it is of this source. Event by event: one disappearance for each file and package lost, one failure for each stem that failed, and no other |
| Packages.Acquisition.SyncStem | src/rab/acquisition.py:536-559 | one stem: its files are tracked and present, its package says what was acquired, with its completeness by cases, and is present, all other packages stay, and its failure is recorded iff it failed |
| Store.NextKeepsInv | src/rab/store.py:97-171 | every write of every ingest, a crash at any point and a new ingest keep the invariant |
| Store.RunIsSafe | src/rab/store.py:97-211 | the invariant holds after any interleaving of ingests, with source files that change between two reads |
| StoreLive.LoneIngest | src/rab/store.py:97-171 | from every reachable state with a free lock, an ingest alone of a file that does not change is refused iff its parent is not stored or the object is stored with another parent, and leaves no trace then; otherwise at most twelve steps give the whole new state: a new object has its bytes as master, its manifest and its row, and the occurrence is in the tables, the event files, the event rows and the sidecars |
| StoreLive.StepIff | src/rab/store.py:97-211 | every step of an ingest among others ends it for one of four reasons, waits for the transaction of another and changes nothing, or brings it nearer to its end |
| StoreLive.EndsIff | src/rab/store.py:97-171 | an ingest disappears iff it crashes, its parent is not there, its file changed, another ingest stored the object in between, or the object has another parent |
| StoreLive.SomeoneMoves | src/rab/store.py:97-211 | no deadlock: while an ingest is not complete, it or the holder of the lock can move |
| StoreLive.EnoughSteps | src/rab/store.py:97-211 | in any schedule an ingest that nothing ends is complete once it had twelve steps that did not wait |
| StoreLive.IngestIsTaken | src/rab/store.py:97-171 | then, if its file does not change, its bytes are a committed object whose master has their hash, and its occurrence is recorded everywhere |
| Store.StoreSafety | src/rab/store.py:97-211 | at any moment of any run: a master hashes to the name of its directory; a committed row has its master and a manifest equal to it, and is unique; an occurrence belongs to a committed object of the requested parentage |
| Store.ParentIsEarlier | src/rab/store.py:114-141 | a derived_from parent was committed before its child |
| Store.DerivationIsAcyclic | src/rab/store.py:114-157 | no chain of derived_from links returns to an object it has left |
| Store.RowsOnlyGrow | src/rab/store.py:97-211 | committed rows and occurrences are never changed or removed, not even by a crash |
| Store.Archive.Prepare | src/rab/store.py:97-129 | resolving the parent, hashing, looking up and copying change no table and no file in place; what they lead to is the specification that StoreLive.LoneIngest and StoreLive.EndsIff are about |
| Store.Archive.Write | src/rab/store.py:130-157 | each write up to the commit changes what its stage says, and waits or is refused when another transaction holds the lock or has committed first |
| Store.Archive.Conclude | src/rab/store.py:157-211 | the commit adds row and occurrence together and gives back the lock; event file, event row and sidecar follow one by one |
| Store.Archive.Execute | src/rab/store.py:97-211 | carrying out any schedule on the store gives the state of the specification and keeps its invariant, so that all laws of Store and StoreLive hold of it |
| Workflow.LegalAppend | src/rab/preservation.py:88-97 | a permitted move, a recovery or a note keeps the log legal and leads it to the new state |
| Workflow.TerminalIsFinal | src/rab/preservation.py:34-53 | the states without successors are exactly the terminal ones |
| Workflow.TerminalAbsorbs | src/rab/preservation.py:34-53 | in every legal log the state stays what it is once it is terminal |
| Workflow.CaptureEndIff | src/rab/preservation.py:158-171 | where the captures of a run end, by profile and answers: a conservative run makes two and stops for an operator iff they preserved two different objects; the others make one |
| Workflow.WarnsIff | src/rab/preservation.py:176-203 | what a run warns of, by profile: complaints of analyses, of providers unless the profile is quick, and products that fail among two, four or six |
| Workflow.KeptHas | src/rab/preservation.py:158-166 | the objects kept are those some capture preserved, each once |
| Workflow.JobsAre | src/rab/preservation.py:178-195 | the jobs recorded are those of all answers, in order |
| Workflow.PartialIffKeptThenRaised | src/rab/preservation.py:158-166 | the captures end in PARTIAL iff one raised after an object was kept |
| Workflow.Preservation.constructor | src/rab/preservation.py:99-104 | a new run has a log of one event and no completion time |
| Workflow.Preservation.Transition | src/rab/preservation.py:92-97 | happens iff the table permits it; sets the completion time iff the new state is terminal; a forbidden one changes nothing |
| Workflow.Preservation.Prepare | src/rab/preservation.py:110-134 | each outcome by its exact condition: without a candidate it waits for an operator, with one the plan decides, a raising registry leaves it INSPECTING, and a forbidden move is requested iff the table lacks it |
| Workflow.Preservation.CaptureAll | src/rab/preservation.py:158-166 | the whole new record: the captures before the first that raises are counted, and their distinct objects kept in order |
| Workflow.Preservation.CapturePhase | src/rab/preservation.py:148-174 | from READY_TO_CAPTURE nothing forbidden is requested, and the state afterwards is the one the captures determine |
| Workflow.Preservation.VerifyAll | src/rab/preservation.py:168-173 | disagreeing captures of a profile that requires a match stop for an operator; otherwise it goes on to PRESERVED iff every object kept passes its fixity check |
| Workflow.Preservation.Execute | src/rab/preservation.py:148-174 | from READY_TO_CAPTURE without objects it never requests a forbidden move; an object that fails its fixity check stops it; when the services answer it ends in exactly the state that captures, profile, complaints of analysis and providers, and failed products determine, COMPLETE or COMPLETE_WITH_WARNINGS |
| Workflow.Preservation.Downstream | src/rab/preservation.py:176-205 | a forbidden move is requested iff the table does not lead from the state to the first stage that is due, and then nothing changes; otherwise the final state is the one the answers determine |
| Workflow.AskAll | src/rab/preservation.py:180-194 | collects the jobs of all answers and whether one complains, iff none raises |
| Workflow.Preservation.AnalyzeAll | src/rab/preservation.py:178-184 | the jobs of all objects are stored, iff no analysis raises; none otherwise |
| Workflow.Preservation.Scan | src/rab/preservation.py:185-195 | the whole new record: the jobs of all targets when a scan is due; it fails iff one is due and the selection or a provider raises, and then changes nothing |
| Workflow.Preservation.Build | src/rab/preservation.py:198-203 | the products that can be built are counted, and the run is marked iff a warning was noted or one cannot be built |
| Workflow.Preservation.Finish | src/rab/preservation.py:196-205 | succeeds iff identity and report do; the state is COMPLETE_WITH_WARNINGS if a warning was noted before or a product could not be built, and COMPLETE otherwise |
| Workflow.Preservation.Resume | src/rab/preservation.py:207-212 | a run with objects and without recorded analysis jobs ends in the state the answers determine; with recorded jobs it ends in a forbidden move, in PRESERVED |
| Workflow.Preservation.Cancel | src/rab/preservation.py:214-217 | possible from every state that is not terminal, and keeps what was preserved |
| Graphs.EdgeKeepsAcyclic | src/rab/identity.py:184-190 | an added edge keeps a graph acyclic iff its target does not reach its source |
| Graphs.PathWithEdge | src/rab/identity.py:184-190 | a path of the extended graph avoids the new edge, or enters and leaves it by old paths |
| Graphs.RedefinitionKeepsAcyclic | src/rab/broker.py:251-260 | redefining the successors of one node keeps a graph acyclic iff that node reaches no cycle afterwards |
| Identity.FindsCycle | src/rab/identity.py:184-190 | the worklist search terminates on every graph and answers true iff the object reaches the subject |
| Identity.AddedIsAcyclic | src/rab/identity.py:176-195 | the guarded kinds, all three together, stay acyclic after an addition the guard lets pass |
| Identity.IdentityCatalogue.Add | src/rab/identity.py:176-195 | each refusal by its exact condition, what is stored otherwise, and acyclicity over every sequence of calls |
| Broker.OrderedHasNoLoop | src/rab/broker.py:251-260 | from a node of a finishing order no path visits a node twice |
| Broker.Search.Visit | src/rab/broker.py:254-260 | the three-colour search finishes the node, keeping a topological order, or has found a cycle its start reaches |
| Broker.ReachesCycle | src/rab/broker.py:251-260 | searching from the new node alone raises iff that node reaches a cycle |
| Broker.StoredIsAcyclicIff | src/rab/broker.py:236-260 | a new definition leaves the graph acyclic iff it was acyclic and the definition reaches no cycle in the full graph |
| Broker.SoleLoop | src/rab/broker.py:251-260 | with no database the guard sees the new node alone, and finds a cycle iff the node depends on itself |
| Broker.CycleSlipsIn | src/rab/broker.py:236-252 | on a fresh archive, a crash before the rebuild of one registration and then a registration that closes the cycle: both are stored |
| Broker.ResourceBroker.Register | src/rab/broker.py:236-260 | stored definitions never change; with a database a definition is refused for a cycle iff storing it would let it reach one, without a database iff it depends on itself; over all calls, crashes and losses of the database the graph is acyclic iff no new definition closed a cycle while there was no database |
| Inbox.ProcessedIsBalanced | src/rab/local_ingest.py:106-141 | wherever an exception or a crash strikes: the occurrences are those of the completed jobs and those struck between commit and final job write |
| Inbox.CompletedJobTellsIff | src/rab/local_ingest.py:330-341 | looking for a completed job tells whether an item has an occurrence iff it was never struck or has a completed job as well |
| Inbox.IngestedOnce | src/rab/local_ingest.py:307-341 | a complete ingest keeps an item at one occurrence iff it had none, which for an item never struck is that it had no completed job |
| Inbox.OverlookedIff | src/rab/local_ingest.py:330-341 | for unchanged content completed jobs are overlooked iff there are some and the hash fails or none of them can be read |
| Inbox.ProcessedIsExplained | src/rab/local_ingest.py:307-341 | processing an item that has a completed job only if that job was missed keeps every second occurrence explained by a strike or a miss, and every second completed job by a miss |
| Inbox.TwoScansDuplicate | src/rab/local_ingest.py:343-396 | a run of two scans over unchanged content that ends with two occurrences, after a crash or an exception between commit and final job write |
| Inbox.TwoScansOverlook | src/rab/local_ingest.py:330-341 | a run of two scans over unchanged content, with nothing struck, that ends with two occurrences and two completed jobs, because the second cannot hash the file or cannot read the job record |
| Inbox.WatchedInbox.Recover | src/rab/local_ingest.py:330-341 | finds the first completed job for this path and content that can be read; nothing when the hash fails |
| Inbox.WatchedInbox.Process | src/rab/local_ingest.py:307-328 | the books afterwards for every place where an exception or a crash can strike |
| Inbox.WatchedInbox.ScanFile | src/rab/local_ingest.py:343-396 | for every fault and crash point: the books, the status the file ends with, and that a completed job is missed iff one covers what is ingested. A file is left alone iff it is completed, ignored or failed with the same fingerprint, or waits for its next try; one that is due is ingested and completed when it is ready, claimed and not known already and nothing raises; an exception fails it for good iff it is permanent or the retries are used up, and otherwise sets the next try |
| Inbox.BackoffDoubles | src/rab/local_ingest.py:389-390 | the wait before the next try doubles from the configured delay up to 64 times it |
| Inbox.WatchedInbox.ScanNext | src/rab/local_ingest.py:343-396 | occurrences and strikes only accumulate; nothing is missed but what the file held, and that only when its content changed or could not be hashed or a job record could not be read |
| Inbox.WatchedInbox.Scan | src/rab/local_ingest.py:343-396 | over any scans with exceptions, crashes and unreadable records anywhere: an item has more than one occurrence iff it was ingested again, then one of its occurrences was struck or a completed job for it was missed; it has two completed jobs only if one was missed; and only files that changed, could not be hashed or met an unreadable record are missed |
| HttpResume.RangeStartIsExact | src/rab/acquisition.py:232-236 | a Content-Range field passes the check iff it announces exactly the requested start |
| HttpResume.SliceContinues | src/rab/acquisition.py:232-241 | a checked partial reply continues the beginning that is already there |
| HttpResume.Download.Stream | src/rab/acquisition.py:313-329 | appends what arrived, or replaces the file when the offset is zero, however the reading ends |
| HttpResume.Download.Transfer | src/rab/acquisition.py:209-241 | a reply that ignores the range restarts from nothing, a partial reply elsewhere is not used, and otherwise what had arrived is kept; it ends the download iff opening fails for good, there is no space, or the reading dies, and completes iff a reply is read to its end; an attempt that goes well completes the file unless it is complete already, and then a refused range leaves it as it is |
| HttpResume.Download.Acquire | src/rab/acquisition.py:194-260 | a returned identity is the digest of a complete file, and the expected one if one is expected, whatever the server sends; if it serves slices of one payload the partial file is always a beginning of it, and a file of its size is the payload; with an attempt that goes well and a server that refuses a range at the end, the download succeeds iff no attempt started with the complete payload as its partial file, and if the first attempt goes well iff the call did not; the last attempt is the first that delivers the file or ends the download, and decides |
| HttpResume.Download.Try | src/rab/acquisition.py:209-260 | one attempt: it delivers the file iff the transfer brings one of the expected size and digest and the archive takes it, and ends the download iff the transfer breaks down for good or the handover fails for good |
| HttpResume.LaterGoesWell | src/rab/acquisition.py:194-260 | the server of the next row serves every range that asks for a byte |
| HttpResume.StuckDownload | src/rab/acquisition.py:194-260 | a transfer that breaks off after the last byte leaves a partial file that no number of further attempts finishes |
| Provider.Validate | src/rab/malware_provider.py:343-387 | accepts a result iff it names this request, job and input, is fresh and has at most 256 sane observations of distinct scanners |
| Provider.StoredGrows | src/rab/malware_provider.py:265-274 | an import keeps every stored observation, adds only observations of this request, and a complete one has stored every item |
| Provider.StoredIff | src/rab/malware_provider.py:265-274 | a result can be stored iff each identifier is free or holds this very observation, and equal identifiers within it mean equal observations |
| Provider.ImportIsIdempotent | src/rab/malware_provider.py:265-274 | importing the same result twice adds nothing |
| Provider.MalwareProviderManager.Create | src/rab/malware_provider.py:229-235 | an existing request is returned as it is |
| Provider.MalwareProviderManager.Submit | src/rab/malware_provider.py:236-250 | the new request for every reply; a job is taken over iff the reply names this very request, is well formed and in an accepted state, and no other request of the provider has it |
| Provider.MalwareProviderManager.Import | src/rab/malware_provider.py:265-274 | succeeds iff the result is valid, its job belongs to no other request and no identifier is taken; it then names this request, job, object hash, size, representation and profile, and each of its observations is stored and recorded as one of this object; an invalid result stores nothing; jobs stay injective per provider |
| Provider.MalwareProviderManager.StoreAll | src/rab/malware_provider.py:265-274 | the loop stores the observations in order and stops at the first identifier that is taken, as the specification does |
| Provider.MalwareProviderManager.Poll | src/rab/malware_provider.py:253-264 | the next state for every status and result; a status for another request or job is rejected; a request becomes IMPORTED with its result stored, or because the provider claims so, and then nothing is stored |
| Provider.MalwareProviderManager.Cancel | src/rab/malware_provider.py:275-280 | a submitted request is cancelled only when the provider confirms it |
| Cue.ReadLines | src/rab/optical.py:77-118 | the line loop equals reading the lines one after the other |
| Cue.ParseCue | src/rab/optical.py:61-138 | reading, the check for empty sessions and the two publishing loops equal the specification |
| Cue.ParsedIsWellFormed | src/rab/optical.py:61-138 | whatever the sheet, an accepted disc has ascending session numbers, distinct positive track numbers within a session, and tracks that carry their session, their file's hashes and their INDEX 01 as start |
| Cue.TimeRoundTrip | src/rab/optical.py:45-49 | every frame address survives printing as a canonical time and reading |
| Cue.TimesAreNotCanonical | src/rab/optical.py:45-49 | seconds above 59 are accepted, so two times name one frame |
| Cue.TrackIsRead | src/rab/optical.py:92-118 | a printed track is read as itself, behind the tracks of its session read before |
| Cue.PrintThenParse | src/rab/optical.py:61-138 | parsing the printed sheet of any sound disc gives the disc: same sessions and tracks in order, same frame addresses |
| Cue.ShownThenParsed | src/rab/optical.py:61-138 | every other sheet that says the same is read as the same disc: blank lines, remarks and unknown commands anywhere, commands and modes in any case, zeros in front of numbers, anything behind the name of a file |
| Cue.PublishedIff | src/rab/optical.py:119-138 | that sheet is accepted iff each track has an INDEX 01 and none divides by a zero sector size; then every field of every track is the printed one, 2352 bytes a sector for audio and the size named by the mode for data, and there is a sector count iff the file has a size that is a multiple of the sector size, which is then their product |
| Redump.OwnTracksMatchIff | src/rab/redump.py:316-330 | a stored disc matches its own rows iff its track numbers strictly increase and no row of an earlier import is left over |
| Redump.MatchingIffFits | src/rab/redump.py:316-330 | a stored disc is among the matches iff it is of the dataset asked for, its recorded layout is that of the observed tracks field by field, its rows are exactly those of the observed numbers, which increase, and each row agrees with its track and shares a hash with it if it has one |
| Redump.UnsharedHashKeepsOut | src/rab/redump.py:327-329 | a track that shares no hash with its row keeps the disc out, whatever else agrees |
| Redump.ImportedFitsIff | src/rab/redump.py:149-186 | comparing with a disc imported with increasing numbers: it fits iff every observed track is the imported one at its position in number, session, mode, sector size and count, start and gaps, and shares a hash with its file if that has one |
| Redump.ImportedIsFoundIff | src/rab/redump.py:149-186 | after a whole dataset is imported, the same condition decides for each of its discs whether it is among those that match it |
| Redump.PrintedDiscIsRecognised | src/rab/redump.py:220-254 | from the printed sheet to the verdict: EXACT_MATCH with the disc, or AMBIGUOUS when another one matches too, iff its track numbers strictly increase over all sessions; otherwise it is never recognised |
| Redump.RestartedNumbersConflict | src/rab/redump.py:316-330 | a disc whose numbering restarts in its second session does not match itself |
| Redump.LeftoverRowConflicts | src/rab/redump.py:176-183 | a disc imported again with fewer tracks keeps an old row and does not match itself |
| Redump.RedumpAuthority.InsertDisc | src/rab/redump.py:166-186 | the tables after one disc: a later track of the same number replaces the earlier row |
| Redump.RedumpAuthority.ImportDiscs | src/rab/redump.py:134-186 | either every disc of the dataset is stored or the tables stay as they were |
| Redump.RedumpAuthority.Compare | src/rab/redump.py:220-254 | EXACT_MATCH iff exactly one disc fits, AMBIGUOUS iff several do, CONFLICT iff none does but one of as many tracks is known, NOT_APPLICABLE iff none is; what fits is stated track by track and hash by hash; NO_MATCH is never answered |

## Left out

- Routing, HTML, JSON shaping and argument parsing (web, api, cli): no invariant of their own.
- Device access, foreign tools and subprocesses: captures and analyzers are arbitrary results.
- Networking, TLS, FTP, rsync, aria2, timeouts and real time: responses and questions to a clock are inputs.
- ZIP, TAR, gzip and XML internals, ISO 9660 and partition tables: analyzers are arbitrary member lists and byte sources.
- The table of code page 437: FAT names are decoded by an arbitrary function from bytes to characters; warning texts are counted only.
- FatAdd.AddFileExtendsTree: writes one copy of the table, because the reader reads one copy, and does not extend a directory that is full by another cluster.
- Bencode.Parse: does not model CPython's limits on recursion and on the digits of an integer, and stops at a string that leads backward, where the source goes on as BencodeSource has it.
- SQL text, schema migration, full-text search, pagination and field filtering.
- Packages.Rebuild: models package rows only; file-level `source_objects` rows ignore reappearance when replayed (src/rab/catalogue.py:269-275). `updated_at` times are not part of the rows compared.
- Store.Archive.Write: a wait for the database lock is a step that changes nothing and a lock timeout is a crash; temporary files that a crash leaves behind and the flushing of directories are not modelled.
- Inbox.WatchedInbox.Scan: one watcher and non-recursive inboxes; the takeover of stale locks is not atomic in the source, and completed directory trees are ingested again on every scan (src/rab/local_ingest.py:258-266, 290-296).
- Workflow.Preservation.Transition: event and record are written in one step; a crash between the two writes is not modelled.
- HttpResume.Download.Acquire: free space and the archive answer as inputs; file flushing is not modelled.
- Provider.Validate: the syntax checks of protocol, field and timing form are one truth value each, in the result and in its items.
- Broker.ResourceBroker.Register: the checks of identifiers and rights before the guard, delivery and availability decisions.
- Identity.IdentityCatalogue.Add: resolution of identifier prefixes, evidence checks, sets and products.
- Cue.ParseCue: works on decoded lines split into tokens; quoting, non-ASCII digits, the `file_sizes` argument and the title are not modelled.
- Redump.RedumpAuthority.Compare: the evidence it returns beside its verdict, and the JSON text of layouts, which stand for themselves.
- Dataset metadata files and assertions written after an import of discs.
