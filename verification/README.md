# Verified model of the Rucio FUSE view

A read-only FUSE file system shows a Rucio catalogue: servers, scopes, containers and files. Beneath the
I/O it consists of five small stateful parts, which this project models in Dafny and proves properties of.

| file | part | source |
|---|---|---|
| `Text.dfy` | the C++ string operations used everywhere (`find`, `erase`, `replace`, `getline`) | `source/utils.cpp` |
| `Machine.dfy`, `Number.dfy` | bytes, 32-bit narrowing; `atoi`, `std::stoll` | `source/utils.cpp`, `source/REST-API.cpp` |
| `DidStream.dfy` | reassembly of DiD records from arbitrary chunks, with the static remainder | `source/utils.cpp` |
| `DidRecord.dfy` | parsing of one record, whole listings | `source/utils.cpp` |
| `Base64Url.dfy` | base64url decoder (section 5 of RFC 4648) and token payload (section 7.1 of RFC 7515) | `include/globals.h` |
| `Download.dfy`, `Pipeline.dfy` | one download attempt; the retry pipeline as interleaved steps | `include/rucio-download.h`, `include/download-pipeline.h` |
| `Container.dfy`, `ListCache.dfy`, `Catalogue.dfy` | the caches: expiring lists, type and size by key | `include/thread_safe_container.h`, `source/REST-API.cpp` |
| `RecordSearch.dfy`, `ContainerAnswer.dfy` | where a quoted word stands in a printed record; what an answer for one DiD says about its type | `source/REST-API.cpp` |
| `FileSize.dfy` | the search for a file size in an answer cut into chunks | `source/REST-API.cpp` |
| `DownloadCache.dfy`, `FileRead.dfy` | `rucio_read`: enqueue decision and bounded read | `include/download-cache.h`, `include/fuse-op.h` |
| `Paths.dfy` | path depth, extractors, cache paths | `source/utils.cpp`, `include/rucio-download.h` |
| `Metalinks.dfy` | the bracket scanner for replica PFNs | `source/REST-API.cpp` |
| `ScopeList.dfy`, `ScopeCutting.dfy` | the tokenizer of scope lists, whole and in chunks | `include/utils.h`, `source/REST-API.cpp` |

Code that updates state step by step is a class or a method with loops (`Reassembler`, `Base64UrlDecode`,
`RucioPipeline`, `Store`, `FileSystem`, ...), proved equal to a specification function; the theorems are
lemmas about these functions, over every input, every run or every reachable state.

## Reading the model

- `std::string::npos` is the length of the string. An operation of the code that throws or is undefined
  there (a read past the last token, an iterator out of range, `substr` beyond the end) yields `None`; where
  callers never get there, it is a precondition (an empty path, the root path for the extractors, more than 32767 slashes,
  the unopened handle of a cached file, and, for `RucioListDids` and `RucioListContainerDids`, an answer with a record
  whose parsing reads past its last token; `Catalogue.OutcomeIsTrue` shows that a printed listing never has one).
- A struct member that is never assigned, and a number `atoi` cannot represent, is `None` in a `Did`.
- An empty `getline` piece is read as not ending in `}` (`source/utils.cpp:193` looks at the last character
  of an empty string there). 32-bit `int` wraps in two's complement.
- The outcome of the external download command is a free boolean, and so is whether preparing the
  configuration throws; closing the null handle after a failure (`include/rucio-download.h:126`) does nothing.
  The set of servers is fixed.
- `add_file` is a step of its own that may or may not happen: nothing in the pipeline calls it.
- Map and queue operations are atomic, and file system handlers run one at a time.
- The comment at `source/utils.cpp:34` promises depth -1 for a path without the token; the code returns 0
  (`Paths.DepthZero`), and the model follows the code. The comment at
  `include/download-pipeline.h:28` says that requests go back to the input queue when the trials are used up;
  the code does so as long as they are not.

## What turned out false, and exactly when it holds

- A listing is read the same however it is cut exactly when it is legal in the sense of `DidStream.Legal`;
  for one record per line, exactly when no record has a brace inside.
- A list of DiDs survives printing and parsing exactly when their strings avoid blank, braces, quote, colon,
  comma and newline and their numbers fit 32 bits.
- A file size survives cutting of the answer exactly when it fits 32 bits and no cut goes through its key or
  its digits; of size 0 the digit may be lost (`FileSize.SizeSurvivesCutting`).
- A scope list without empty names is read back from its chunks exactly when the names have no quote, blank,
  closing bracket, comma or NUL, no chunk is shorter than two characters, and both neighbours of each cut are
  characters the tokenizer drops anyway (`ScopeCutting.ScopeListSurvivesCutting`).
- Only the first chunk of an answer decides whether a DiD is a container. It says the same as the whole answer
  exactly when the whole names neither type or a type name and its comma end within it. The whole answer
  for a DiD with clean strings is right exactly when the DiD is no file, or neither its scope nor its name nor its
  parent is the word `CONTAINER` or `DATASET` (`ContainerAnswer.TakenForContainer`).
- The wrapper's retries are bounded exactly when every server is known: with an unknown one no attempt is
  counted. The file system never appends such a job, because a read authenticates first and that fails for an
  unknown server (`source/REST-API.cpp:612-615`): its pipeline does at most 17 steps per path ever read
  (`FileRead.ReadsBoundThePipeline`). Only reads of the root path, `/` or `//`, are not authenticated; they are
  excluded there.
- The reader and the downloader agree on the file exactly when the scope has no colon.
- Cache keys are plain concatenations. Keys of two parts (server, scope) tell all requests apart exactly when no
  first part is a prefix of another. Keys of three parts (server, scope, container or name) do so exactly when no
  server + scope is a prefix of another; prefix-free servers are not enough, and a single server with scopes
  `user` and `userx` already fails (`ListCache.CollidingScopes`).
- The container answer for a single DiD is stored under the full path and never found again: a path is asked
  about again exactly as long as no listing has told its type.
- A download is enqueued at most once per path. It is enqueued at most once per file exactly when no two of the
  paths read agree in server, scope and last component; one file in two containers is downloaded twice.
- A finished download does not end the waiting of its reader: a read gets the file exactly when `add_file` has
  been called for it.

## Model

| member | source | states |
|---|---|---|
| DidStream.Reassembler.CoherentizeDids | source/utils.cpp:192-204 | one piece against the remainder: held back, emitted glued to the remainder, or emitted alone |
| DidStream.Reassembler.Split | source/utils.cpp:179-190 | the loop over the lines of a chunk appends exactly the emitted strings and leaves the specified remainder |
| DidStream.ChunkInvariance | source/utils.cpp:179-204 | for every text and remainder: all cuttings give the result of the uncut text if and only if the text is legal |
| DidStream.LegalCut | source/utils.cpp:179-204 | a legal text may be cut in two anywhere: same result, and both parts are legal again |
| DidStream.IllegalCut | source/utils.cpp:192-204 | every illegal text has a cut into two chunks that changes the result |
| DidStream.RemainderIsUnfinishedRecord | source/utils.cpp:179-204 | after any prefix of a listing of flat records, cut anyhow, the remainder is the unfinished part of the current record and the finished records are out |
| DidStream.WholeListing | source/utils.cpp:179-204 | a complete listing, last newline or not, yields its records and leaves no remainder |
| DidStream.BackToBack | source/utils.cpp:179-204 | two complete responses one after the other are read independently |
| DidStream.ListingCutIndependent | source/utils.cpp:192-204 | for one record per line, independence of cutting holds if and only if no record has a brace inside |
| DidStream.Conservation | source/utils.cpp:179-204 | for every input whatever and every byte value: newlines apart, it comes out or stays pending exactly as often as it came in |
| DidStream.EmittedClosed | source/utils.cpp:192-204 | for every input whatever, each emitted string ends in a closing brace |
| DidRecord.ComputeMapDid | source/utils.cpp:206-223 | the erase passes, replacements, split and pairing compute the specified map, or run past an odd number of tokens |
| DidRecord.MapDidOfPrint | source/utils.cpp:206-223 | for clean keys and values the last-wins field map is recovered, unless the last value is empty: then the parser reads past the end |
| DidRecord.LastWinsIsLast | source/utils.cpp:218-220 | of several fields with one key the last one counts |
| Number.AtoiOfPrint | source/utils.cpp:241-251 | a printed number survives `atoi` if and only if it fits 32 bits |
| Number.LeadingOf | source/utils.cpp:241-251 | blanks, an optional sign and digits make the number, whatever follows; without digits there is none, `atoi` gives 0 and `std::stoll` throws |
| DidRecord.ParsedIsPlain | source/utils.cpp:206-223 | whatever line is parsed: scope, name and parent have no structural characters and the numbers fit 32 bits |
| DidRecord.DidRoundTrip | source/utils.cpp:225-288 | in both variants, printing then parsing shows the DiD if and only if what is shown has clean strings and numbers that fit; the container variant resets parent and level |
| DidRecord.NullSize | source/utils.cpp:234-239 | a file of unknown size is listed with size 0 |
| DidRecord.AbsentFields | source/utils.cpp:225-288 | what a record lacks: empty strings, level 0, no type, and a size for files only |
| DidRecord.StructurizeChunk | source/utils.cpp:225-255 | one chunk appends the DiDs of the records it completes and leaves the specified remainder |
| DidRecord.StructurizePayload | source/REST-API.cpp:398-404 | the loop over the payload computes the DiD list of the whole response |
| DidRecord.DidChunkInvariance | source/utils.cpp:225-255 | the DiD list of a legal response does not depend on where it was cut |
| DidRecord.ListingRoundTrip | source/REST-API.cpp:398-404 | every printed listing, cut anywhere, ends as exactly the listed DiDs with nothing pending, in both variants |
| DidRecord.DidListRoundTrip | source/REST-API.cpp:398-404 | in both variants, a list of DiDs printed one per line and cut anywhere is read back if and only if each of them is representable; then nothing stays pending |
| Base64Url.Base64UrlDecode | include/globals.h:149-173 | the padded, table-driven 32-bit loop computes the group-wise decoding of the longest alphabet prefix |
| Base64Url.WrappedRefinesUnbounded | include/globals.h:161-170 | for every input the wrapping accumulator emits the bytes of an unbounded one, `valb` staying in {-8, -2, -4, -6} between characters |
| Base64Url.UnboundedDecodes | include/globals.h:161-170 | the unbounded accumulator decodes group by group |
| Base64Url.DecodeOfEncode | include/globals.h:149-173 | decoding undoes unpadded base64url encoding for byte sequences of every length |
| Base64Url.EncodeOfDecode | include/globals.h:149-173 | re-encoding gives the text back if and only if it is a canonical base64url text |
| Base64Url.DecodedLength | include/globals.h:162-170 | every input yields floor(6n/8) bytes, n the length of its longest alphabet prefix |
| Base64Url.PaddingInvariance | include/globals.h:154-155 | added padding changes nothing, whatever the input |
| Base64Url.AlphabetInvariance | include/globals.h:150-152 | either alphabet may be used, character by character |
| Base64Url.PayloadBetweenDots | include/globals.h:175-184 | the payload is the text between the first two dots |
| Base64Url.RejectedTokens | include/globals.h:176-181 | a token is rejected if and only if it has fewer than two dots |
| Base64Url.TokenPayload | include/globals.h:175-184 | the code hands the decoded payload on, or throws when there is none |
| Base64Url.TokenRoundTrip | include/globals.h:175-184 | for every header, payload and signature the decoded payload is what was encoded |
| Download.DownloadInfo.RucioDownloadWrapper | include/rucio-download.h:95-143 | attempts, return codes and the downloaded flag of one pass; a failed configuration copy leaves no trace in them |
| Download.AttemptCounted | include/rucio-download.h:95-143 | an attempt is counted exactly for a known server, below four attempts and without the settings error; untried jobs get code 8, or 2 for an unknown server |
| Pipeline.RucioPipeline.DownloaderHandleOutput | include/download-pipeline.h:44-59 | a processed job goes to the notifiers when downloaded or given up, else back to the input queue |
| Pipeline.RucioPipeline.DownloaderProcessInput | include/download-pipeline.h:39-42 | a held job passes the wrapper once and stays held |
| Pipeline.RucioPipeline.AppendNewDownload | include/download-pipeline.h:119-124 | whatever info it is given becomes a new job at the end of the input queue, and nothing else changes |
| Pipeline.StepKeepsInv | include/download-pipeline.h:35-78 | every step keeps each job in exactly one place and its attempts, code and flag consistent with its outcomes |
| Pipeline.ReachableStates | include/download-pipeline.h:35-78 | in every reachable state: one place per job; past the downloader either code 0 after one to four attempts or TOO_MANY_ATTEMPTS after exactly four; at most five passes |
| Pipeline.FirstComeFirstServed | include/download-pipeline.h:35-59 | along every run the jobs taken and those still waiting are those that waited and those queued since, in that order: retries go behind the waiting ones; the same for the notifiers |
| Pipeline.StepDecreases | include/download-pipeline.h:44-59 | with known servers every step but an append decreases a measure, an append adds 17 |
| Pipeline.PipelineTerminates | include/download-pipeline.h:35-78 | any run with known servers, any interleaving and any failures, has at most 17 steps per appended job |
| Pipeline.FinishedMeansNotified | include/download-pipeline.h:66-78 | the pipeline stops only when every appended job has been notified exactly once |
| Pipeline.TerminationNeedsKnownServers | include/rucio-download.h:96-99 | whatever is appended to the pipeline alone, its runs are bounded if and only if every server is known |
| ListCache.ServedFromRecentFetch | source/REST-API.cpp:367-417 | a call is answered from the cache if and only if a successful fetch under its key was at most 120 seconds ago, and with what the latest one returned |
| ListCache.RecentFetchIsServed | source/REST-API.cpp:367-417 | a call is answered from the cache if and only if there was any fetch under its key in the last 120 seconds, and with what each such fetch returned |
| ListCache.FetchesAreApart | source/REST-API.cpp:381-412 | two successful fetches under one key are more than 120 seconds apart |
| ListCache.DistinctKeysIffPrefixFree | source/REST-API.cpp:369 | keys of two parts are distinct for all requests if and only if no first part is a prefix of another |
| ListCache.DistinctPlacesIffApart | source/REST-API.cpp:421 | keys of three parts are distinct for all requests from a set of servers and scopes if and only if no server + scope is a prefix of another |
| ListCache.ScopeListingIsItsOwn | source/REST-API.cpp:367-417 | with prefix-free server names a cached scope listing belongs to that very server and scope |
| ListCache.ContainerListingIsItsOwn | source/REST-API.cpp:419-474 | where no server + scope is a prefix of another, a cached container listing belongs to that very server, scope and container |
| ListCache.CollidingServers | source/REST-API.cpp:369 | two servers, one a prefix of the other: the second is served the scope listing of the first |
| ListCache.CollidingScopes | source/REST-API.cpp:421 | on any single server, container `xy` of scope `s` and container `y` of scope `sx` are served one list |
| Catalogue.Store.RucioListScopes | source/REST-API.cpp:292-345 | serves, refreshes or fails as the cache discipline says |
| Catalogue.Store.RucioListDids | source/REST-API.cpp:367-417 | serves, refreshes or fails as the cache discipline says; on a refresh leaves the new remainder and records type and size of each DiD; the container lists stay as they were |
| Catalogue.Store.RucioListContainerDids | source/REST-API.cpp:419-474 | the same for containers, under the key of server, scope and container; the scope lists stay as they were |
| Catalogue.Store.RucioIsContainer | source/REST-API.cpp:480-514 | answers from the cache under server, scope and name; on a miss asks, decides by the first chunk, and stores under the full path |
| ContainerAnswer.FirstChunkDecides | source/REST-API.cpp:506 | however an answer is cut, it says container exactly when a quoted type name and its comma end within the first chunk |
| ContainerAnswer.ContainerSurvivesCutting | source/REST-API.cpp:506 | the first chunk decides like the whole if and only if the whole names neither type or a type name with its comma ends within that chunk |
| ContainerAnswer.MarkInRecord | source/REST-API.cpp:506 | in every printed record with clean fields, a type name is found if and only if it is the quoted value of a field other than the last |
| ContainerAnswer.TakenForContainer | source/REST-API.cpp:506 | a DiD is taken for a container if and only if it is no file or has one of the two words as scope, name or parent |
| FileSize.FindSize | source/REST-API.cpp:582-599 | the loop over the chunks finds the specified size: the first chunk with the key decides, an unreadable number counts as 0 |
| FileSize.SizeSurvivesCutting | source/REST-API.cpp:582-599 | for an answer that says the size once, cut anyhow: the size is read correctly if and only if it fits an `int` and key and digits are in one chunk |
| FileSize.PrintedSaysSize | source/REST-API.cpp:582-599 | the printed record of every file says its size exactly once |
| FileSize.UncutSize | source/REST-API.cpp:590-596 | a size in an uncut answer is stored modulo 2 to the 32, or as 0 beyond 64 bits |
| Catalogue.FirstSizeAnswer | source/REST-API.cpp:552-600 | on a miss: the size the answer says if and only if it fits and key and digits are in one chunk, and then it is stored; -1 without the key and 0 without an answer, and neither is stored |
| Catalogue.FileSizeAnswer | source/REST-API.cpp:552-600 | on a miss, from the uncut answer for a file: its size if and only if it fits 32 bits |
| Catalogue.Store.RucioGetSize | source/REST-API.cpp:552-600 | answers from the cache; on a miss stores and returns a size found in the answer; returns 0 on failure and -1 without a size, and stores neither |
| Catalogue.AnsweredFromListing | source/REST-API.cpp:406-409 | after a listing, every path to a listed name is answered with the listed size, and as container exactly when the listed type is set and no file, the last entry winning, until a listing rewrites that key |
| Catalogue.ListedIsAnswered | source/REST-API.cpp:398-412 | from the server to the answer: once a payload that lists the server's DiDs was fetched, every path to a listed name is answered as container exactly when the server has a container or dataset there, with the server's size |
| Catalogue.KeyKept | source/REST-API.cpp:506 | entries stored under a full path never reach a lookup, and no question disturbs a listed key |
| Catalogue.KnownFromListingsOnly | source/REST-API.cpp:480-514 | whatever is asked and listed, a key has a type if and only if it had one or a listing wrote it |
| Catalogue.UnlistedIsAskedAgain | source/REST-API.cpp:480-514 | a path is asked about at the server every time, exactly as long as no listing has its key; without an answer it is no container, with one the first chunk decides |
| Catalogue.UnlistedAnswer | source/REST-API.cpp:480-514 | on a miss, from the printed answer for a DiD, cut anyhow: container exactly when a type name and its comma end in the first chunk, uncut exactly when the DiD is no file or has one of the two words; stored under the full path; without an answer false, and nothing stored |
| Catalogue.PathKeysIffApart | source/REST-API.cpp:485 | the keys the type and size caches rebuild from paths into a set of servers and scopes, trailing slash or not, are distinct if and only if no server + scope is a prefix of another |
| Catalogue.SizeIsLearned | source/REST-API.cpp:552-597 | a size once asked for is answered from the cache from then on |
| Catalogue.OutcomeIsTrue | include/utils.h:126 | scope and container listings in any order, sharing the static remainder: each call answers like a cache that is given the true lists, nothing is ever pending, and no parse runs past its end |
| Catalogue.RemainderCarriesOver | include/utils.h:126 | what one fetch leaves pending reaches the next of the same kind under whatever key: two fetches list together what one fetch of both payloads lists |
| Catalogue.NothingFetched | source/REST-API.cpp:385-393 | a call answered from the cache, or one that cannot ask, leaves both caches and the remainder as they are |
| Catalogue.ServedListIsTheServers | source/REST-API.cpp:367-474 | for a server that changes between calls: a list comes from the cache if and only if it was fetched at most 120 seconds ago, with what the server had then; a fetched list is what it has now |
| FileRead.FileSystem.RucioRead | include/fuse-op.h:192-263 | return code, state change and buffer content of every branch |
| FileRead.StepKeepsSystemInv | include/fuse-op.h:221-242 | every step keeps: an enqueued path is marked downloading or its cache path is cached, no path is enqueued twice, every pipeline job is that of an enqueued path |
| FileRead.EnqueuedAtMostOnce | include/fuse-op.h:221-242 | in every history of reads, cache additions and pipeline steps no path is enqueued twice, and the jobs in the pipeline are those of the enqueued paths |
| FileRead.ReadOutcome | include/fuse-op.h:200-242 | after any history, for every path but the root, user and server: denied exactly without token or known server, else no file exactly for depth one or two or a container, else the file exactly when its cache path was added, in progress exactly when a successful read came before, else a download is started |
| FileRead.ReadReturns | include/fuse-op.h:192-263 | on the components of the path: -13, -1, the byte count, -115 or -11, each exactly when; a read denied or meeting a directory changes nothing |
| FileRead.RootRead | include/fuse-op.h:200-212 | a read of the root path `//` is not authenticated, and goes on like that of a file |
| FileRead.MarkedByLastRead | include/fuse-op.h:226-242 | a file is marked as downloading exactly when the last read let through came before the file was added, so the first read that gets it takes the mark away |
| FileRead.EnqueuedOncePerFile | include/fuse-op.h:213-235 | for any set of file paths: every history reading them enqueues each file at most once if and only if no two of them have the same cache path |
| FileRead.SameCacheKey | include/fuse-op.h:213-216 | two paths have the same cache path if and only if they agree in server, scope and last component |
| FileRead.TwoContainersEnqueueTwice | include/fuse-op.h:213-235 | a file reached through two containers is enqueued twice, with one DiD and one cache path |
| FileRead.ReadsBoundThePipeline | source/REST-API.cpp:603-625 | reads authenticate for known servers only, so in every history the pipeline holds no other jobs and does at most 17 steps per path read |
| FileRead.DownloadedWhereRead | include/fuse-op.h:213-216 | in every history the file of a notified download is the one its read looks for, if and only if the scope has no colon |
| FileRead.ReadAnywhere | include/fuse-op.h:248-260 | a read at any offset, whatever the recorded size: past it nothing; up to it every byte of the buffer becomes the byte of the file at its place, if there is one, and the result is what the recorded size still allows |
| FileRead.ReaderPosition | include/fuse-op.h:251-260 | a reader advancing by each result is at the smaller of bytes asked and recorded size, never beyond |
| FileRead.ReaderGetsTheFile | include/fuse-op.h:245-260 | with enough buffers it collects exactly the file if and only if the recorded size is the file's length, then gets 0 |
| Paths.PathDepth | source/utils.cpp:37-60 | the two moving indices scan each byte once and count the tokens, a last one excepted |
| Paths.DepthCountsComponents | source/utils.cpp:37-60 | the depth of a path is its number of components, trailing slash or not |
| Paths.DepthZero | source/utils.cpp:34-60 | when a path other than the root has depth 0 |
| Paths.ExtractorsOnPath | source/utils.cpp:117-160 | server, scope and name are the first, second and last component |
| Paths.ScopeOfMountpoint | source/utils.cpp:131-145 | on a server mount point the scope extractor returns the server |
| Paths.ExtractedSlashFree | source/utils.cpp:117-160 | for every path no extractor returns a slash |
| Paths.CachePathsAgree | include/rucio-download.h:79-89 | composing and splitting `scope:name` gives the same cache path if and only if the scope has no colon |
| Paths.ReadPathIsDownloadPath | include/fuse-op.h:213-216 | for every path of depth three or more the path read is the path downloaded to, if and only if the scope has no colon |
| Metalinks.GetReplicasMetalinks | source/REST-API.cpp:648-681 | merging and scanning computes the specified PFNs of the whole response |
| Metalinks.ScanSegments | source/REST-API.cpp:664-679 | for every bracketed text all contents come out in order without their quotes, if and only if none is shorter than two characters |
| Metalinks.RsesExactly | source/REST-API.cpp:656-663 | the `"rses"` object is found exactly when the first `"rses": {` is followed by a closing brace |
| Metalinks.AllPfnsInOrder | source/REST-API.cpp:648-681 | for every response mapping each RSE to one quoted PFN, cut anyhow, all PFNs come out in order |
| ScopeList.TokenizePythonList | include/utils.h:62-76 | the loop appends the specified tokens, or throws below two characters |
| ScopeList.ScopeListRoundTrip | include/utils.h:62-76 | tokenizing undoes printing if and only if no name has a quote, blank, bracket, comma or NUL; the empty list and empty names included |
| ScopeCutting.ScopeListSurvivesCutting | source/REST-API.cpp:334-337 | for every printed list, cut into chunks anyhow: it is read back only if the names are clean, no chunk is shorter than two characters and the tokenizer drops both neighbours of each cut anyway; without empty names, if and only if |
| Catalogue.ServedScopesAreTheServers | source/REST-API.cpp:292-345 | for servers whose scopes change between calls: a list comes from the cache if and only if the scopes of that very server were fetched at most 120 seconds ago; it is what the server had at the fetch if and only if that answer was readable; a throw exactly on a fetched chunk shorter than two characters |

## Left out

- Transfers, TLS, headers and authentication: an operation is given what the server answers, or that it cannot be asked.
- JSON parsing of the token payload and date conversion: library code.
- Queue and thread-pool internals: the Warpdrive submodule is not part of this model; its queues are atomic and its pools may have any number of workers.
- `rucio_is_file`: it compares iterators of two containers, and no file system operation calls it.
- ScopeCutting.ScopeListSurvivesCutting: for a cut list with empty names it proves the condition necessary, not sufficient; whether a cut between the two quotes of an empty name comes out right depends on its place in the list.
- Concurrent handlers: the check and the mark of a read are two steps, and nothing is proved about two handlers between them.
- Sizes of containers and datasets: the parser never sets them, and the model calls them indeterminate.
- Directory listing, attributes, configuration, permissions and logging: no state of their own.
- The extractors work on copies of their argument, so they are functions on strings next to methods that erase step by step.
