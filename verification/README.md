# The scanner backends' protocol machinery, proved

A model of the state machines and incremental parsers inside the four scanner backends, and proofs of what
they promise over whole runs rather than in one call.

| file | what it models |
|---|---|
| `Bytes`, `Text`, `Sets`, `Weaving`, `Wrappers` | byte search, UTF-8, trimming, splitting and number parsing, set facts, the events of one task among the others', result types |
| `TextLaws` | what the text functions mean, apart from how they are computed |
| `ChunkedCoding`, `HttpReader`, `HttpFraming`, `HttpRendering` | the hand-written HTTP/1.1 response reader of the HP walk-up client, what its header fields state, and what a server sends it |
| `XmlPairing` | the event loop that pairs URIs with host names, and the escaping of what this host posts |
| `Walkup` | registration on the printer's shared, lease-less collection |
| `Listener`, `ListenerWindow` | the one UDP socket of all Brother scanners, its subscribers, and the press log |
| `Lease` | the refresh schedule of a Brother panel registration |
| `Panel`, `PanelFunction` | the Brother backend's button map and what it keeps on each panel, and the four panel entries |
| `Pnm`, `Spool` | when a page file is whole, and the reader that follows `scanimage` |
| `Frames`, `PageLoop` | the phone upload's framing, and the exchange of pages and acknowledgements |
| `DeviceTable`, `Authorization` | the paired phones in memory and on disk, and who may upload |
| `Handoff` | how an upload reaches whoever fetches it |
| `Fetch` | one fetch at a time for each HP scanner |

## How to read it

Code that changes things step by step is a method, proved equal to a function of its inputs or of the old state;
what the code promises is then proved about that function. Steps that interleave (tasks, callbacks, other hosts)
are events of a state machine, and the run theorems quantify over every sequence of them. Where the code between
two waits belongs to one task, a method runs that code and lets any other events happen at each wait
(`OthersAct`, `Wait`, `Elapse`).

Answers of a device, fates of a request, faults of a file system and the pace of another process are chosen
arbitrarily. Numbers are unbounded unless a limit is written out.

Some promises turn out not to hold as they are worded; each has its exact condition, and an input:

- A response's outcome does not depend on how the stream is cut into reads, except for a stream past 256 KiB whose
  answer is first decided within one read of that limit (`HttpReader.SegmentationIndependence`): such as a response
  of 260000 bytes with 10000 more behind it (`HttpRendering.ALongResponseWithMoreBehindIt`).
- The listener's invariant needs `subscribe`, and a failing receive task, to run whole. At the grain of the state
  lock it holds in exactly the runs where no piece of a `subscribe` goes on after the only subscriber was dropped,
  or the task it relies on failed, inside that piece, and none binds before a failed task has closed its socket
  (`ListenerWindow.ExactlyWhenNoWindowIsHit`). Each of the four gaps can be hit (`ListenerWindow.ADropBeforeTheCheck`,
  `ListenerWindow.ADropAfterTheCheck`, `ListenerWindow.AFailureBeforeTheRecord`,
  `ListenerWindow.ABindBeforeTheClose`).
- A whole page is taken for incomplete while it is being written, except that a number with a plus sign is refused
  when the reader looks just after the sign (`Pnm.ExactlyASignIsReadTooSoon`, `Pnm.ASignedPageIsRefused`).
- File and process do not always agree on the paired devices when file accesses fail
  (`DeviceTable.ExactlyTheseFaultsPartThem`); a failed pairing leaves the table as it was only if the scanner was
  not paired before (`DeviceTable.AFailedPairingForgetsTheOldOne`); the host's name survives everything but a store
  that is there and cannot be read (`DeviceTable.ExactlyAnUnreadableFileCostsTheName`,
  `DeviceTable.ANameCanBeLost`).
- A fetch of a pending upload is answered with a stream, but one that can never bring a page if the upload's task
  has already given up waiting, or could not announce it (`Handoff.ExactlyAFetchInTimeIsServed`,
  `Handoff.AFetchCanSucceedInVain`).

## Model

| member | source | states |
|---|---|---|
| HttpReader.RoundTrip | scanbus-backend-hplip/src/walkup.rs:1264-1283 | The read loop, over any cutting of a stream into reads of at most the buffer's size, returns what one-shot parsing of the bytes kept so far decides, up to the first decision, the size limit or the close |
| HttpReader.DecisionIsStable | scanbus-backend-hplip/src/walkup.rs:1417-1434 | Once the incremental parse gives a response or an error on a prefix, it gives the same on every extension |
| HttpReader.DecisionIsTheAnswerAtEof | scanbus-backend-hplip/src/walkup.rs:1440-1461 | Where the incremental parse has decided, parsing at end of file gives the same answer |
| HttpReader.OnlyTheLoopReportsMoreThanMax | scanbus-backend-hplip/src/walkup.rs:1273-1276 | Neither parse ever blames the size limit, so that error tells a stream past the limit |
| HttpReader.WithinTheLimitSplitsDoNotMatter | scanbus-backend-hplip/src/walkup.rs:1264-1283 | For a stream of at most 256 KiB the answer is that of the whole stream, however it is cut |
| HttpReader.SegmentationIndependence | scanbus-backend-hplip/src/walkup.rs:1264-1283 | All ways of cutting a stream agree if and only if it is within the limit, or undecided at the limit, or decided more than one read before it |
| HttpReader.DisagreeingCuts | scanbus-backend-hplip/src/walkup.rs:1264-1283 | For every stream of that family, two cuttings that are answered differently |
| HttpFraming.FramingIs | scanbus-backend-hplip/src/walkup.rs:1353-1384 | 204, 304 and 1xx have no entity; else the first Transfer-Encoding decides alone, chunked if one trimmed comma-separated coding is that in any case; else the first Content-Length, in decimal and below 2^64; else the close: the reader takes that framing, or that error, and no other |
| ChunkedCoding.DechunkLoop | scanbus-backend-hplip/src/walkup.rs:1468-1497 | The loop that advances over chunks and gathers their data equals the recursive reading of one chunk after another |
| ChunkedCoding.ChunkedRoundTrip | scanbus-backend-hplip/src/walkup.rs:1468-1497 | Decoding any list of non-empty chunks, encoded with any extensions and followed by any trailer, returns their concatenation |
| ChunkedCoding.ChunkedPrefixIsUndecided | scanbus-backend-hplip/src/walkup.rs:1468-1497 | Every prefix that ends before the zero chunk's CRLF is complete is "not yet", never an error or a short entity |
| ChunkedCoding.DechunkExtends | scanbus-backend-hplip/src/walkup.rs:1468-1497 | Bytes that arrive later never change an entity or an error already found |
| ChunkedCoding.SizeLineStatesItsSize | scanbus-backend-hplip/src/walkup.rs:1476-1484 | Every size in hexadecimal, with or without `;` and CRLF-free UTF-8 extensions, is read as that size |
| ChunkedCoding.ABadSizeIsRefused | scanbus-backend-hplip/src/walkup.rs:1476-1484 | A chunk line that states no size is an error as soon as its CRLF is there |
| ChunkedCoding.NoSizeStated | scanbus-backend-hplip/src/walkup.rs:1476-1484 | Nothing, or anything but hexadecimal digits, before a semicolon states no size |
| HttpRendering.HeadReadsBack | scanbus-backend-hplip/src/walkup.rs:1390-1411 | A status line and any header fields, in UTF-8 and with any white space around a value, are read back as they were, whatever follows the head |
| HttpRendering.CutHeadIsNoHead | scanbus-backend-hplip/src/walkup.rs:1390-1411 | No strict prefix of a head is taken for a head |
| HttpRendering.StatusLineStatesItsCode | scanbus-backend-hplip/src/walkup.rs:1390-1411 | A status line's second word is the status, whatever version and reason surround it |
| HttpRendering.EveryResponseIsReadBack | scanbus-backend-hplip/src/walkup.rs:1353-1461 | What a server sends, under each of the framings, is what the caller gets, for every way of cutting it, and whatever trailer or other bytes follow an entity that declares its own end |
| HttpRendering.TruncationIsNoticed | scanbus-backend-hplip/src/walkup.rs:1440-1461 | A response cut anywhere in its head, or before the end it declares, is an error, never a shorter response |
| HttpRendering.AnUnreadableHeadIsRefused | scanbus-backend-hplip/src/walkup.rs:1394-1403 | A head that is no UTF-8, or states no status, is an error for both parses, whatever follows |
| HttpRendering.BadFramingIsRefused | scanbus-backend-hplip/src/walkup.rs:1353-1384 | Fields that state no framing are that error for both parses |
| HttpRendering.LinesWithoutColonAreSkipped | scanbus-backend-hplip/src/walkup.rs:1405-1412 | A line without a colon is no field and hides none |
| HttpRendering.BytesAfterALongResponseMatter | scanbus-backend-hplip/src/walkup.rs:1264-1283 | Every response that declares its own end, reaches it within one read of the limit and is followed by bytes that cross the limit, is a stream whose answer depends on the cutting |
| HttpRendering.ALongResponseWithMoreBehindIt | scanbus-backend-hplip/src/walkup.rs:1264-1283 | One such stream: `Content-Length: 260000`, that many bytes, and 10000 more |
| TextLaws.DecodeIs | scanbus-backend-hplip/src/walkup.rs:1394-1395 | Bytes decode to a text if and only if they are its UTF-8, character by character |
| TextLaws.IgnoringCaseIs | scanbus-backend-hplip/src/walkup.rs:1000-1002 | Two texts match if and only if they are as long and differ at most in the case of ASCII letters |
| TextLaws.TrimIs | scanbus-backend-hplip/src/walkup.rs:1363-1384 | Trimming gives the one core between white space that has none at its own ends |
| TextLaws.SplitIs | scanbus-backend-hplip/src/walkup.rs:1363-1371 | The pieces of a list are exactly what stands between commas, or its ends |
| TextLaws.ParseUnsignedIs | scanbus-backend-hplip/src/walkup.rs:1373-1384 | A text parses if and only if it is decimal digits, a plus sign before them or not, of a value below the limit |
| XmlPairing.ParseDestinations | scanbus-backend-hplip/src/walkup.rs:1101-1204 | The event loop with its three variables equals folding one step over the events |
| XmlPairing.ParseEvent | scanbus-backend-hplip/src/walkup.rs:1140-1200 | One turn of the loop changes entry, field and destinations as that step says |
| XmlPairing.DocumentReadsBack | scanbus-backend-hplip/src/walkup.rs:1101-1204 | A document of any entries, fields in any order and cut into any runs, siblings between, gives exactly the trimmed pairs in order without blank URIs |
| XmlPairing.EveryEntryIsPaired | scanbus-backend-hplip/src/walkup.rs:1140-1200 | The same from any state between entries: every URI comes with the host name of its own entry |
| XmlPairing.ResolveIs | scanbus-backend-hplip/src/walkup.rs:1126-1138 | The five predefined names stand for their characters, every code for its character, and nothing else for anything |
| XmlPairing.BadContentIsRefused | scanbus-backend-hplip/src/walkup.rs:1140-1200 | Content that does not decode or resolve is an error inside the two fields and ignored elsewhere; what is no XML is an error anywhere |
| XmlPairing.ThreePassesAreOne | scanbus-backend-hplip/src/walkup.rs:964-968 | The three replacement passes equal escaping each character once |
| XmlPairing.EscapedTextReadsBack | scanbus-backend-hplip/src/walkup.rs:964-968 | The events of escaped text carry the text that was escaped |
| XmlPairing.PanelNameIs | scanbus-backend-hplip/src/walkup.rs:905-912 | The name is the trimmed text before the first dot, or `scanbus` when that is blank |
| XmlPairing.WhatThisHostPostsItRecognises | scanbus-backend-hplip/src/walkup.rs:943-1002 | A device listing the document this host posted lists an entry this host's sweep recognises, whatever the machine is called |
| Walkup.Walkup.Remove | scanbus-backend-hplip/src/walkup.rs:792-800 | Success means the entry is not there, 404 included; no entry appears and no other host's entry is touched |
| Walkup.Walkup.RemoveAll | scanbus-backend-hplip/src/walkup.rs:767-785 | Success lists exactly the entries of the listing that bear this name but for case, and leaves none; the first failure ends it; a listing without any keeps every entry |
| Walkup.Walkup.Register | scanbus-backend-hplip/src/walkup.rs:716-757 | Ok exactly if no request failed and the foreign entries do not fill a published limit, `Full` exactly if they do and then nothing was posted; after Ok this host has one entry, under the URI returned; never more than it had, or one |
| Walkup.UrisCountEntries | scanbus-backend-hplip/src/walkup.rs:716-757 | Counting this host's URIs is counting its entries |
| Walkup.OwnIs | scanbus-backend-hplip/src/walkup.rs:1000-1002 | This host's entries are exactly those with a host name that differs from its own in case at most, and all others are foreign |
| Walkup.AnswersAre | scanbus-backend-hplip/src/walkup.rs:610-632 | 200, 204 and 404 let a DELETE succeed, 200 a GET and 201 a POST; any other answer is refused with its status |
| Walkup.HpBackend.Install | scanbus-backend-hplip/src/walkup.rs:640-676 | For every answer to the capabilities request: unreadable, nothing is posted, deleted or changed and the error is that answer's; 404, there is no panel; readable, Ok and `Full` exactly as for a registration, and Ok leaves one entry of this host, under the URI returned |
| Walkup.HpBackend.RegisterOnPanel | scanbus-backend-hplip/src/lib.rs:420-461 | For every answer to the capabilities request: Ok exactly on a 404 or when the registration succeeds, and then the URI kept is that of this host's one entry; an error, or no panel, leaves what was kept |
| Walkup.HpBackend.WithdrawFromPanel | scanbus-backend-hplip/src/lib.rs:472-496 | The URI is forgotten either way; Ok exactly if no request failed, and then the entry is gone; without a URI nothing is sent; no entry of another name is deleted |
| Walkup.HpBackend.Run | scanbus-backend-hplip/src/walkup.rs:716-800 | Over every run of connects, disconnects, restarts, deaths at any request, lost answers and other hosts, this host never owns more than max(what it started with, 1), and deletes no entry of another name |
| Walkup.NamesakesSweepEachOther | scanbus-backend-hplip/src/walkup.rs:1000-1002 | A machine's entry is swept by another if and only if their names, without domains, differ in case at most |
| Listener.Listener.Subscribe | scanbus-backend-brother/src/listener.rs:284-348 | The new state whole: the parked task awaited, a bind only if unbound, the next epoch, the predecessor superseded |
| Listener.Listener.Unsubscribe | scanbus-backend-brother/src/listener.rs:356-375 | The new state whole: the last one closes the socket and both tasks are awaited |
| Listener.Listener.DropSubscription | scanbus-backend-brother/src/listener.rs:419-438 | The new state whole: only its own epoch's entry goes, and the last one parks the task |
| Listener.Listener.ReceiveFailed | scanbus-backend-brother/src/listener.rs:501-506 | A socket that cannot be read ends every subscription and unbinds |
| Listener.Listener.Record | scanbus-backend-brother/src/listener.rs:240-254 | The next id, and the last sixteen presses |
| Listener.Listener.Evict | scanbus-backend-brother/src/listener.rs:240-254 | The loop that drops the oldest one at a time keeps the last sixteen |
| Listener.Listener.Dispatch | scanbus-backend-brother/src/listener.rs:510-580 | For the first subscriber with that address the press is recorded as it came, and its trigger, with the key's own index, is the last in that stream if it lives and fewer than eight wait; without such a subscriber nothing changes |
| Listener.Listener.TakePress | scanbus-backend-brother/src/listener.rs:383-390 | The press under that id and scanner, removed; nothing otherwise |
| Listener.EveryRunKeepsTheInvariant | scanbus-backend-brother/src/listener.rs:284-561 | In every reachable state: bound iff subscribed, a parked task implies unbound, no two sockets at once, at most 16 presses with increasing ids, an untaken press kept while fewer than 16 came after, every queued trigger that of its press |
| Listener.InitiallyConsistent | scanbus-backend-brother/src/listener.rs:257-266 | The invariant holds of a new listener |
| Listener.DropRemovesOnlyItsOwn | scanbus-backend-brother/src/listener.rs:419-438 | After any run, dropping a stream takes away its own entry if it still has one and never a successor's |
| Listener.YieldedTriggersAreFaithful | scanbus-backend-brother/src/listener.rs:530-561 | Every trigger a stream yields names the scanner and the key of the press recorded under its id |
| Listener.AtMostOnePressPerTrigger | scanbus-backend-brother/src/listener.rs:383-390 | A press taken once is given to nobody again, whatever happens afterwards |
| Listener.DispatchedIsTaken | scanbus-backend-brother/src/listener.rs:383-390 | In every later run, while fewer than sixteen presses came after it and nobody took it, the press sent is what its scanner takes under its id |
| Listener.EveryStreamYieldsInOrder | scanbus-backend-brother/src/listener.rs:510-580 | Over every run each stream yields its triggers in the order of their presses, and no trigger id is yielded twice, by one stream or by two |
| ListenerWindow.PiecesAreTheStep | scanbus-backend-brother/src/listener.rs:284-348 | The four pieces of `subscribe`, with nothing between, are the one step |
| ListenerWindow.FailureIsTheStep | scanbus-backend-brother/src/listener.rs:501-506 | Clearing the state and closing the socket, with nothing between, are the one step of a failing task |
| ListenerWindow.ExactlyWhenNoWindowIsHit | scanbus-backend-brother/src/listener.rs:284-348 | At every moment no bind beside an open socket and a bound task that receives, and bound iff subscribed whenever nobody is inside, in exactly the runs where no piece goes on disturbed: by a drop of the only subscriber, by the failure of its task, or by a failed task's socket still open at a bind |
| ListenerWindow.ADropBeforeTheCheck | scanbus-backend-brother/src/listener.rs:295-315 | A drop between the wait and the check ends in a bind beside the first socket |
| ListenerWindow.ADropAfterTheCheck | scanbus-backend-brother/src/listener.rs:300-330 | A drop between the check and the insert ends in a subscriber without a socket, then a bind beside the first socket |
| ListenerWindow.AFailureBeforeTheRecord | scanbus-backend-brother/src/listener.rs:312-315 | A failure between spawning and recording the task leaves a subscriber whose bound task is dead |
| ListenerWindow.ABindBeforeTheClose | scanbus-backend-brother/src/listener.rs:501-506 | A failed task clears the state before it closes its socket, and a bind falls between |
| Lease.RefreshRound | scanbus-backend-brother/src/registrar.rs:619-663 | A round tries every function in order and reports whether anything failed, and how long it took |
| Lease.Refresh | scanbus-backend-brother/src/registrar.rs:600-617 | Every round begins half a lease after the end of one that went well, and a twelfth, within 5 s and 60 s, after one that did not; the clock and the last renewal are those of the rounds so begun |
| Lease.LeaseHolds | scanbus-backend-brother/src/registrar.rs:94-117 | With at most k failed rounds in a row, a lease at least as long as the worst gap never lapses for any function |
| Lease.LeaseContinuity | scanbus-backend-brother/src/registrar.rs:94-117 | For every duration, number of functions and k: all allowed schedules keep the lease if and only if the worst gap fits the duration |
| Lease.WhatTheDefaultLeaseSurvives | scanbus-backend-brother/src/registrar.rs:94-117 | With 360 s, all schedules of up to k failed rounds in a row keep the lease if and only if k is at most 5 for one or two functions, at most 4 for three or four |
| Panel.Backend.RegisterFunctions | scanbus-backend-brother/src/lib.rs:576-611 | The new state and answer whole: an empty set drops the registrar, a changed address replaces it, and the round's answer is noted |
| Panel.ButtonsAre | scanbus-backend-brother/src/lib.rs:1171-1180 | Indices 0 to 3 are File, Image, Ocr and Email, and no other index is a key |
| Panel.Backend.SetButtonMapping | scanbus-backend-brother/src/lib.rs:1158-1223 | The device is asked before the map is changed, and the new state and answer are those of the step |
| Panel.Backend.Start | scanbus-backend-brother/src/registrar.rs:475-541 | Stop, register in order until the first failure, and run only if all was accepted |
| Panel.Backend.Forget | scanbus-backend-brother/src/lib.rs:1087-1107 | The registrar and every button of that scanner go, in one step |
| Panel.Backend.NoteDevice | scanbus-backend-brother/src/lib.rs:532-548 | The address on record follows discovery and nothing else changes |
| Panel.Registering | scanbus-backend-brother/src/lib.rs:576-611 | A set asked for is on the panel if all of it was accepted, and otherwise nothing is, unless nobody could be asked |
| Panel.RegisteringFails | scanbus-backend-brother/src/lib.rs:576-660 | The error is that of the first function, in button order, that was refused, unanswered or answered with nonsense, or of a scanner without address or route; a refusal and a success are noted as what the panel can do |
| Panel.SettingAButton | scanbus-backend-brother/src/lib.rs:1158-1223 | After Ok the panel is exactly what is assigned, at the address on record; after an error the map is unchanged; other scanners are untouched either way |
| Panel.SettingAButtonSucceeds | scanbus-backend-brother/src/lib.rs:1158-1223 | The call succeeds if and only if the key exists and the new set is empty or the printer takes all of it |
| Panel.PanelsAgreeInEveryRun | scanbus-backend-brother/src/lib.rs:1087-1223 | After every run each panel holds nothing or exactly what is assigned, and refreshes iff it holds something |
| Panel.OthersLeaveItAlone | scanbus-backend-brother/src/lib.rs:1087-1223 | No run of calls for other scanners changes this one's keys or panel |
| Panel.OldKeysDoNotRideAlong | scanbus-backend-brother/src/lib.rs:1087-1223 | After an unpairing, the first key assigned again is the only one on the panel |
| Pnm.CompletePnmLenLoop | scanbus-backend-common/src/lib.rs:242-322 | The cursor over the header equals the reading of one number after another |
| Pnm.WhatFollowsAHeader | scanbus-backend-common/src/lib.rs:242-322 | After any spelling of a header: too large past 2^64, not yet while fewer bytes follow than its rows have, else its length |
| Pnm.RasterIs | scanbus-backend-common/src/lib.rs:303-311 | The bytes counted are those of the rows: of bits in the fewest bytes that hold them, or of pixels of one or three samples of one or two bytes |
| Pnm.NextTokenLoop | scanbus-backend-common/src/lib.rs:324-348 | White space and comments, then a token, by nested loops over one cursor |
| Pnm.SeparatorIsNeverMissing | scanbus-backend-common/src/lib.rs:298-301 | No input at all reaches the "missing raster separator" branch |
| Pnm.LengthIsStable | scanbus-backend-common/src/lib.rs:242-322 | Bytes appended to a whole page do not change its length |
| Pnm.CompleteExactlyWhenWhole | scanbus-backend-common/src/lib.rs:242-348 | For every page, any comments and white space in its header, and every cut: `None` while cut, an error just after a sign, its length when whole |
| Pnm.ExactlyASignIsReadTooSoon | scanbus-backend-common/src/lib.rs:242-348 | Every strict prefix is `None` if and only if no number in the header has a plus sign |
| Pnm.ASignedPageIsRefused | scanbus-backend-common/src/lib.rs:242-348 | One such page, of eleven bytes, and the four that are refused |
| Spool.Scan.ReadCompletePage | scanbus-backend-common/src/lib.rs:214-240 | What was in the file at some moment during the call, judged by the completeness test, and the file gone exactly if it was whole |
| Spool.Drain | scanbus-backend-common/src/lib.rs:170-182 | Whole pages are passed on in order until the first that is not there, each as written so far |
| Spool.StreamPages | scanbus-backend-common/src/lib.rs:155-212 | While the receiver stays, the pages passed on are the maximal run of complete pages in what the writer finally leaves, or a page of which some prefix is invalid ends the stream |
| Spool.LastDrain | scanbus-backend-common/src/lib.rs:186-200 | After the exit was seen, one more drain passes on whatever was written between the last look and the exit |
| Spool.FetchPages | scanbus-backend-common/src/lib.rs:105-152 | A writer that leaves whole pages, and perhaps one cut short, has exactly the whole ones delivered byte for byte; an error follows exactly if the stream failed or the status is neither success nor, after a page, out of paper |
| Spool.EveryWholePageIsPassedOn | scanbus-backend-common/src/lib.rs:155-240 | The same of every ending the reader can give: the whole pages with indices 0, 1, 2, ..., however the writes fell between looks |
| Frames.FrameReadsBack | scanbus-backend-mobile/src/lib.rs:2582-2664 | A payload is read, with what follows left, if and only if a frame carrying it was written there |
| Frames.CutFrameIsRefused | scanbus-backend-mobile/src/lib.rs:2582-2622 | No strict prefix of a frame is read as a frame |
| Frames.PayloadsReadBack | scanbus-backend-mobile/src/lib.rs:2582-2664 | Any concatenation of written frames is read as exactly the payloads they carry |
| Frames.CutStreamGivesWholePayloads | scanbus-backend-mobile/src/lib.rs:2582-2622 | A connection that ends anywhere has given a prefix of the payloads, each whole |
| Frames.Socket.ReadFrom | scanbus-backend-mobile/src/lib.rs:2582-2622 | The stepwise reader equals the reading of one frame and leaves the bytes after it |
| Frames.Socket.WriteTo | scanbus-backend-mobile/src/lib.rs:2624-2664 | A frame goes out exactly for payloads the reader would accept, and nothing otherwise |
| Frames.Demux | scanbus-backend-mobile/src/lib.rs:1380-1473 | TLS, clear or neither, told by a byte that is not consumed |
| Frames.ControlFramesAreNeverTls | scanbus-backend-mobile/src/lib.rs:1361-1366 | Every stream that begins with a control frame begins with 0x00, and none that begins with 0x16 can be read as one |
| Frames.WhatIsWrittenIsRead | scanbus-backend-mobile/src/lib.rs:1380-1473 | Any control payload within 64 KiB, written by one end, lands in the cleartext branch of the other and is read back |
| PageLoop.Task.StreamUploadPages | scanbus-backend-mobile/src/lib.rs:1578-1644 | The loop over the bytes of a connection, a receiver that may leave and acknowledgements that may fail, equals one function of them; it ends by the pages left |
| PageLoop.Task.ReadUploadHeader | scanbus-backend-mobile/src/lib.rs:1651-1673 | Frame, text, version, kind and bounds in the source's order, and which error each gives |
| PageLoop.HeaderIsRead | scanbus-backend-mobile/src/lib.rs:1651-1673 | A header is read if and only if a frame there carries an upload message of this version within bounds |
| PageLoop.WhatAHeaderIsRefusedFor | scanbus-backend-mobile/src/lib.rs:1651-1673 | For every framed control message: its own parse error, then its version, then being no upload, then bounds outside 1 <= page <= of <= 200 |
| PageLoop.FormatIs | scanbus-backend-mobile/src/lib.rs:1585-1590 | Four names, each for its own format, and no other |
| PageLoop.WhatBreaksAnUpload | scanbus-backend-mobile/src/lib.rs:1618-1641 | Another device or token is unauthorized, any other break malformed |
| PageLoop.EveryRunCounts | scanbus-backend-mobile/src/lib.rs:1578-1644 | For every byte sequence: indices consecutive from the first page's, ok-acks <= pages <= ok-acks + 1, at most 200 pages, and Ok if and only if the last page was acknowledged |
| PageLoop.PagesAreWhatWasSent | scanbus-backend-mobile/src/lib.rs:1578-1644 | Whatever arrives, the pages delivered are those of one upload sent so far, frame by frame |
| PageLoop.OneUploadThroughout | scanbus-backend-mobile/src/lib.rs:1618-1641 | Every header of such an upload has the same device, token, profile and page count, and pages counted up |
| PageLoop.AWholeUploadIsPassedOn | scanbus-backend-mobile/src/lib.rs:1578-1644 | A phone that sends a whole upload and is listened to has every page delivered as sent and acknowledged, and bytes after it left alone |
| DeviceTable.Host.StorePairedDevice | scanbus-backend-mobile/src/lib.rs:1016-1028 | Written, the table is what it was with this device, in memory and in the file; not written, it is without the scanner; name and port stay |
| DeviceTable.Host.PersistPaired | scanbus-backend-mobile/src/lib.rs:1030-1041 | The file after a write: read or reset, then replaced or not |
| DeviceTable.Host.PruneUnrestored | scanbus-backend-mobile/src/lib.rs:1043-1052 | Exactly the restored scanners stay, as they were, and the file is touched only if one went |
| DeviceTable.Host.ForgetDevice | scanbus-backend-mobile/src/lib.rs:1249-1257 | The scanner, and no other, goes from memory whatever the file does; an unknown one touches nothing |
| DeviceTable.Host.constructor | scanbus-backend-mobile/src/lib.rs:404-473 | A start: load or reset, draw a name if there is none, note the bound port, write if either changed |
| DeviceTable.StoreReadsBack | scanbus-backend-mobile/src/lib.rs:1942-1985 | What is written is loaded back whole |
| DeviceTable.AStartAgrees | scanbus-backend-mobile/src/lib.rs:404-473 | A start from any file, readable or not, leaves file and process in agreement if its write succeeds |
| DeviceTable.AStartTakesTheFile | scanbus-backend-mobile/src/lib.rs:404-417 | A start on a readable file has its phones, field by field, and its name unless it has none |
| DeviceTable.ANewerFileIsNotRead | scanbus-backend-mobile/src/lib.rs:1962-1983 | A start on a file of a newer version has no phone and a name of its own |
| DeviceTable.TheFileIsTheTable | scanbus-backend-mobile/src/lib.rs:1016-1052 | In every run whose reads and writes succeed the next start would find exactly this process's devices, name and port, and the name never changes |
| DeviceTable.ExactlyTheseFaultsPartThem | scanbus-backend-mobile/src/lib.rs:1016-1052 | For every operation, a start included, and every fault of reading, setting aside and writing: file and memory still agree on the devices if and only if the write replaced the file with what memory keeps, or what is left in the file is just that |
| DeviceTable.AFailedPairingForgetsTheOldOne | scanbus-backend-mobile/src/lib.rs:1016-1028 | A pairing that cannot be written is undone in memory if and only if the scanner was not paired before |
| DeviceTable.AFailedRevocationIsUndone | scanbus-backend-mobile/src/lib.rs:1249-1257 | A revocation that fails before the file is replaced is undone by the next start if and only if that start reads the file, and the revocation had not set it aside |
| DeviceTable.ExactlyAnUnreadableFileCostsTheName | scanbus-backend-mobile/src/lib.rs:1932-1940 | For every step and fault the host's name is lost if and only if the store is there, cannot be read, and the fault reaches the file |
| DeviceTable.ANameCanBeLost | scanbus-backend-mobile/src/lib.rs:1030-1041 | One failed read during a pairing that succeeds, and the next start draws another name |
| DeviceTable.OneNameForEver | scanbus-backend-mobile/src/lib.rs:404-417 | In every run whose reads succeed the host keeps one name, whatever becomes of its writes |
| DeviceTable.AnOldFileKeepsItsPairings | scanbus-backend-mobile/src/lib.rs:1962-1983 | A store of an older version keeps every pairing, with tls false |
| Authorization.ComparesAll | scanbus-backend-mobile/src/lib.rs:1794-1802 | The comparison that gathers differing bits over the whole length answers what equality would |
| Authorization.AuthorizedExactly | scanbus-backend-mobile/src/lib.rs:1695-1735 | An upload is let through for a scanner if and only if it is the first paired under that name and token, and the transport satisfies pairing and policy |
| Authorization.ARevokedPhoneIsRefused | scanbus-backend-mobile/src/lib.rs:1245-1257 | Once revoked, the token is refused over either transport, whether or not the file was written |
| Authorization.OldPairingsStillUpload | scanbus-backend-mobile/src/lib.rs:1684-1735 | Every pairing of an older store may upload in the clear after the upgrade if and only if the host does not require TLS |
| Handoff.InEveryRun | scanbus-backend-mobile/src/lib.rs:1484-1576 | Over all interleavings: one id a connection, every id found at most once, pages only through a fetch by the authorized scanner, and nothing pending of an upload that has ended |
| Handoff.IdsAreMintedOnce | scanbus-backend-mobile/src/lib.rs:1534-1553 | In every later run an id stands for the connection it was minted on and the scanner authorized there |
| Handoff.OthersSendNothing | scanbus-backend-mobile/src/lib.rs:1534-1553 | No step of another task or of a caller adds a page to an upload |
| Handoff.GrantsComeFromTheTable | scanbus-backend-mobile/src/lib.rs:1507-1521 | No upload speaks for a scanner unless the table, as it stood when its header came, authorized it |
| Handoff.ExactlyAFetchInTimeIsServed | scanbus-backend-mobile/src/lib.rs:1272-1296 | A fetch that finds a pending upload can ever bring a page, and then any list of pages, if and only if it is the authorized scanner's and the upload's task has not given up; a wrong scanner's fetch spoils it for good |
| Handoff.BarrenForGood | scanbus-backend-mobile/src/lib.rs:1553-1569 | An upload withdrawn, or found by the wrong scanner, delivers nothing in any later run |
| Handoff.AFetchCanSucceedInVain | scanbus-backend-mobile/src/lib.rs:1558-1569 | A run of seven steps after which the right scanner's fetch succeeds and no run brings a page |
| Handoff.Uploads.FetchPages | scanbus-backend-mobile/src/lib.rs:1272-1296 | The entry is taken out either way, and a stream comes back exactly for the scanner it was pending for |
| Handoff.Uploads.ServeUpload | scanbus-backend-mobile/src/lib.rs:1484-1576 | For every way others' events fall between its own: the task makes exactly the events of its branch in the source's order, the branch and the answer are decided by the states those events fall in, the whole is a run of the machine, and nothing of it stays pending |
| Handoff.Uploads.Open | scanbus-backend-mobile/src/lib.rs:1507-1553 | The same up to the announcement: refused, nobody subscribed, or announced under a fresh id |
| Handoff.Uploads.Conclude | scanbus-backend-mobile/src/lib.rs:1555-1576 | The same from there: not delivered, not claimed, or streamed |
| Handoff.Uploads.AwaitClaim | scanbus-backend-mobile/src/lib.rs:1563-1569 | The wait ends with the claim exactly if the entry is no longer pending |
| Handoff.Uploads.Withdraw | scanbus-backend-mobile/src/lib.rs:1553-1569 | The entry goes, and its receiver with it, unless a fetch took it meanwhile |
| Handoff.Uploads.StreamPages | scanbus-backend-mobile/src/lib.rs:1571-1576 | Exactly the pages up to the first that finds nobody there are in the channel, in order and as they are, and the answer tells which |
| Fetch.Fetches.FetchPages | scanbus-backend-hplip/src/lib.rs:757-818 | For every way others' events fall between its own: the call makes exactly the events of its branch in the source's order, and its answer, a stream included, is decided by the states those fall in; an error leaves it holding nothing |
| Fetch.Fetches.DropStream | scanbus-backend-hplip/src/lib.rs:213-221 | Dropping the stream frees its scanner, and only that |
| Fetch.InEveryRun | scanbus-backend-hplip/src/lib.rs:757-818 | Over every lock-level interleaving, calls in flight plus live streams of a scanner are its multiplicity in `active`, at most one, and no press is fetched twice |
| Fetch.LetInExactlyWhenFree | scanbus-backend-hplip/src/lib.rs:763-779 | A call is let in if and only if its press was not fetched and nothing is under way for its scanner |

## Left out

- Machine arithmetic of `size + 2` in `dechunk` and of `width.div_ceil(8) * height`: both are unchecked in the source; sizes here do not wrap.
- Socket reads that fail or time out in the HTTP reader: they end an exchange with no answer, which `Walkup` has as `NoReply`; the reader models reads and the close.
- Requests a printer carries out after this host has given up on them: an exchange and its effect are one step.
- Two registrations of this host on one printer at once, and reuse of a URI by the printer.
- Walkup.HpBackend.Run: other machines are taken to register under other names. A name is the machine's without its domain, or `scanbus`; machines that share one sweep each other's entries, as `Walkup.NamesakesSweepEachOther` says, and whose an entry is then cannot be told from the listing.
- XML tokenising: the events of the reader library are taken as they come, character references only as the code points they name.
- `parse_capabilities`: its answer, a limit or none, is a parameter of the registration; `serialise`, `Rejection` and the wording of errors decide nothing the registration depends on.
- Listener.EveryRunKeepsTheInvariant: every operation is one step; `ListenerWindow` splits `subscribe` and a failing receive task. Even there binding and spawning are one piece, `unsubscribe` is one step, and a receive task that was aborted does nothing more.
- Lease.LeaseContinuity: on an ideal clock in whole nanoseconds, where only the exchanges and the two delays take time.
- Cancellation inside the Brother registrar's start: each call runs to its end.
- Skey datagram decoding and SNMP encoding: a press is what it decodes to, and a registration is accepted, refused, unanswered or answered with nonsense.
- The Brother backend's registrar objects are values in a map, so that two names for one registrar are not represented.
- Discovery in all backends (`scanners_from_sightings`, `enrichments_by_model`, mDNS, D-Bus and `hpssd` handling), acquisition options, package probing and logging.
- Spool.StreamPages: a failing file read, a failing removal and a failing `try_wait` are not represented, and page numbers do not wrap at 32 bits.
- PageLoop.Task.StreamUploadPages: what a JSON text says is a parameter, and a frame that times out is one whose bytes never came.
- Frames.Demux: the TLS handshake behind the branch is not represented.
- Handoff.InEveryRun: ids are numbers that do not wrap, the five seconds of the claim are any length of time, and the pages are those `PageLoop` delivers, by number.
- Authorization.Authorize: headers carry the digest of a token rather than the token; SHA-256 is not represented.
- DeviceTable.Host.constructor: the listener's bind, the TLS identity and the announced record are not represented; the bound port and the drawn name are parameters.
- The mobile backend's subscription replacement and listener shutdown.
