# Verified models of mocf's cores

This project models the parts of mocf, a threaded music player, that are hardest to get right,
and proves what they promise. `dafny verify dfyconfig.toml` checks all of it.

Threads that share state are step systems: a state, the steps each thread can take between two
points where another can act, and theorems about every reachable state or every run. Code that
changes objects in place is modelled by classes and methods with loops, each proved against a
function of its inputs or of the old state; the properties are then proved about those
functions and kept as invariants.

| file | what it models |
|---|---|
| `FifoBuf.dfy` | the ring buffer of `src/utils/fifo_buf.cpp` |
| `IoStream.dfy`, `IoStreamProofs.dfy`, `IoStreamSeeks.dfy` | the buffered input stream of `src/io/io.cpp`: reader thread, consumer, seeker and aborter with their mutexes and condition variables |
| `Md5Spec.dfy`, `Md5Block.dfy`, `Md5.dfy` | RFC 1321, and the streaming digest of `src/utils/md5.cpp` against it |
| `Plist.dfy` | the playlist of `src/library/playlist.cpp`: tombstones, index from names to positions, running totals |
| `Audio.dfy`, `AudioEngine.dfy`, `AudioSteps.dfy`, `AudioRuns.dfy` | the sequencing of `src/audio/audio.cpp` over playlist, shuffled list and queue, what each step does, and whole runs |
| `OutBuf.dfy`, `OutBufCalls.dfy` | the output buffer and device thread of `src/audio/outputs/out_buf.cpp` |
| `Player.dfy`, `PlayerCalls.dfy` | the decode loop and the precache hand-over of `src/library/player.cpp` over that buffer |
| `TagsRecord.dfy`, `TagsCache.dfy` | the tags cache of `src/library/tags_cache.cpp`: byte records, eviction, and what a hit returns; the reading of tags of `src/library/files.cpp` |
| `Adts.dfy` | the search for ADTS frames in `src/audio/decoders/aac/aac.cpp` |
| `Menu.dfy` | items, search, mark and viewport of `src/ui/curses/menu.cpp` |
| `EventQueue.dfy` | the event queue and its wake-up pipe in `src/core/server.cpp` |
| `DecoderPref.dfy` | the decoder preferences of `src/audio/decoder.cpp` |
| `Paths.dfy`, `M3u.dfy`, `M3uLines.dfy`, `M3uRoundTrip.dfy` | reading lines, resolving paths, saving and loading M3U playlists, which files a text names, and what comes back (`src/library/files.cpp`, `src/library/playlist_file.cpp`) |
| `Bytes.dfy`, `FileTags.dfy`, `Numbers.dfy`, `Wrappers.dfy` | bytes, the tags of a file, facts about products and remainders, and optional values |

## Where the code and its documentation part

The models follow the code. In these places it does something else than its comments or
documentation say, or meets them only under a condition, which is then stated exactly:

- `plist_prev` gives -1 for -1, where its comment promises the first item; `plist_last` gives 0
  for a list that holds deleted items only, where its comment promises -1.
- `plist_sort_fname` loses each live item without a name that the index does not hold under the
  empty name, if the list has any live item.
- The carry between the two words of the MD5 byte count is right exactly when the low word and
  the length together stay below 2^33.
- `audio_stop` leaves `started_playing_in_queue` and `before_queue_fname` as they are. After
  playing that began in the queue was stopped, the next file to be played from the list is
  followed by the first of the list, which with Shuffle is that file again; and after a queue
  that was stopped, with QueueNextSongReturn on, by the one behind the file that was played
  before the queue.
- A seek whose lseek fails still empties the buffer, so that the stream goes on after the bytes
  that were queued.
- `engine_event_queue_wait_flush` can return no event, although its comment says that it waits
  until at least one has arrived.
- With an asterisk in a decoder preference, the decoders named after it come in a cyclic
  rotation of the order given.
- `resolve_path` leaves a doubled slash in front exactly when a `..` has reached the root and
  components are left at the end.
- The record parser of the tags cache does not deduct strings from its count of bytes left, so
  that a damaged record can be read past its end; the model has an outcome for that, which
  arises exactly under a condition on the three stored lengths and never for records that the
  cache has written.
- A misnamed file is stored in the tags cache when its comments alone are read, against the
  comment that such files never are; a later read of comments and time keeps these comments.
- An addition to the tags cache can exceed the limit by one, exactly when the file is new, the
  database full and each of its readable records from the future; while the clock does not go
  back, only the first addition can.
- A time that is stored in the tags cache is still answered when playing has measured another.
- `plist_save` strips relative paths when all names begin with the text of the directory. They
  then load back exactly when every name goes on behind it with a slash and no number sign, so
  never from the root directory. With titles and times, an item without tags comes back with
  the known time 0, and a time of ten characters ends the loading.
- The end of `resolve_path` looks for a dot behind the last slash, which can never be there.
- In `menu_update_size` the second clipping of the selection, and in `menu_delete` the test for
  a negative top row, can never apply.

## How to read the step systems

A critical section is one step. A thread that waits on a condition variable is asleep until a
notification or a spurious wake-up moves it to a state in which it takes the mutex again. The
models allow more interleavings than the code in two places: the device thread may be
interrupted between the head of its loop and the notification even without a free callback, and
the decode loop may take a branch whose own condition holds without the conditions of earlier
branches being tested at the same moment. What is proved of all runs of the model therefore
holds of those of the code.

Devices accept any prefix of what they are offered, decoders return any chunks with any
parameters, and reads of a stream return any non-empty part of what is left, the end, or a
failure. Random draws, clocks, modification times, file contents and the order of a database
cursor or of an ordered container's keys are parameters.

## Model

| member | source | states |
|---|---|---|
| `Fifo.FifoBuf.Put` | src/utils/fifo_buf.cpp:31-64 | put appends the longest prefix of the data that fits, wrap-around included, and returns its length; nothing queued is lost or reordered |
| `Fifo.FifoBuf.Peek` | src/utils/fifo_buf.cpp:68-100 | peek copies the longest prefix of the queue that the user's buffer holds and changes nothing else |
| `Fifo.FifoBuf.Get` | src/utils/fifo_buf.cpp:104-132 | get copies the same bytes and removes exactly them from the front |
| `Fifo.FifoBuf.Space` | src/utils/fifo_buf.cpp:135-139 | the free space is the capacity less the queued bytes |
| `Fifo.FifoBuf.Clear` | src/utils/fifo_buf.cpp:151-154 | the queue is empty afterwards |
| `Fifo.FirstInFirstOut` | src/utils/fifo_buf.cpp:31-154 | in the specification, after every sequence of put, get, peek and clear: what was taken since the last clear, followed by what is queued, is what was accepted |
| `Fifo.Perform` | src/utils/fifo_buf.cpp:31-154 | a buffer object on which such a sequence is performed gives out and holds exactly what the specification says, which together is what it accepted |
| `IoStreamProofs.StepKeeps` | src/io/io.cpp:363-471 | every step of reader, consumer, seeker or aborter keeps the invariant, also between lseek and the clearing of the buffer and while the fill callback runs without the lock |
| `IoStreamProofs.DeliversTheFile` | src/io/io.cpp:363-471 | in every reachable state the bytes delivered since the last seek are the consecutive bytes of the file from the seek target, and the buffer continues them |
| `IoStreamProofs.ReadReturnsTheFile` | src/io/io.cpp:599-625 | one buffered read that no seek interrupts returns consecutive bytes of the file; it is short only at the end of the file, after an error or after an abort, and -1 only after an error |
| `IoStreamProofs.ShortReadIsTheEnd` | src/io/io.cpp:605-624 | when a read gives up early, seeks or not, the stream stands at the end of the file: a stale eof is never acted on |
| `IoStreamProofs.PeekShowsTheFile` | src/io/io.cpp:574-597 | the bytes that a peek takes from the buffer are those that the next read returns; less than asked for only with a full buffer, at the end, after an error or an abort |
| `IoStreamProofs.PeekReturnsTheFile` | src/io/io.cpp:681-700 | a peek that no seek interrupts returns the number of bytes it took, which are those of the file, or -1 and then only after an error |
| `IoStreamProofs.EofIsTheEnd` | src/io/io.cpp:743-754 | io_eof without an abort means that every byte up to the end of the file was delivered |
| `IoStreamProofs.TellIsExact` | src/io/io.cpp:721-740 | between calls, when seeks and reads take turns and no seek fails, io_tell is the position of the next byte |
| `IoStreamProofs.FailedSeekSkips` | src/io/io.cpp:185-212 | a failed lseek clears the buffer all the same: the stream goes on after exactly the bytes that were queued or pending |
| `IoStreamProofs.FailedSeekLosesByte` | src/io/io.cpp:185-212 | for every file that is not empty there is a run in which a failed lseek loses the first byte, while io_tell stays at 0 |
| `IoStreamProofs.NeverBothAsleep` | src/io/io.cpp:410-462 | the reader waiting for space or a seek and the consumer waiting for data are never both asleep without a notification on its way |
| `IoStreamProofs.SleepingConsumerIsServed` | src/io/io.cpp:583-619 | while the consumer sleeps, the reader or the seeker in its way can take a step |
| `IoStreamProofs.SleepingConsumerIsWoken` | src/io/io.cpp:363-471 | however the threads run, the consumer sleeps through at most eleven steps of the reader, and eleven more for each seek that clears the buffer meanwhile |
| `IoStreamProofs.AbortEndsTheReader` | src/io/io.cpp:298-312 | after io_abort the reader reaches its exit within seven steps of its own in every interleaving and never sleeps again |
| `IoStreamProofs.AbortedReaderMoves` | src/io/io.cpp:298-312 | after io_abort the reader, or the thread that holds the mutex it needs, can always take a step |
| `IoStreamSeeks.SeekArrives` | src/io/io.cpp:185-290 | for every interleaving: from a successful lseek on until io_seek returns, the stream is on its way to the place asked for by offset and whence, or the nearest end of the file; then io_tell is there and the bytes delivered and queued are those of the file from there on |
| `IoStreamSeeks.LseekGoesThere` | src/io/io.cpp:248-263 | lseek goes to the offset, to it past io_tell, or to it past the end, and to the nearest end of the file when that lies outside |
| `IoStreamSeeks.SeekReturns` | src/io/io.cpp:274-278 | io_tell is the place sought after a success and stays after a failure |
| `IoStreamSeeks.MutexesProtect` | src/io/io.cpp:363-471 | while a thread holds buf_mtx no other touches buffer or marks, nor takes it; likewise io_mtx and the position of the file |
| `IoStreamSeeks.ReaderReads` | src/io/io.cpp:369-381 | a read gives any non-empty part of at most 8096 bytes of what is left, and nothing exactly at the end |
| `IoStreamSeeks.OvertakenIsRetried` | src/io/io.cpp:394-426 | a failure or an end met before a seek moved the file is not believed, the reader tries again and marks nothing |
| `IoStreamSeeks.FreshIsReported` | src/io/io.cpp:394-426 | one that no seek has overtaken is: an error ends the reader, an end is marked, and the consumer is woken |
| `IoStreamSeeks.OvertakenIsDropped` | src/io/io.cpp:431-462 | bytes that a seek has overtaken never reach the buffer |
| `IoStreamSeeks.FillTakesMost` | src/io/io.cpp:431-462 | the reader puts as much as there is space for and sleeps, without the mutex, exactly when there is none |
| `IoStreamSeeks.CallStays` | src/io/io.cpp:574-625 | whatever the threads do, a call of io_read or io_peek keeps the count it was made with and the bytes it has got until it returns |
| `IoStreamSeeks.ReadTakesMost` | src/io/io.cpp:605-619 | each turn takes as much of the buffer as is still wanted, and sleeps exactly when the buffer is empty |
| `IoStreamSeeks.ReadGivesUp` | src/io/io.cpp:605-624 | io_read returns what it got and moves io_tell by it; nothing after an error is -1, and otherwise 0 |
| `IoStreamSeeks.CallEnds` | src/io/io.cpp:591-699 | io_peek returns what it saw, or -1 exactly after a read error |
| `IoStreamSeeks.AbortStops` | src/io/io.cpp:298-312 | io_abort stops the stream, nobody is left asleep on it, and a second one does nothing |
| `IoStreamSeeks.EofIff` | src/io/io.cpp:743-754 | once the end is marked, io_eof tells exactly whether everything up to the end of the file was delivered |
| `IoStreamSeeks.ReadsByteAt` | src/io/io.cpp:185-625 | every byte of every file can be sought and read, by a consumer that sleeps until it comes |
| `IoStreamSeeks.ReadsNothingAtEnd` | src/io/io.cpp:185-625 | a read at the end of every file can return with nothing |
| `Md5Block.FunctionsAgree` | src/utils/md5.cpp:291-294 | the optimised macros FF, FG, FH and FI compute the functions F, G, H and I of section 3.4 of RFC 1321 |
| `Md5Block.Rounds` | src/utils/md5.cpp:361-442 | the 64 unrolled lines are the 64 operations of RFC 1321 with the table T and the word order of each round |
| `Md5.Md5Ctx.ProcessBlock` | src/utils/md5.cpp:299-456 | folding whole blocks continues the fold of the message so far and adds their length to the count |
| `Md5.CarryIsExact` | src/utils/md5.cpp:313-317 | the single carry between the two count words is right if and only if the low word and the length stay below 2^33 together |
| `Md5.Md5Ctx.constructor` | src/utils/md5.cpp:70-79 | a new context stands for the empty message |
| `Md5.Md5Ctx.ProcessBytes` | src/utils/md5.cpp:221-285 | whatever the length and the alignment, the bytes are appended to the message that the context stands for, with a tail of at most 64 bytes; a right count stays right if and only if the data is unaligned or the low word and the whole blocks taken in one go stay below 2^33 |
| `Md5.EndingPads` | src/utils/md5.cpp:104-127 | tail, fill bytes and the two shifted count words complete the padding of sections 3.1 and 3.2 of RFC 1321, in one block or two |
| `Md5.Md5Ctx.Finish` | src/utils/md5.cpp:104-127 | the result is the RFC 1321 digest of the message when the count is right, and 16 bytes always |
| `Md5.DigestInPieces` | src/utils/md5.cpp:221-285 | for every message and every cutting into pieces below 2^32 bytes, aligned or not, the digest is that of the concatenation |
| `Md5.DigestOfBuffer` | src/utils/md5.cpp:207-219 | md5_buffer gives the RFC 1321 digest of a buffer below 2^32 bytes |
| `Plist.Plist.Add` | src/library/playlist.cpp:102-126 | one live item is appended and the totals stay right; the index stays right if and only if no live item had the name |
| `Plist.Plist.AddFromItem` | src/library/playlist.cpp:534-547 | the copy is appended; the totals stay right if and only if it is live, the index if and only if no live item had its name |
| `Plist.Plist.Delete` | src/library/playlist.cpp:549-572 | the item stays as a tombstone under its name, and index and totals stay right |
| `Plist.Plist.SetItemTime` | src/library/playlist.cpp:640-675 | the item has the time; the totals stay right if and only if the item is live or the time does not change |
| `Plist.Plist.SetTags` | src/library/playlist.cpp:818-849 | the item has the tags; the totals stay right if and only if the item is live or its time does not change |
| `Plist.Plist.SetFile` | src/library/playlist.cpp:599-613 | the item has the name; the index stays right if and only if no other live item has the old or the new name and no entry for the empty name is left behind |
| `Plist.Plist.Clear` | src/library/playlist.cpp:206-215 | no items, empty index, zero totals |
| `Plist.Plist.CountItems` | src/library/playlist.cpp:575-580 | the count is the number of live items, and zero exactly when there is none |
| `Plist.Plist.TotalTime` | src/library/playlist.cpp:694-699 | the total is the sum of the known times of live items, and the flag says whether all of them are known |
| `Plist.Plist.FindFname` | src/library/playlist.cpp:260-273 | what the index has under the name, if live: for every name that is not empty, and for the empty one when no live item lacks a name, the live item of the name, and -1 exactly when there is none |
| `Plist.Plist.FindDelFname` | src/library/playlist.cpp:278-297 | the first live item of the name, or the last deleted one when none is live |
| `Plist.Plist.Next` | src/library/playlist.cpp:171-184 | the next live item after a position, or -1 when no live item follows |
| `Plist.Plist.Prev` | src/library/playlist.cpp:190-203 | the live item before a position, or -1; for -1 the result is -1, not the first item that the comment promises |
| `Plist.Plist.Last` | src/library/playlist.cpp:754-766 | the last live item; a list of deleted items only gives 0 and an empty one -1, where the comment promises -1 for both |
| `Plist.Plist.SwapFiles` | src/library/playlist.cpp:866-879 | the two named items change places and the index and totals stay right |
| `Plist.Plist.SwapFirstFname` | src/library/playlist.cpp:733-750 | the live item that the index has under the name comes first, for every name, the empty one included; the index stays right if and only if the first item was live, nameless or bore a name that is nowhere live |
| `Plist.Plist.Shuffle` | src/library/playlist.cpp:715-730 | a permutation with the same totals; the rebuilt index is right if and only if no live item is followed by one of its name, so always when no deleted item shares a live name |
| `Plist.ShuffleReachesAll` | src/library/playlist.cpp:715-730 | every order of the items comes out for some draws |
| `Plist.ReindexedRight` | src/library/playlist.cpp:724-729 | rebuilding the index over all items gives a right one if and only if no live item is followed by an item of its name |
| `Plist.Plist.SortFname` | src/library/playlist.cpp:218-257 | the list becomes the live items that the index lists, in the order of its keys, with right index and totals; a list without live items stays as it is |
| `Plist.SortedIndexed` | src/library/playlist.cpp:218-257 | that result has each live named item exactly once, in strictly ascending order of names |
| `Plist.SortKeepsAll` | src/library/playlist.cpp:218-257 | no live item is lost by sorting if and only if the index leads to every live item without a name under the empty name |
| `Plist.NamelessIsLost` | src/library/playlist.cpp:218-257 | one that was added without a name beside a named one is lost, whatever the name |
| `Plist.Plist.Cat` | src/library/playlist.cpp:616-637 | the live items of the other list whose names are not live yet are appended in order; index and totals stay right |
| `Plist.CattedNames` | src/library/playlist.cpp:616-637 | the live names of the result are those of both lists together |
| `Plist.CattedFresh` | src/library/playlist.cpp:616-637 | copied into an empty list, every item is live, no two share a name, and all come from the source |
| `Plist.CattedCopies` | src/library/playlist.cpp:616-637 | the first list stays as it is, and after it come copies of exactly the first live items of the names that were not live, in the order of the second list |
| `Plist.Plist.RemoveCommon` | src/library/playlist.cpp:777-798 | exactly the items whose names are live in the other list become deleted; index and totals stay right |
| `Plist.Plist.DiscardTags` | src/library/playlist.cpp:800-816 | live items lose their tags, deleted ones keep them, and the totals of times are zero and right |
| `AudioEngine.Engine.PlistAdd` | src/audio/audio.cpp:1164-1176 | a new file is appended to the playlist, a known one is not; the shuffled list is emptied; the engine's invariant holds if and only if the name is not empty |
| `AudioEngine.Engine.QueueAdd` | src/audio/audio.cpp:1178-1189 | a file is appended to the queue unless it waits there already; the engine's invariant holds if and only if the name is not empty |
| `AudioEngine.Engine.PlistClear` | src/audio/audio.cpp:1191-1196 | playlist and shuffled list are empty |
| `AudioEngine.Engine.QueueClear` | src/audio/audio.cpp:1198-1202 | the queue is empty |
| `AudioEngine.Engine.PlistDelete` | src/audio/audio.cpp:1238-1254 | whatever the name, the file is deleted from the playlist and from the shuffled list, which keeps exactly the playlist's live files or nothing |
| `AudioEngine.Engine.QueueDelete` | src/audio/audio.cpp:1256-1266 | whatever the name, the file is deleted from the queue |
| `AudioEngine.Engine.PlistMove` | src/audio/audio.cpp:1325-1329 | the items that the index has under the two names change places, live or not, and nothing happens when one is missing; for two live files these are theirs |
| `AudioEngine.Engine.PlistSetTime` | src/audio/audio.cpp:1298-1314 | whatever the name, the live file has the time, and the playlist's totals with it |
| `AudioEngine.Engine.GoToAnotherFile` | src/audio/audio.cpp:308-446 | the step over the three lists is the specified one for all options and requests, and keeps the invariant: the shuffled list holds nothing or exactly the playlist's live files |
| `AudioEngine.Engine.StartTrack` | src/audio/audio.cpp:452-475 | the track's file is taken from the current list, nothing when the position is past its end |
| `AudioEngine.Engine.PlayFile` | src/audio/audio.cpp:549-613 | playing from a file or from the beginning, with the queue first when no file is given; keeps the invariant |
| `Audio.GoToKeeps` | src/audio/audio.cpp:308-446 | moving on keeps the lists sound and never changes the playlist |
| `Audio.PlayKeeps` | src/audio/audio.cpp:549-613 | starting to play keeps the lists sound and never changes the playlist |
| `Audio.RemixedRight` | src/audio/audio.cpp:570-575 | clear, copy and shuffle give the playlist's live files, each once, all live |
| `AudioRuns.ShuffleRunPlaysAll` | src/audio/audio.cpp:344-434 | with an empty queue, AutoNext on and Repeat off: every shuffled run that audio_play starts at f over an unedited playlist plays every live file exactly once, f first, and then stops, if and only if no mark is left from playing that began in the queue and no other name to return to from a queue that was stopped |
| `AudioRuns.StoppedQueueRepeats` | src/audio/audio.cpp:402-412 | for all names and draws: when playing began in the queue, is stopped there and started at f, the second track of the shuffled run is f again |
| `AudioRuns.QueueErased` | src/audio/audio.cpp:308-446 | with AutoNext and QueueNextSongReturn on and Shuffle off, whatever is drawn, whenever files are queued and whatever a stopped queue has left: the files played from the list are those of the run with an empty queue, each the next in the playlist after the one before (after the first one, where what is left says), that run ends when this one does, and the queued files are played once each in the order taken |
| `AudioRuns.PlayStarts` | src/audio/audio.cpp:549-613 | without Shuffle, and whatever is drawn, playing a file of the playlist starts such a run at that file, with the mark and the name to return to that a stopped queue has left |
| `AudioRuns.PrevUndoesNext` | src/audio/audio.cpp:371-416 | with an empty queue, going back after going on returns to the same place of the same list if and only if the step started from that place and found a next file there or went round with Repeat without mixing anew, or it started over from the first file and Repeat goes back from there to the same place, the last one |
| `AudioSteps.WithoutAutoNext` | src/audio/audio.cpp:308-446 | with AutoNext off and no request the engine stops, or with Repeat stays where it is; playlist and queue stay as they are |
| `AudioSteps.RepeatsOrStops` | src/audio/audio.cpp:435-442 | so a file of the list is repeated, or it was the last one |
| `AudioSteps.NextIsAutoNext` | src/audio/audio.cpp:311 | a request for the next file does what AutoNext does unasked, and with AutoNext on it changes nothing |
| `AudioSteps.QueueComesFirst` | src/audio/audio.cpp:316-332 | going on plays the first live file of the queue, which leaves it, whatever else is asked; the file before the queue is remembered |
| `AudioSteps.QueueWaits` | src/audio/audio.cpp:333-446 | without a reason to go on the queue stays as it is |
| `AudioSteps.GoesOn` | src/audio/audio.cpp:333-446 | from every sound state with nothing queued the file behind the last one follows, or the first of the list when its place is not known; at the end playing stops, or with Repeat goes round, over a new mix if shuffled |
| `AudioSteps.GoesBack` | src/audio/audio.cpp:374-400 | likewise back, and from the first file to the last live one with Repeat |
| `AudioSteps.MixesAnew` | src/audio/audio.cpp:344-358 | when an edit has emptied the shuffled list a new mix is made in which the file that was played comes first, and its second is played |
| `AudioSteps.NothingToPlay` | src/audio/audio.cpp:435-442 | with nothing to play, playing stops unless Repeat is on |
| `AudioSteps.PlaysQueue` | src/audio/audio.cpp:549-613 | playing without a name starts with the first file of the queue, which leaves it |
| `AudioSteps.PlaysFirst` | src/audio/audio.cpp:549-613 | or else with the first of the list, mixed if shuffled, or nowhere exactly when there is none |
| `AudioSteps.PlaysNamed` | src/audio/audio.cpp:549-613 | a named file is played exactly when the playlist has it live, and the queue waits |
| `AudioSteps.AddedLast` | src/audio/audio.cpp:1164-1189 | a file added comes last among the live ones, once |
| `AudioSteps.DeletedOnly` | src/audio/audio.cpp:1238-1266 | exactly the live item of the name is deleted |
| `AudioSteps.RetimedOnly` | src/audio/audio.cpp:1298-1314 | exactly the live item of the name gets the time |
| `OutBuf.StepKeeps` | src/audio/outputs/out_buf.cpp:76-426 | every section of the device thread, put, pause, unpause, stop, reset, wait and exit keeps the invariant |
| `OutBuf.ConservesBytes` | src/audio/outputs/out_buf.cpp:76-231 | sent bytes, unsent rest of play_buf and buffer contents, in that order, are the bytes put accepted less those discarded by clears; put accepted what it was given but for what it refused or still holds |
| `OutBuf.NothingLeavesWhilePaused` | src/audio/outputs/out_buf.cpp:117-187 | while paused or stopped no byte moves from the buffer towards the device |
| `OutBuf.NoLostWakeUp` | src/audio/outputs/out_buf.cpp:283-426 | playable bytes are not left to a sleeping device thread, a sleeping stop or wait has it awake, and put and it sleep together only on a pause |
| `OutBuf.WaitLeavesDeviceFree` | src/audio/outputs/out_buf.cpp:414-426 | when wait returns, the device thread holds no bytes |
| `OutBufCalls.PauseHolds` | src/audio/outputs/out_buf.cpp:117-187 | from a pause on, whatever the threads do until someone unpauses, stops or resets, no byte leaves for the device and the buffer is only added to |
| `OutBufCalls.PausedDeviceRests` | src/audio/outputs/out_buf.cpp:117-140 | the device thread of a paused buffer corks the stream, or closes the device if it cannot be corked, once, and sleeps |
| `OutBufCalls.UnpauseWakes` | src/audio/outputs/out_buf.cpp:326-331 | unpausing wakes the device thread and changes nothing else |
| `OutBufCalls.TakesBytes` | src/audio/outputs/out_buf.cpp:142-200 | past its callback or its sleep, with bytes to play and a device that is or can be opened, the device thread takes as many as it may from the front; the device is then open and not corked |
| `OutBufCalls.OnlyOpenDevicesPlay` | src/audio/outputs/out_buf.cpp:142-200 | bytes are taken only for a device that is open and not corked, neither paused nor stopped |
| `OutBufCalls.CallbackWakes` | src/audio/outputs/out_buf.cpp:105-115 | past the callback everyone who waits for the buffer has been woken |
| `OutBufCalls.PutTakesMost` | src/audio/outputs/out_buf.cpp:283-318 | a put that is not refused takes as much as there is space for, is over exactly when all is taken, and wakes the device thread |
| `OutBufCalls.StopHolds` | src/audio/outputs/out_buf.cpp:335-347 | from a stop on, whatever the threads do until the reset, nothing goes to the device and nothing is accepted |
| `OutBufCalls.WaitEnds` | src/audio/outputs/out_buf.cpp:414-426 | wait is over exactly when the device thread is asleep or has been woken and not yet gone on |
| `OutBufCalls.GoneHasPlayedAll` | src/audio/outputs/out_buf.cpp:164-171 | when the device thread has exited, everything that was accepted and not discarded was sent |
| `OutBufCalls.BytesGetThrough` | src/audio/outputs/out_buf.cpp:76-331 | for all data that fits there is a run that plays it, through a pause that closes the device |
| `Player.StepKeeps` | src/library/player.cpp:355-557 | every step of the decode loop over the output buffer, from file to file, keeps the invariant |
| `Player.ChunksMatchTheDevice` | src/library/player.cpp:504-531 | every chunk put was decoded with the parameters that the device was last opened with |
| `Player.SentBytesMatchTheDevice` | src/library/player.cpp:504-531 | every byte sent to the device was decoded with the parameters it has at that moment |
| `Player.NothingOldAfterOpening` | src/library/player.cpp:518-531 | when the device is opened with other parameters, also for a precached file, no byte queued before is on its way |
| `Player.PlayedAllOfIt` | src/library/player.cpp:532-557 | a normal end of file comes only after the decoder has returned nothing since the last successful seek or the start of the file, and then the device has been sent since exactly its output, precached bytes included |
| `Player.QueuedIsPrefix` | src/library/player.cpp:475-517 | outside seeks and stops, the accepted bytes since then are a prefix of the decoder's output |
| `PlayerCalls.DecoderIsAsked` | src/library/player.cpp:388-431 | the loop asks the decoder exactly when nothing is left to put and it has not come to its end; an empty answer, and no other, is that end |
| `PlayerCalls.NextBranch` | src/library/player.cpp:504-536 | which of putting, switching and ending can be taken is decided by end, change of parameters and space as in the code |
| `PlayerCalls.AfterSwitch` | src/library/player.cpp:518-531 | after a switch the device has the parameters of the waiting chunk, which can then be put |
| `PlayerCalls.SeekGoesOn` | src/library/player.cpp:472-503 | after a successful seek the buffer is empty, what was decoded is forgotten, and the decoder is asked even if it had come to its end |
| `PlayerCalls.EndsForAReason` | src/library/player.cpp:456-536 | a file ends as played only with the decoder at its end since the last seek and an empty buffer, as stopped only on request, as failed only when the device could not be opened |
| `PlayerCalls.ClosingEnds` | src/library/player.cpp:539-564 | every end frees the player for the next file |
| `PlayerCalls.FilePlays` | src/library/player.cpp:355-564 | for every chunk of every parameters there is a run that plays it to its normal end |
| `TagsRecord.Serialize` | src/library/tags_cache.cpp:141-201 | the buffer filled piece by piece is the record: times, three length-prefixed texts, three numbers |
| `TagsRecord.Deserialize` | src/library/tags_cache.cpp:205-282 | the parser with its moving pointer and its count of bytes left computes the specified result, errors included |
| `TagsRecord.RecordRoundTrip` | src/library/tags_cache.cpp:141-282 | parsing a stored record gives back its times and tags, with artist and album cleared when the title is empty and the filled bits derived from title and time |
| `TagsRecord.ParsedIsClean` | src/library/tags_cache.cpp:260-268 | whatever was stored, parsed tags without the comments bit have no title, artist or album |
| `TagsRecord.CRanges` | src/library/tags_cache.cpp:141-201 | what a record can hold are the values of int and time_t |
| `TagsRecord.TimesStayInside` | src/library/tags_cache.cpp:248-251 | reading only the times never reads past the record |
| `TagsRecord.LeavesRecordExactly` | src/library/tags_cache.cpp:205-282 | for all bytes: a full read goes past the end of a record if and only if the three stored lengths make it, each of them no more than the count of bytes left but the texts and numbers together longer than the record |
| `TagsRecord.ZeroesLeaveRecord` | src/library/tags_cache.cpp:205-282 | 24 zero bytes are such a record |
| `TagsRecord.StoredNeverOverruns` | src/library/tags_cache.cpp:141-282 | no record that the cache has written is |
| `TagsCache.ReadIsTruthful` | src/library/tags_cache.cpp:580-620 | what is read on top of truthful tags, with or without a time from the playlist, is truthful unless the file is found to be misnamed, and has all selected fields exactly when the file has a decoder or only a time is selected that is known |
| `TagsCache.MarkedExactly` | src/library/tags_cache.cpp:580-620 | a reading is marked as misnamed or unreadable if and only if a time is to be read and, if the playlist knows it, another decoder recognises the content, and if not, neither the tags nor the decoder of the extension know it and another decoder recognises the content or the first cannot open the file |
| `TagsCache.AgreesExactly` | src/library/tags_cache.cpp:580-620 | reading what stored tags lack agrees in the selected fields with a fresh read if and only if a misnamed file's stored comments are not mixed with its time and no stored time is kept that a fresh read would give otherwise |
| `TagsCache.MisnamedIsStored` | src/library/tags_cache.cpp:676-687 | there is such a file: a read of its comments alone is not marked, so that it is stored, against the comment, and keeps the wrong title afterwards |
| `TagsCache.SettledIsTruthful` | src/library/tags_cache.cpp:260-273 | storing and loading truthful tags leaves them truthful |
| `TagsCache.TruthAgrees` | src/library/tags_cache.cpp:643-663 | stored tags that have the selected fields agree in them with a fresh read if and only if the time, if selected, is that of a fresh read |
| `TagsCache.StoredComesBack` | src/library/tags_cache.cpp:643-663 | tags stored at a modification time come back at that one and no other; they answer a request for comments exactly if they have a title, and one for the time exactly if it is known |
| `TagsCache.AtimeIsSecond` | src/library/tags_cache.cpp:453-499 | the access time is in the second eight bytes of a record, whatever becomes of the tags behind it, and missing exactly in shorter records |
| `TagsCache.FreshTimeRead` | src/library/tags_cache.cpp:580-620 | the time of a fresh read is the one measured by playing, or that of the other decoder that recognises the content when the own one finds none, or that of the own one |
| `TagsCache.Cache.constructor` | src/library/tags_cache.cpp:758-782 | a cache opened on any database whose readable records are truthful, unreadable and overrunning ones included, does not know its number of items |
| `TagsCache.Cache.FindOldest` | src/library/tags_cache.cpp:453-499 | the walk finds the first of the readable records of least access time, if that is not in the future, and counts all records |
| `TagsCache.Cache.Gc` | src/library/tags_cache.cpp:439-519 | at most one record goes, one of least access time; exactly when the count is not known to be below the limit, there are at least as many records as the limit and some readable one is not from the future; the count is then exact |
| `TagsCache.Cache.Add` | src/library/tags_cache.cpp:544-577 | at any time of the clock the record is stored, no other is changed or added, and nitems stays -1 or an upper bound; the records stay at most the larger of the limit and their number before if and only if there were fewer than the limit, some readable one was not from the future, or the file had a record; while the clock does not go back, only the first addition can exceed it, by one |
| `TagsCache.FirstAdditionExceeds` | src/library/tags_cache.cpp:544-577 | for any file: the first addition to a cache for one record that holds an unreadable one leaves two |
| `TagsCache.Cache.ReadAdd` | src/library/tags_cache.cpp:629-689 | the lookup reads past a record if and only if its stored lengths say so; else a hit happens exactly for a parsable record of the same modification time with the selected fields, and hit or miss the selected fields are those of a fresh read if and only if no comments are mixed and no stored time is kept, as above; a marked reading stores nothing and happens exactly as above; any other miss stores what was read |
| `TagsCache.Cache.AddRequest` | src/library/tags_cache.cpp:833-870 | an immediate answer is given exactly for such a record, and agrees with a fresh read if and only if its time, if selected, does |
| `Adts.HeaderFields` | src/audio/decoders/aac/aac.cpp:135-163 | the shifts and masks read the header fields of section 6.2 of ISO/IEC 13818-7: sync word, layer, and the 13-bit frame length at bit 30 |
| `Adts.Buffer.Fill` | src/audio/decoders/aac/aac.cpp:72-101 | refilling moves and appends without changing the stream ahead; 1 means more bytes or a full buffer, 0 the end, -1 exactly a failed read |
| `Adts.Buffer.Consume` | src/audio/decoders/aac/aac.cpp:109-114 | exactly n bytes of the stream ahead are skipped |
| `Adts.Buffer.FillMin` | src/audio/decoders/aac/aac.cpp:116-132 | nothing is skipped, the loop ends on every finite stream, and 1 means that enough bytes are buffered, 0 that the stream ends before, -1 exactly that a read failed before |
| `Adts.Buffer.Scan` | src/audio/decoders/aac/aac.cpp:187-215 | the scan stops at the first header in the buffer, after the last offset with six bytes, or when no try is left |
| `Adts.Buffer.SkipToFrame` | src/audio/decoders/aac/aac.cpp:168-215 | up to the header: no byte is lost and no header skipped, refills included; 1: the first header is at the position; 0: there is none in the whole stream; -1 without a failed read: none at the first 32768 offsets |
| `Adts.Buffer.FillFrame` | src/audio/decoders/aac/aac.cpp:168-223 | no byte is lost or duplicated and no header skipped, refills included; 1: the first header is at the position and its frame buffered; 0: the stream ended without a header or in a frame; -1 without a failed read: exactly when the first 32768 offsets hold no header and a further one exists; a failed read is met only if the stream fails one within as many reads as it has bytes, and the bytes buffered then hold no whole frame |
| `Menu.Menu.Add` | src/ui/curses/menu.cpp:267-300 | the item is appended with its position as number, and the search map has it under its file; the menu's invariant holds if and only if it has no file or a new one that is not empty; mark and viewport stay |
| `Menu.Menu.Find` | src/ui/curses/menu.cpp:714-726 | the item of a file is found with its right position, and none exactly when the menu does not have the file |
| `Menu.Menu.Driver` | src/ui/curses/menu.cpp:359-433 | each request moves the selection by its line or screen, stopping at the ends, also one that is out of view; a visible selection stays visible, and another becomes visible if and only if the request moves the view to it or it to the view; the top row is where the code puts it |
| `Menu.PagesFurthest` | src/ui/curses/menu.cpp:359-433 | paging goes to the furthest row that fits on one screen with the selected one |
| `Menu.UpUndoesDown` | src/ui/curses/menu.cpp:359-433 | Up undoes Down and Down undoes Up but at the ends, which stay; Top and Bottom are the ends |
| `Menu.ViewFollows` | src/ui/curses/menu.cpp:359-433 | a line's step moves the view only to bring the row in, to the middle; a page's step keeps the row's place on the screen, but at the ends of the list |
| `Menu.BroughtToTheMiddle` | src/ui/curses/menu.cpp:448-472 | a view that moves to show a row has it in the middle or is at an end of the list, and leaves no row empty that need not be |
| `Menu.Menu.MakeItemVisible` | src/ui/curses/menu.cpp:448-472 | the item's row is shown; the view moves only if it was not, to have it in the middle; the selection moves to the item exactly if it fell out of view |
| `Menu.Menu.SetCurrItem` | src/ui/curses/menu.cpp:475-482 | the item is selected and visible |
| `Menu.Menu.SelectFile` | src/ui/curses/menu.cpp:826-838 | the file's item is selected, or nothing changes when the menu does not have it, the empty name included |
| `Menu.Menu.SelectTitle` | src/ui/curses/menu.cpp:485-496 | the first item of the title from the top row on is selected, or nothing changes |
| `Menu.Menu.MakeVisible` | src/ui/curses/menu.cpp:906-917 | the file's row is shown and the selection stays valid and visible |
| `Menu.Menu.UpdateSize` | src/ui/curses/menu.cpp:325-347 | with the new height the selection is clipped to the view, and is visible if and only if it was not above the view |
| `Menu.Menu.GetState` | src/ui/curses/menu.cpp:538-544 | the state fits the present height with every number of items, so that it can be restored after items have changed |
| `Menu.Menu.SetState` | src/ui/curses/menu.cpp:510-529 | for every state the two rows are the saved ones, clipped to the items; the selection is valid and visible if and only if the state, the height and the number of items fit together |
| `Menu.Menu.MarkItem` | src/ui/curses/menu.cpp:728-740 | the file is marked if the menu has it, whatever the name |
| `Menu.Menu.UnmarkItem` | src/ui/curses/menu.cpp:546-550 | nothing is marked |
| `Menu.Menu.RenumberItems` | src/ui/curses/menu.cpp:742-750 | every item's number is its position |
| `Menu.Menu.DelItem` | src/ui/curses/menu.cpp:752-817 | exactly the file's item goes; the mark stays with its file, the selection with its item unless that one went; numbers, search and viewport stay right |
| `Menu.Menu.ItemsSwap` | src/ui/curses/menu.cpp:853-885 | the two items change places with their numbers; mark and selection stay with their items |
| `Menu.Menu.SwapItems` | src/ui/curses/menu.cpp:887-903 | the files change places if the menu has both; mark and selection stay with their items and the selection is visible |
| `EventQueue.DeliveredInOrder` | src/core/server.cpp:106-134 | with any number of producers, what the consumer has got followed by the queue is what was pushed: each event exactly once, in push order; and the pipe never holds more than it can |
| `EventQueue.NonEmptyIsAnnounced` | src/core/server.cpp:106-134 | a non-empty queue implies a byte in the pipe, a producer about to write one, or the consumer on its way to the splice |
| `EventQueue.WaitReturnsSome` | src/core/server.cpp:137-156 | a waiting call cannot return without an event, signals apart, if and only if when its first flush found nothing the pipe was empty and no producer was between push and write |
| `EventQueue.WaitEnds` | src/core/server.cpp:137-156 | from there on the call takes no more steps than there are bytes in the pipe or written meanwhile, and three, and always has one to take unless select waits for a byte |
| `EventQueue.WaitMayReturnNothing` | src/core/server.cpp:137-156 | there is a run in which that is not so, against the comment that it waits for at least one event |
| `EventQueue.FlushEnds` | src/core/server.cpp:118-134 | a flush never blocks, whatever the producers do: it takes at most two steps more than there are bytes in the pipe or written meanwhile, always has one to take, and ends with every event that was queued when it began |
| `EventQueue.FlushTakesAll` | src/core/server.cpp:127-133 | it ends with exactly the queue at its splice, which is empty then, be there events or none |
| `EventQueue.WaitTakesQueued` | src/core/server.cpp:137-143 | a waiting call behaves likewise when there are events |
| `EventQueue.WaitGoesOn` | src/core/server.cpp:145-155 | a waiting call that finds nothing waits, and returns an event that is then pushed and announced |
| `EventQueue.SignalEndsWait` | src/core/server.cpp:153-155 | a signal ends the wait with nothing |
| `DecoderPref.Preference.LookUp` | src/audio/decoder.cpp:401-418 | the first decoder whose name matches without regard to case, or the number of decoders |
| `DecoderPref.Preference.IsListed` | src/audio/decoder.cpp:495-514 | true exactly for the listed decoders |
| `DecoderPref.Preference.LoadEach` | src/audio/decoder.cpp:517-541 | an unknown or already listed decoder is dropped, any other appended |
| `DecoderPref.Preference.LoadNames` | src/audio/decoder.cpp:556-567 | the list holds the known decoders at their first mention, and the place of the first asterisk |
| `DecoderPref.Preference.FindOthers` | src/audio/decoder.cpp:577-583 | all decoders not listed, in index order |
| `DecoderPref.Preference.Splice` | src/audio/decoder.cpp:586-590 | the others stand at the asterisk and what was there is rotated behind them |
| `DecoderPref.Preference.LoadDecoders` | src/audio/decoder.cpp:544-593 | the list is the specified one for all tokens |
| `DecoderPref.EveryDecoderOnce` | src/audio/decoder.cpp:544-593 | with an asterisk the list names every decoder exactly once |
| `DecoderPref.PreferredLayout` | src/audio/decoder.cpp:576-590 | first the names before the asterisk, then all others by index, then the names after it, turned cyclically by the number of the others: unchanged if and only if there are none or that number is a multiple of theirs |
| `DecoderPref.OrderIsLost` | src/audio/decoder.cpp:576-590 | for any three decoders: when the second and the third are named in this order after an asterisk, they change places |
| `DecoderPref.KnownMentions` | src/audio/decoder.cpp:517-567 | the decoders listed are exactly those of the first mentions, in the order of the tokens |
| `DecoderPref.FirstAsterisk` | src/audio/decoder.cpp:556-567 | the first asterisk counts, behind all decoders named before it; without one only those named are listed |
| `DecoderPref.CaseOnly` | src/audio/decoder.cpp:401-418 | names are compared without regard to the case of ASCII letters, and of nothing else |
| `Paths.Reader.ReadLine` | src/library/files.cpp:611-639 | the loop over chunks computes the specified line for every text, NUL characters and missing newlines included |
| `Paths.WholeLine` | src/library/files.cpp:618-630 | however long a line is, the 255-character chunks make the whole of it |
| `Paths.LastLine` | src/library/files.cpp:618-630 | the last line may end without a newline |
| `Paths.ResolvePath` | src/library/files.cpp:270-342 | the loop over the buffer computes the specified path, or gives up when it is too long |
| `Paths.NormalStays` | src/library/files.cpp:270-342 | resolving a normalised absolute path of at most 4096 characters changes nothing |
| `Paths.ResolvesToNormal` | src/library/files.cpp:270-342 | without a .. component, whatever empty and . components the base and the path have, the result is a normalised path or the root |
| `Paths.ResolveIs` | src/library/files.cpp:270-342 | the result is the components that are left after taking out empty and . ones and letting each .. remove the one before it, with a doubled slash in front if a .. has reached the root and something is left |
| `Paths.NormalIff` | src/library/files.cpp:270-342 | the result is a normalised path or the root if and only if no .. has reached the root on the way or nothing is left, and there is one if and only if the paths together stay below 8190 characters |
| `Paths.ClimbingToTheRoot` | src/library/files.cpp:287-308 | for all names c and d: /c/.. gives the root, but /c/../d keeps a doubled slash |
| `Paths.EndsInSlash` | src/library/files.cpp:312-342 | the loop always ends with a slash, which is taken away; the dot that is looked for there is never found |
| `M3u.StripString` | src/library/playlist_file.cpp:65-83 | the blanks at the end go, but for the first character |
| `M3u.LoadInfo` | src/library/playlist_file.cpp:111-163 | an #EXTINF line: exactly when no other one is pending, the comma is there and what precedes it is empty or a number of at most nine characters, an item with the title and the time waits for its name; otherwise loading ends and a pending item goes; index and totals stay right |
| `M3u.LoadName` | src/library/playlist_file.cpp:164-196 | any other line: if it is not too long and its stripped and resolved path is not live, the waiting item gets the name or a new item is added; otherwise the waiting item goes; index and totals stay right |
| `M3u.LoadLine` | src/library/playlist_file.cpp:108-197 | one line of any kind, with SavePlaylistTags on or off; the waiting item is the last one and not in the index |
| `M3u.LoadM3u` | src/library/playlist_file.cpp:86-202 | the list after all lines is the specified one, and what is returned is the number of live items added, not counting one that still waits for its name |
| `M3u.SaveM3u` | src/library/playlist_file.cpp:466-555 | success is reported if and only if every print and the closing succeed, and then the text is the header if the option is on and, for each live item in order, the #EXTINF line if tags are saved and the name without the part to strip; reading past a name happens only if one is shorter than that part |
| `M3u.Save` | src/library/playlist_file.cpp:559-589 | with relative paths, the directory and the character behind it are stripped of every name if and only if all live names begin with the directory; success as above, for a file that can be opened |
| `M3u.StrippableIff` | src/library/playlist_file.cpp:561-588 | no name is read past its end if and only if not all live names begin with the directory or none is the directory itself |
| `M3uRoundTrip.ShownReadBack` | src/library/playlist_file.cpp:141-154 | strtol gives back every number that %d prints, and uses all of it |
| `M3uRoundTrip.FittingTimes` | src/library/playlist_file.cpp:134-148 | a printed time fits into the buffer if and only if it lies between -10^8 and 10^9, both excluded |
| `M3uRoundTrip.SaveLoadRoundTrip` | src/library/playlist_file.cpp:86-589 | for all options: saving a playlist and loading it into an empty one gives back the live files in order, with titles and times if they are both saved and loaded, if and only if every such time fits and, when paths are stripped, every name goes on behind the directory with a slash and no number sign; for distinct normalised absolute names of at most 4096 characters on one line without a blank at the end, and titles on one line |
| `M3uRoundTrip.StrippedReturns` | src/library/playlist_file.cpp:86-588 | loading the line of a name stripped of its directory gives the name, to a list without it, if and only if the name goes on behind the directory with a slash and no number sign |
| `M3uRoundTrip.RelativeToTheRoot` | src/library/playlist_file.cpp:561-588 | no name below the root directory is given back by the line that it is saved as when paths are relative to the root |
| `M3uRoundTrip.NumberSignIsLost` | src/library/playlist_file.cpp:561-588 | for every directory and every name that begins with a number sign: such a file saved alone with a relative path is a comment, and nothing is loaded |
| `M3uRoundTrip.TotalsBack` | src/library/playlist_file.cpp:506-523 | the loaded list has as many live items and the same total time, but as many items with a known time if and only if every live item has tags: without them the time 0 is saved |
| `M3uLines.LoadsLikeCat` | src/library/playlist_file.cpp:86-202 | for every text and list: loading without tags is joining the files that its lines name, each that is not there yet last, in order, once; only a name that cannot be resolved ends it |
| `M3uLines.LoadsNames` | src/library/playlist_file.cpp:86-202 | for every text and list, with tags or without, loading to the end adds the names of the lines and no others, and loses none |
| `M3uLines.InfoIff` | src/library/playlist_file.cpp:111-163 | an #EXTINF line makes an item wait for its name exactly when none waits and a comma stands behind a number or nothing of at most nine characters; it has that title and time, and any other such line ends the loading |
| `M3uLines.NumberRead` | src/library/playlist_file.cpp:134-154 | a time may stand behind spaces and a sign |
| `M3uLines.BlanksAtTheEnd` | src/library/playlist_file.cpp:65-83 | spaces and tabs behind a name do not matter, and nothing else is taken away |
| `M3uLines.RestoredItem` | src/library/playlist_file.cpp:504-518 | an item comes back with its file, and with tags with the title of its tags, or else that of its file, and its time, which is 0 without tags |
| `M3uLines.RestoredInOrder` | src/library/playlist_file.cpp:497-536 | what comes back are the live items and no others, in order |

## Left out

- Md5: md5_stream, which reads a file around the same calls, and big-endian machines.
- Plist.Plist.SortFname: names that the locale compares as equal count as the same name; the order itself is any strict order.
- Plist: titles made from file names or formats, file types and modification times of items, and the PLS loader, which sets times without updating the totals.
- Audio: the Repeat-one branch is modelled, but runs are stated for the next and previous paths only; that branch may keep a position that belonged to another list.
- AudioEngine: curr_plist is a name for one of the three lists rather than a pointer; the mutexes, which each operation holds throughout, and the notices to the interface.
- AudioRuns.QueueErased: is stated with QueueNextSongReturn on; without it the run goes on after the last queued file when the playlist has that file.
- OutBuf: playing times, hardware buffer levels, and drivers that report errors while playing.
- Player: conversion of sound, equaliser and mixers between decoder and buffer; bitrates, tags and times shown; opening and closing the device is one step, which the code ensures only when no pause falls into a switch of parameters.
- Player: how precache_thread collects its bytes; they enter as any bytes of one set of parameters.
- TagsCache: failing database operations, locking, the version file and the request queue.
- TagsCache.Cache.ReadAdd: a file's modification time is taken to stay the same during one call; nothing is claimed of what a read past a damaged record gives.
- Adts: decoding of frames, tags and seeking.
- Menu: drawing, attributes, columns and filtering.
- EventQueue: what the events carry and the interface's own waiting on the pipe.
- DecoderPref: splitting the option's text into tokens, and the choice of a decoder for a file by MIME type, extension or content.
- M3u.Save: takes the directory from dirname as it is.
- M3u: titles made when an item has none, the lock on the file and the PLS format.
- Paths.ResolveIs: is stated for bases that are the root, a normalised path, or begin with a name; for others a .. can apply to the base before any of it was copied; so is Paths.NormalIff.
- Paths: a file is a text that is read to its end; read errors are taken for the end.
- Floating-point code, device back ends, codec libraries, ncurses, options, logging and signals.
