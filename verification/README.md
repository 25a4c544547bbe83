# Carrier Native SDK: a model in Dafny

This project models the parts of the Carrier Native SDK whose correctness is not visible from any one
function, and proves what those parts are for. Each component is a module of its own:

| files | component |
|---|---|
| `Endpoint`, `Protocol`, `Reuse`, `Recycling`, `Departure`, `Service`, `Multiplexer` | the channel multiplexer: what one endpoint does, two endpoints with a FIFO link each way, when an id may be handed out again, what becomes of a channel whose partner has left, what answers and callbacks mean to the applications, and the handler object with reference counts, channel ids, sockets and watched descriptors |
| `FlexBuffer`, `Framing` | the flexible buffer, and frames cut out of a byte stream |
| `Crypto` | headroom and lengths through the crypto handler |
| `Md5Word`, `Md5Spec`, `Md5Schedule`, `Md5Streaming`, `Md5` | MD5 as RFC 1321 defines it, the unrolled and streaming form of the program, and their equality |
| `Image`, `Store`, `Labels`, `LabelArea`, `Convert` | the data file: layout, crash-safe replacement through a journal, friend labels, and the conversion of the old format in place |
| `Fragmentation`, `Invite`, `Response` | invites and replies: fragments, reassembly, transactions with expiry |
| `FileSlots`, `Requests`, `Transfer` | the slot table of a file transfer, what its requests, packets and announcements do, and the resumable transfer of one file |
| `Dispatch` | session requests dispatched by the longest registered bundle prefix |
| `Wrappers` | `Option`, bytes and a few functions on them |

`dafny verify dfyconfig.toml` checks everything. Nothing was executed.

## How the model is built

Where the C code changes state in place, the model is a class whose methods do the same steps
(`MultiplexHandler`, `FlexBuffer`, `Receiver`, `Context`, `TransactedAssembly`, `InviteReceiver`,
`ResponseReceiver`, `FileTransfer`, `SessionExtension`, `FileSender`, `FileReceiver`) or a method over an
array. Each is proved equal to a function on values, and the properties of whole runs are proved about
that function. One API call or one received packet is one step. What the surroundings decide becomes a
parameter: whether a send succeeds (`sendOk`, `accepted`, `rc`), which id a heap hands out (`alloc`),
what a callback answers (`accept`), which entries are overdue (`expired`), the order in which a hash
table is walked (`order`). The hash of the data file, the box cipher and the DHT are parameters too.

## Findings

* **Channel ids have to rest.** `ids_heap_alloc` may hand out an id that a channel of the peer, or a frame
  under way, still takes for its previous owner; data then reaches the wrong channel
  (`Recycling.RecyclingBreaksPairing`). Exactly: opening or accepting a channel under a free id keeps the
  channels paired and every frame with the channel it was meant for, in all continuations that hand out no
  claimed id, iff nobody claims the id (`Reuse.OpeningIsSafeIffUnclaimed`, `Reuse.AcceptingIsSafeIffUnclaimed`). It is claimed
  while a channel of the peer is bound to it, a frame is on its way to it, or a request, or a confirmation
  somebody waits for, is on its way from it; other old frames do no harm, nor does a confirmation to an id
  under which a request is accepted, because an accepted channel waits for none. The condition spans both ends, so
  no end can check it alone. What an end can do alone is never to hand out an id twice, and that suffices
  (`Reuse.FreshRunsArePrudent`). The results of `Protocol` assume only that no claimed id is handed out.
* **A request may stay without answer.** The receiving end leaves the opener waiting iff it does not know the
  kind of channel, has no memory for it, has no id left, or cannot send the confirmation
  (`Protocol.StrandsOpenerIff`): the first two are ignored silently, and for the third the refusal is
  addressed to channel 0, because `ch->remote_id` is not yet set (multiplex_handler.c:402-441). Nothing but
  its own end ever releases such a channel (`Protocol.StrandedForEver`).
* **A partner may leave without a word.** No Close frame is sent when all channels are closed, when data is
  refused, when the frame cannot be sent, or when a channel is closed before it was confirmed; and a request
  whose opener has gone is accepted all the same. In every run these are exactly the causes for which a channel
  stays bound to nobody with no Close frame on its way (`Departure.AbandonedIff`), and it stays so until it
  leaves its table (`Departure.AbandonedForEver`).
* **Frames above 2168 bytes of payload** do not fit the reassembly buffer. All cuts of a stream work iff
  no payload is longer (`Framing.AllChunkingsWorkIff`).
* **Data sections above 16 MiB** can be stored but not loaded (`Image.LoadsBackIff`), and a finished store of
  such a value has removed the old one too: a process that has loaded replaces its data safely iff the new value
  can be loaded or there is no old one (`Store.AtomicAfterLoadingIff`, `Store.BothAreLost`).
* **Storing before loading loses data.** A store leaves the old value or the new one in every run iff the
  journal holds no value of its own (nothing valid, or what the main file has too, or the main file already has
  the new value) and the above holds (`Store.AtomicIff`). The program loads first.
* **A label cut off at the end of the old file** may not fit. The file size recomputed by the conversion is within
  the buffer iff it is not the case that the old labels took 191 bytes modulo 256 and the converted ones take one
  byte more (`Convert.ConvertedFitsIff`, `Convert.CutOffLabelOutgrows`).
* **A packet without an extension name** passes the extension check of any assembly, and the name in the
  last packet decides who is called (`Fragmentation.ExtensionCheckedIffNamed`,
  `Fragmentation.NamelessPacketChangesAddressee`).
* **An expired invite may stay silent.** `tcb->friend_number`, by which the expiry finds the friend to
  report, is never assigned (ela_carrier.c:3018-3038); the lookup's result is a parameter here and both
  outcomes are covered. A callback can also come before `ela_invite_friend` returns -1
  (`Response.CallbackThenFailure`), but not after; it has come, or was dropped, exactly when the failing
  call finds nothing to take back (`Response.ConcludedBeforeReturnIff`).
* **Removing a prefix that is not registered** inserts an entry without callback that hides shorter
  prefixes (`Dispatch.RemovalThatHides`); exactly when this matters is `Dispatch.LongestPrefixIff`.
* **A file id announced twice** spoils the slot table: an event keeps every live slot found and channels and
  slots in correspondence iff it does not give a file id that is in use a second slot or a second channel
  (`FileSlots.OrderIsKeptIff`). A file that
  has a channel and is announced again leaves that channel without a slot, and its slot is hidden as well
  iff an earlier slot kept the new channel's number (`FileSlots.AnnouncedAgain`,
  `FileSlots.SecondAnnouncementHidesSlot`).
* **A file that was closed is refused** when it is announced again, although its id is no longer in use and slots
  are free, because a freed slot keeps its file id (`FileSlots.ClosedFileIsRefused`). An announcement is taken iff
  a live slot waits for the file, or no slot remembers its id and one is free (`FileSlots.AnnouncementTakenIff`);
  a slot forgets its file only when it goes to a file that no slot remembers (`FileSlots.ForgottenIff`).
* **A partial file is never compared** with the source: the result is right iff it was a prefix
  (`Transfer.ExactIffPrefix`). One that is complete but was not renamed is refused, so the transfer never
  completes (`Transfer.StoppedRunCompletesIff`).

## Model

| member | source | states |
|---|---|---|
| Protocol.Pairing | src/session/multiplex_handler.c:398-526 | in every run a channel with a remote id has that id to itself, one of the two channels was accepted for the other, and the peer's channel, if it is still there, points back or is about to: the confirmation that names the channel is in flight |
| Protocol.NoDataIgnored | src/session/multiplex_handler.c:516-533 | in every run a Data frame for a channel in the table finds it Open or Pending, comes from its partner and is handed to its callback |
| Protocol.DeliveredIsPrefixOfWritten | src/session/multiplex_handler.c:746-785 | in every run what a bound channel got, followed by what is in flight to it, is all that its partner wrote with success, in order; nothing is lost, doubled or mixed up |
| Protocol.FlowControlAgrees | src/session/multiplex_handler.c:533-559 | in every run, when the link to it is drained, a bound channel is Pending iff the last pend or resume of its partner that succeeded was a pend |
| Protocol.InvStep | src/session/multiplex_handler.c:358-574 | every API call and every received packet at either end keeps the invariant of both tables and both links, provided nobody claims a new id |
| Protocol.RunsMirror | src/session/multiplex_handler.c:358-574 | the two ends play the same role, so the results above hold of both |
| Reuse.OpeningIsSafeIffUnclaimed | src/session/multiplex_handler.c:643-718 | after opening a channel under a free id, in all continuations that hand out no claimed id channels stay paired and frames reach only the channel they were meant for, iff nobody claims the id |
| Reuse.AcceptingIsSafeIffUnclaimed | src/session/multiplex_handler.c:426-492 | the same for accepting the peer's request under a free id; a confirmation on its way to the id is then no claim, since an accepted channel ignores it |
| Reuse.FreshRunsArePrudent | src/session/multiplex_handler.c:349-355 | a run in which each end never hands out an id twice is one in which no claimed id is handed out, so that all results on runs hold of it |
| Protocol.StrandsOpenerIff | src/session/multiplex_handler.c:398-492 | the opener's channel is left Opening with nothing in the system that refers to it iff the kind of channel is unknown, memory or ids are exhausted, or the confirmation cannot be sent |
| Protocol.StrandedForEver | src/session/multiplex_handler.c:398-492 | such a channel stays Opening in every further step, until its own end closes it |
| Departure.AbandonedIff | src/session/multiplex_handler.c:720-744 | in every run a channel is bound to one that has gone, with no Close frame on its way to it, iff since it got its id it was accepted after its opener had gone, or its partner left silently |
| Departure.PartnersStepIff | src/session/multiplex_handler.c:516-526 | in one step of the peer a channel is abandoned iff it was before, or its partner leaves by closing all channels, by refusing data, or by closing when no Close frame can be sent: before its confirmation, or when the send fails |
| Departure.OwnStepIff | src/session/multiplex_handler.c:398-492 | in one step of its own end a channel is abandoned iff it was before, or it is accepted for an opener that has gone |
| Departure.ClosesStep | src/session/multiplex_handler.c:720-744 | a Close frame that will reach a channel always comes from a partner that has left |
| Departure.AbandonedForEver | src/session/multiplex_handler.c:516-526 | an abandoned channel is never told and never gets another partner: it stays abandoned until it leaves its table |
| Service.SendingAnswer | src/session/multiplex_handler.c:746-857 | write, pend and resume succeed iff the channel, of whatever kind, is confirmed and Open or Pending and the frame can be sent; success means exactly one frame of that type, to the remote id, with the whole payload, and failure none |
| Service.RawAnswer | src/session/multiplex_handler.c:746-785 | what is written to channel 0 arrives outside any channel |
| Service.OpeningAnswer | src/session/multiplex_handler.c:643-718 | opening succeeds iff there is an id and the request can be sent; otherwise nothing has changed |
| Service.ClosingAnswer | src/session/multiplex_handler.c:720-744 | closing removes the channel, tells its owner once, and its partner if it is confirmed and the frame can be sent |
| Service.RequestIsHeard | src/session/multiplex_handler.c:398-492 | the request one end sends is heard at the other with its cookie and as one of its kind, and is answered with the new id or a refusal |
| Service.ReasonTells | src/session/multiplex_handler.c:516-574 | a channel ends normally by a close of its owner or its partner, and with an error for every other cause |
| Service.CallbacksTellAll | src/session/multiplex_handler.c:358-641 | whatever a step does, its callbacks make sense in their order, and an application that follows them and its own answers knows exactly the channels and their status afterwards |
| Service.ApplicationKnows | src/session/multiplex_handler.c:358-857 | so it does in every run, whatever ids are handed out |
| Service.PartnersAreAlike | src/session/multiplex_handler.c:398-426 | in every run two channels bound to each other are of the same kind |
| Recycling.RecyclingBreaksPairing | src/session/multiplex_handler.c:349-355 | a run of eight steps with an id handed out again too early, after which two channels of one end are bound to the same channel of the other and a payload has reached the wrong one |
| Multiplexer.MultiplexHandler.NotifyPacket | src/session/multiplex_handler.c:358-574 | for every packet and whatever fails: the ids taken stay the keys of the table, every socket keeps one owner, and table, replies and callbacks change as Endpoint.Receive says |
| Multiplexer.MultiplexHandler.OpenChannel | src/session/multiplex_handler.c:643-718 | opening sends one request under the new id, or takes back id and channel when the send fails; no socket is lost |
| Multiplexer.MultiplexHandler.CloseChannel | src/session/multiplex_handler.c:720-744 | closing tells the peer if there is one, calls back once, returns the id and closes the channel's socket |
| Multiplexer.MultiplexHandler.WriteChannel | src/session/multiplex_handler.c:746-785 | writing needs a confirmed channel that is Open or Pending; success means that one Data frame with the whole payload went to its remote id, failure that nothing was sent; the reference is given back on every path |
| Multiplexer.MultiplexHandler.SendOn | src/session/multiplex_handler.c:787-857 | on a confirmed channel of any kind pend and resume succeed iff their frame can be sent, and then exactly that frame went to the remote id; they fail otherwise, and leave table and references as they were |
| Multiplexer.MultiplexHandler.HandleOpen | src/session/multiplex_handler.c:398-492 | a request gets a channel and a confirmation, or a refusal and no channel, no id and no socket, whichever of callback and send fails |
| Multiplexer.MultiplexHandler.HandleConfirmation | src/session/multiplex_handler.c:494-514 | a confirmation counts only for an opening channel: it binds and opens it, or closes it and returns its id |
| Multiplexer.MultiplexHandler.HandleData | src/session/multiplex_handler.c:516-531 | data go to the callback of a channel that is not opening; a failed callback closes the channel once |
| Multiplexer.MultiplexHandler.HandleFlow | src/session/multiplex_handler.c:533-565 | pend, resume and close act on the channel in the right status only, and sockets are watched accordingly |
| Multiplexer.MultiplexHandler.CloseChannels | src/session/multiplex_handler.c:618-641 | every channel of the table is closed exactly once with the given reason; afterwards the table is empty and all ids are returned |
| Multiplexer.MultiplexHandler.Deref | src/session/multiplex_handler.c:349-355 | the id goes back to the heap exactly when the last reference to its channel is dropped |
| Multiplexer.MultiplexHandler.NotifyOpen | src/session/portforwarding.c:49-106 | an accepted TCP channel owns the newly connected socket, a refused one leaves none behind |
| Multiplexer.MultiplexHandler.SetStatus | src/session/portforwarding.c:108-121 | the socket of a TCP channel is watched exactly while the channel is Open, across opened, pending and resume |
| Multiplexer.MultiplexHandler.NotifyClose | src/session/portforwarding.c:129-152 | closing a TCP channel stops watching its socket and closes it, once |
| Multiplexer.MultiplexHandler.HandleAccept | src/session/portforwarding.c:253-276 | a socket accepted on a listening port is owned by the channel opened for it, or closed when that fails |
| Multiplexer.MultiplexHandler.OpenPortForwarding | src/session/portforwarding.c:425-476 | a listening socket is registered under its new id and watched, or closed on every failure |
| Multiplexer.MultiplexHandler.ClosePortForwarding | src/session/portforwarding.c:478-498 | the listening socket is no longer watched and closed once; an unknown id changes nothing |
| Multiplexer.SocketOwnership | src/session/portforwarding.c:49-146 | between two calls a socket is open iff one port forwarding or one TCP channel owns it, never two, and it is watched iff it listens or its channel is Open |
| FlexBuffers.FlexBuffer.ForwardOffset | src/session/flex_buffer.h:163-175 | moves the offset within the capacity and drops the first bytes of the data; more bytes than there are make the size wrap around |
| FlexBuffers.FlexBuffer.BackwardOffset | src/session/flex_buffer.h:177-187 | extends the data backwards over as much room as there is and keeps what was there behind it |
| FlexBuffers.FlexBuffer.Append2 | src/session/flex_buffer.h:211-220 | appends the bytes at the other buffer's data pointer, as many as asked for and as there is room for, and no more |
| FlexBuffers.FlexBuffer.Append | src/session/flex_buffer.h:200-209 | appends the other buffer's data as far as there is room |
| Framing.DecodeEncode | src/session/multiplex_handler.c:258-294 | a frame is read back from its encoding, whose header gives its length |
| Framing.Layout | src/session/multiplex_handler.c:41-52 | the bytes of a frame: type, option, both ids and the length in network order, payload |
| Framing.ParseEncodeAll | src/session/multiplex_handler.c:576-616 | parsing the encodings of any frames yields those frames in order and keeps nothing |
| Framing.ParseSplit | src/session/multiplex_handler.c:576-616 | parsing a stream in two parts, with what the first part kept put before the second, is parsing it whole |
| Framing.FeedIsParse | src/session/multiplex_handler.c:576-616 | as long as frames fit the buffer, feeding any chunks hands over and keeps what parsing the whole stream does; nothing is truncated |
| Framing.ChunkingDoesNotMatter | src/session/multiplex_handler.c:576-616 | frames with payloads up to 2168 bytes come out exactly and in order however the stream is cut, and nothing is left |
| Framing.AllChunkingsWorkIff | src/session/flex_buffer.h:46-47 | every way to cut the stream works iff no payload is above 2168 bytes |
| Framing.Receiver.NotifyData | src/session/multiplex_handler.c:576-616 | the loop over the real buffers terminates, hands over exactly the frames that Pump defines and keeps exactly the unconsumed bytes, truncation included |
| Framing.Receiver.NotifyPacket | src/session/multiplex_handler.c:358-396 | the frame held is handed over only if it is complete, decoded from its header |
| CryptoHandler.Write | src/session/crypto_handler.c:38-80 | the sealed bytes end exactly where the new buffer ends, the plain buffer is as it was, and no offset assertion fails |
| CryptoHandler.OnRxData | src/session/crypto_handler.c:82-120 | the opened bytes end exactly where the new buffer ends, with the input buffer as it was |
| CryptoHandler.Loopback | src/session/crypto_handler.c:38-120 | what is written is received again unchanged, with headroom for the next handler |
| Md5Schedule.Unrolled | apps/speedtest/md5.c:203-277 | the 64 written-out steps with rotating registers equal the table-driven operations of section 3.4 of RFC 1321 |
| Md5Schedule.SameOperations | apps/speedtest/md5.c:184-196 | word functions that agree everywhere give the same 64 operations |
| Md5Digest.ReducedF1 | apps/speedtest/md5.c:188-189 | the optimized F1 is the function F of RFC 1321 |
| Md5Digest.ReducedF2 | apps/speedtest/md5.c:190-190 | F2, defined through F1, is the function G of RFC 1321 |
| Md5Digest.StepIsUpdate | apps/speedtest/md5.c:194-196 | one step is the addition and rotation of section 3.4 of RFC 1321, modulo 2^32 |
| Md5Digest.Transform | apps/speedtest/md5.c:203-283 | the unrolled block function is the one made of the program's word functions, and for all states and blocks that of RFC 1321 |
| Md5Digest.SourceFold | apps/speedtest/md5.c:184-283 | absorbing any blocks with the program's block function gives the registers of section 3.4 of RFC 1321 |
| Md5Streaming.Carry | apps/speedtest/md5.c:99-104 | the two counter words hold eight times the total length modulo 2^64 after every update, carry and len >> 29 included |
| Md5Streaming.Position | apps/speedtest/md5.c:106-106 | the low counter word gives the number of bytes waiting in the block buffer |
| Md5Streaming.CounterBytes | apps/speedtest/md5.c:175-176 | the two counter words written low byte first are the 64-bit length of section 3.2 of RFC 1321 |
| Md5Streaming.Context.Update | apps/speedtest/md5.c:96-137 | the state is the fold of the block function over the complete blocks of everything absorbed so far, and the buffer holds the rest |
| Md5Streaming.Context.CountBits | apps/speedtest/md5.c:99-104 | counting a chunk keeps the two words equal to eight times the total length |
| Md5Streaming.Context.Final | apps/speedtest/md5.c:143-182 | both cases of the padding yield the fold over the padded message, and the whole context is cleared |
| Md5Streaming.Consume | apps/speedtest/md5.c:82-182 | for every cut of a message into updates the result is the fold over the blocks of the padded message |
| Md5Digest.Stream | apps/speedtest/md5.c:82-182 | for every cut of a message into updates the context, absorbing with the program's block function, yields the digest sections 3.1 to 3.5 of RFC 1321 define |
| Md5Digest.FileMd5 | apps/speedtest/md5.c:288-318 | whatever sizes the reads have, 32 characters that spell the sixteen bytes of the digest of the file in hexadecimal, or failure for a missing file or a short buffer |
| Md5Digest.HexMeans | apps/speedtest/md5.c:311-314 | two upper-case hexadecimal digits for each byte, the high one first, by the codes of the characters |
| Md5Spec.InitialBytes | apps/speedtest/md5.c:82-91 | the registers begin with the sixteen bytes that section 3.3 of RFC 1321 lists, and are written low-order byte first |
| Md5Spec.WordOrder | apps/speedtest/md5.c:203-210 | a block is sixteen words in order, each read low-order byte first |
| Md5Word.RotateIsRotation | apps/speedtest/md5.c:194-196 | the two shifts are a rotation to the left for every distance that occurs |
| Image.Round256Bounds | src/carrier/ela_carrier.c:427-427 | rounding leaves between 65 and 320 bytes behind the data, gives multiples of 256 and is monotone |
| Image.LoadsBackIff | src/carrier/ela_carrier.c:602-706 | a stored image loads back to what was stored iff no section is above 16 MiB |
| Image.LoadedIff | src/carrier/ela_carrier.c:602-699 | any file is loaded, and as v, iff it has the magic and revision bytes, the lengths and the size of v, sections of at most 16 MiB, a stored hash equal to the hash of all that follows the header, and the sections of v |
| Image.DamagedIsRefused | src/carrier/ela_carrier.c:686-691 | a file with header and size of an image, whose body has another hash, is refused |
| Image.ForeignIsRefused | src/carrier/ela_carrier.c:618-636 | so is one with another magic number or revision |
| Image.PrefixRejected | src/carrier/ela_carrier.c:648-667 | no strict prefix of an image is ever accepted, since the header fixes the file size |
| Store.InvStep | src/carrier/ela_carrier.c:709-774 | every step of storing and loading, and a crash at any of them, keeps the committed value recoverable |
| Store.RecoversCommitted | src/carrier/ela_carrier.c:709-774 | after any stores, loads and crashes a load yields the committed value, and a finished load has it in the main file |
| Store.OnlyGoodJournalIsPromoted | src/carrier/ela_carrier.c:709-774 | loading and crashing, as often as it may be, leave both files alone or move a journal that can be loaded into the place of the main file |
| Store.BadJournalIsIgnored | src/carrier/ela_carrier.c:752-767 | a journal that is cut short, damaged or foreign never becomes the main file and never hides it |
| Store.OnlyStoresCommit | src/carrier/ela_carrier.c:980-1002 | only a store changes what is committed: to its own value when fsync returns at the latest, or, if that cannot be loaded, to nothing when the main file is removed |
| Store.StoreIsAtomic | src/carrier/ela_carrier.c:980-1002 | storing v, cut short anywhere and followed by any cut-short or finished loads, leaves the old value or what loading makes of v: v itself, or nothing if it is too large; the latter once the main file was removed, and already once fsync has returned if v can be loaded |
| Store.AtomicIff | src/carrier/ela_carrier.c:980-1002 | a store begun on any disk leaves the old value or the new one in every run iff the journal held no value of its own, or the main file already had the new one, and the new value can be loaded or there is no old one |
| Store.AtomicAfterLoadingIff | src/carrier/ela_carrier.c:980-1002 | after any run a process that has loaded replaces the value atomically iff no section of the new one is above 16 MiB or there is no old value |
| Store.BothAreLost | src/carrier/ela_carrier.c:648-661 | a run in which a finished store of a value above 16 MiB leaves neither it nor the old value |
| Labels.ExtraSize | src/carrier/ela_carrier.c:855-877 | the size computed beforehand is the number of bytes of all entries |
| Labels.NothingLeftOut | src/carrier/ela_carrier.c:879-913 | all labelled friends are written iff there is room for the computed size, so the early break is not taken |
| Labels.FittingIsFront | src/carrier/ela_carrier.c:879-913 | when room is short the first entries are written, up to the first one that does not fit |
| Labels.WriteExtra | src/carrier/ela_carrier.c:879-913 | the entries that fit are written at the given place and not a byte elsewhere |
| Labels.BuildImage | src/carrier/ela_carrier.c:921-978 | the fields, sections, labels and hash written one by one make exactly the image of the value |
| LabelArea.ApplyExtra | src/carrier/ela_carrier.c:776-803 | for any bytes followed by the zeros of a section: the loop ends, never reads behind the section, and applies the entries up to the end of the data or the first without a label |
| LabelArea.WalkRestores | src/carrier/ela_carrier.c:776-803 | an area that holds the entries of friends is consumed exactly, and the labels of the friends that are still there are restored |
| LabelArea.EmptyLabelEnds | src/carrier/ela_carrier.c:776-803 | an entry without label ends the reading: the entries before it count, whatever follows does not |
| LabelArea.ReadEntry | src/carrier/ela_carrier.c:785-792 | an entry is a number and the bytes up to the next zero, whatever they are |
| LabelArea.RestoreMeans | src/carrier/ela_carrier.c:776-803 | every known friend with a stored label has it afterwards, and nobody else changes |
| LabelArea.SaveAndLoad | src/carrier/ela_carrier.c:855-913 | sizing, writing and reading the labels of any friend table gives every friend its label back |
| LabelArea.FileRoundTrip | src/carrier/ela_carrier.c:602-699 | the DHT data and the labels of all friends come back from the file they were stored in, the labels in an area from which reading restores them |
| Convert.ConvertedFitsIff | src/carrier/ela_carrier.c:470-547 | for every area the conversion accepts, the recomputed file size is within the buffer allocated for the old data iff the old labels did not take 191 bytes modulo 256 while the converted ones take one byte more; it always is when every label ends within the old data |
| Convert.CutOffLabelOutgrows | src/carrier/ela_carrier.c:470-547 | one label of 187 bytes without its terminator, in an old file with 191 bytes of labels, makes the recomputed section 512 bytes where 256 were allocated |
| Convert.MoveId | src/carrier/ela_carrier.c:522-532 | the friend number is turned to network order although source and destination overlap |
| Convert.MoveText | src/carrier/ela_carrier.c:533-533 | the label is moved whole although source and destination overlap |
| Convert.MoveEntry | src/carrier/ela_carrier.c:530-535 | an entry moved onto itself or forwards arrives whole, in network order, and nothing else changes |
| Convert.ConvertLabels | src/carrier/ela_carrier.c:517-539 | for any bytes in which the announced number of strings ends within the buffer: the loop in one buffer leaves the serialization of the labelled entries in order, zeros behind it, and everything else untouched; unread input is never overwritten |
| Convert.OldEntriesAreFriends | src/carrier/ela_carrier.c:521-536 | any such bytes are the old entries of as many friends, with or without labels |
| Convert.ConvertThenRead | src/carrier/ela_carrier.c:509-547 | reading the converted area restores exactly the labels of the old area |
| Convert.ByteOrders | src/carrier/ela_carrier.c:509-531 | the old files have their numbers low-order byte first, the data file has them in network order |
| Fragmentation.Send | src/carrier/ela_carrier.c:2975-3051 | the loop sends the first packet with bundle and total, then full units, until the data are out or a send fails |
| Fragmentation.PacketsFit | src/carrier/ela_carrier.c:2975-3051 | the first packet carries bundle and total; no packet holds more than 1280 bytes of bundle and data, none but the last holds less, and none is empty |
| Fragmentation.CarriedIsDelivered | src/carrier/ela_carrier.c:1713-1798 | the packets of a message in order, with strays from other friends or for other extensions between the first and the last, deliver the message with the last packet, once, and nothing before |
| Fragmentation.CollectPackets | src/carrier/ela_carrier.c:1713-1798 | so do the packets of a message alone |
| Fragmentation.AbsorbKeepsUnfinished | src/carrier/ela_carrier.c:1906-1932 | a stored assembly always waits for more data and is at most 8192 bytes long |
| Fragmentation.StrangersAreIgnored | src/carrier/ela_carrier.c:1765-1771 | a packet from another friend leaves the assembly as it is |
| Fragmentation.TakenIff | src/carrier/ela_carrier.c:1758-1789 | a packet is taken iff it comes from the friend, names the extension or none, has at most 1280 bytes, some if it is a request, and does not exceed the announced length; then it extends the data, or delivers all of them if they are complete |
| Fragmentation.BegunIff | src/carrier/ela_carrier.c:1713-1756 | a packet without assembly begins one iff it announces at most 8192 bytes, and some if it is a request |
| Fragmentation.ExtensionCheckedIffNamed | src/carrier/ela_carrier.c:1765-1771 | an otherwise fitting packet is taken iff it names the right extension or none |
| Fragmentation.NamelessPacketChangesAddressee | src/carrier/ela_carrier.c:1765-1789 | an invitation to a session whose last packet has no name is delivered as one without extension |
| Fragmentation.TransactedAssembly.Append | src/carrier/ela_carrier.c:1773-1774 | the payload is copied behind what the buffer holds |
| Fragmentation.Take | src/carrier/ela_carrier.c:1765-1776 | a packet is copied iff it fits the assembly in friend, extension and length, and delivers iff that completes it |
| Fragmentation.Assemble | src/carrier/ela_carrier.c:1713-1798 | the handlers' work on the table of assemblies is what Absorb says for this transaction and nothing for others |
| Fragmentation.CheckAssemblies | src/carrier/ela_carrier.c:1581-1601 | exactly the overdue assemblies leave the table |
| Invite.InviteRoundTrip | src/carrier/ela_carrier.c:1683-1798 | whatever packets of other transactions, expiries of others, and strays under the same tid come in between, the packets of a transaction yield exactly one invitation with extension, data and bundle as sent if it names no extension or a session, and none if it names any other |
| Invite.NoInvitationWhileIncomplete | src/carrier/ela_carrier.c:1683-1798 | none comes out while a packet is missing, under the same interleavings |
| Invite.OnlyOwnPacketsMatter | src/carrier/ela_carrier.c:1713-1798 | a transaction ends up as if its packets had arrived alone |
| Invite.AssembliesBounded | src/carrier/ela_carrier.c:1717-1733 | in every reachable state each assembly waits for more and is at most 8192 bytes long |
| Invite.ExpiredIsNeverDelivered | src/carrier/ela_carrier.c:1581-1601 | an expired assembly is gone, others are not, and the rest of its message changes nothing |
| Invite.InviteReceiver.HandleInviteRequest | src/carrier/ela_carrier.c:1683-1798 | the handler changes table and invitations as Handle says, for every packet; what that means is InviteRoundTrip, TakenIff and BegunIff |
| Invite.InviteReceiver.ExpireAssemblies | src/carrier/ela_carrier.c:1581-1601 | overdue assemblies are dropped and nobody is called |
| Response.CallbackAtMostOnce | src/carrier/ela_carrier.c:1604-1648 | over every run a transaction is called back at most once, by its answer or its expiry but not both |
| Response.NoCallbackAfterFailure | src/carrier/ela_carrier.c:3017-3050 | over every run no callback comes after ela_invite_friend has returned -1 |
| Response.WaitingIffNotConcluded | src/carrier/ela_carrier.c:1837-1935 | over every run a transaction is still in the table iff it was neither answered nor expired nor failed |
| Response.OnlyRegisteredAreCalledBack | src/carrier/ela_carrier.c:1604-1622 | over every run only registered transactions are called back, and a timeout reports the bundle that was registered |
| Response.AssembliesBounded | src/carrier/ela_carrier.c:1861-1932 | over every run a stored response assembly has data_off < data_len <= 8192 |
| Response.ReplyRoundTrip | src/carrier/ela_carrier.c:1802-1935 | whatever happens to other transactions, and whatever strays come under the same tid in between, the packets of a reply call its callback once with status, data and bundle as sent |
| Response.CallbackThenFailure | src/carrier/ela_carrier.c:3017-3050 | a run in which the callback comes first and the failure is returned afterwards |
| Response.ConcludedBeforeReturnIff | src/carrier/ela_carrier.c:3041-3050 | in every run, while the last packet is being sent, the transaction was called back or dropped iff its callback is no longer in the table |
| Response.TickRemovesOverdue | src/carrier/ela_carrier.c:1624-1648 | one check removes exactly the overdue callbacks |
| Response.TimeoutIsReported | src/carrier/ela_carrier.c:1604-1648 | in every run an overdue transaction that still waits is called back once, with the bundle that was registered, iff its friend is found, and it was not called back before |
| Response.ExpiredIsNeverDelivered | src/carrier/ela_carrier.c:1581-1601 | an expired assembly of a reply is gone, the rest of the reply changes nothing, and the callback goes on waiting |
| Response.ResponseReceiver.HandleInviteResponse | src/carrier/ela_carrier.c:1802-1935 | the handler does what Step says for every packet: nothing without a callback, one call when the reply is complete |
| Response.ResponseReceiver.CheckCallbacks | src/carrier/ela_carrier.c:1624-1648 | the check walks the table and expires each overdue callback once |
| Response.ResponseReceiver.Expire | src/carrier/ela_carrier.c:1604-1648 | an overdue callback leaves the table and is called iff its friend is found |
| Response.ResponseReceiver.Expect | src/carrier/ela_carrier.c:3017-3039 | the callback is registered under the new tid before the last packet is sent |
| Response.ResponseReceiver.Return | src/carrier/ela_carrier.c:3041-3050 | when the last send fails the callback is taken back before -1 is returned |
| FileSlots.LiveSlotIsFound | src/filetransfer/filetransfer.h:119-153 | in every run without such announcements the slot of a live transfer is exactly what the searches by channel and by file id return, although freed slots keep old keys |
| FileSlots.ChannelsAreBoundSlots | src/filetransfer/filetransfer.c:480-553 | in every run the multiplexer's channels and the bound live slots correspond one to one |
| FileSlots.CloseFreesItsSlot | src/filetransfer/filetransfer.c:533-553 | in every run closing a channel frees its slot and leaves all others |
| FileSlots.DataReachesItsFile | src/filetransfer/filetransfer.c:555-640 | in every run what arrives on a channel is reported for the file bound to it, to a receiver only while it is transferring |
| FileSlots.PulledFileGetsItsData | src/filetransfer/filetransfer.c:1195-1458 | in every run a file that was pulled or resumed gets the data on its channel, and a pended one does not |
| FileSlots.ResumeUndoesPend | src/filetransfer/filetransfer.c:1365-1458 | resuming after pending leaves the slots as they were |
| FileSlots.PendUndoesPull | src/filetransfer/filetransfer.c:656-698 | at the sender a pend takes the slot back to where the pull found it |
| FileSlots.NamesAreFreed | src/filetransfer/filetransfer.h:167-172 | in every run a slot has a file name iff it is live, so names are neither leaked nor used after |
| FileSlots.InvStep | src/filetransfer/filetransfer.c:320-345 | connecting, adding, opening, closing, data, pending and the receiver's requests all keep the invariant of the slot table |
| FileSlots.OrderIsKeptIff | src/filetransfer/filetransfer.c:480-507 | an event keeps every live slot found, and channels and bound slots in correspondence, iff it does not give a file id that is in use a second slot or a second channel |
| FileSlots.AnnouncedAgain | src/filetransfer/filetransfer.c:493-507 | a file that has a channel and is announced again leaves its old channel without a slot, and all live slots are still found iff no earlier slot kept the new channel's number |
| FileSlots.UniqueNeverCollides | src/filetransfer/ela_filetransfer.h:92-97 | applications that announce no file id in use never cause this |
| FileSlots.SecondAnnouncementHidesSlot | src/filetransfer/filetransfer.c:480-507 | four events after which a live slot is hidden behind a freed one |
| FileSlots.AnnouncementTakenIff | src/filetransfer/filetransfer.c:480-507 | in every run an announcement is taken iff a live slot waits for a file of this id and size, or no slot, live or freed, has the id and one is free; otherwise nothing changes |
| FileSlots.ForgottenIff | src/filetransfer/filetransfer.c:480-492 | a freed slot changes iff it is the lowest free one and a file that no slot remembers is announced; until then its old file is refused |
| FileSlots.ClosedFileIsRefused | src/filetransfer/filetransfer.c:480-507 | a file that came and was closed is refused when announced again, though all slots are free and no documented duty is broken |
| Requests.RequestAnswer | src/filetransfer/filetransfer.c:1195-1458 | in every run a pull, pend or resume succeeds iff this is the connected receiver, the request can be sent, and the named file waits (with the offset below its size for a pull) or, for a pend, is being transferred; then exactly its slot changes its state, otherwise nothing does |
| Requests.RefusalTells | src/filetransfer/filetransfer.c:1195-1458 | no name, an unknown file and an offset behind the end are told apart |
| Requests.PacketEffect | src/filetransfer/filetransfer.c:555-640 | in every run a pull of a waiting file starts its transfer at the sender and any other packet ends it, and data end it at the receiver iff the application refuses them; the application is told exactly of pulls, cancels and data that count |
| Requests.PendEffect | src/filetransfer/filetransfer.c:656-698 | in every run a pend stops a transfer at the sender and reports its file, and does nothing else |
| Requests.AddAnswer | src/filetransfer/filetransfer.c:1101-1187 | a file is added iff a slot is free and a channel can be opened, as announced and in the lowest free slot; otherwise no slot comes into use |
| Requests.ConnectEffect | src/filetransfer/filetransfer.c:320-345 | in every run the first file gets its channel when the connection stands, or its slot is freed |
| Requests.AnnouncementEffect | src/filetransfer/filetransfer.c:446-510 | in every run an announcement that is taken binds the waiting file or fills the lowest free slot with the new one, and changes no other slot; a sender takes none |
| FileSlots.FileTransfer.GetChannel | src/filetransfer/filetransfer.h:131-141 | the loop returns the first slot with the channel, or none |
| FileSlots.FileTransfer.GetFile | src/filetransfer/filetransfer.h:143-153 | the loop returns the first slot with the file id, or none |
| FileSlots.FileTransfer.GetFree | src/filetransfer/filetransfer.h:119-129 | the loop returns the lowest free slot, or none |
| FileSlots.FileTransfer.ChannelOpen | src/filetransfer/filetransfer.c:446-510 | a new file takes the lowest free slot, a known one is bound again only if it waits with the same size, everything else is refused |
| FileSlots.FileTransfer.ChannelClose | src/filetransfer/filetransfer.c:533-553 | the slot found is freed with its name; nothing else changes |
| FileSlots.FileTransfer.ChannelData | src/filetransfer/filetransfer.c:555-640 | pull, cancel and file data change the slot and answer as Data says, in every state of the slot |
| FileSlots.FileTransfer.ChannelPending | src/filetransfer/filetransfer.c:656-698 | a transferring slot of the sender goes back to standby and its file is reported |
| FileSlots.FileTransfer.AddFile | src/filetransfer/filetransfer.c:1101-1187 | a file without name or bytes is refused; otherwise the lowest free slot is taken, and stays free when the channel cannot be opened |
| FileSlots.FileTransfer.Connected | src/filetransfer/filetransfer.c:320-345 | the first file is bound to its channel or its slot is freed |
| FileSlots.FileTransfer.Request | src/filetransfer/filetransfer.c:1195-1458 | pull, pend and resume answer and change the slots as Ask says, for every file id; what that means is Requests.RequestAnswer |
| Transfer.ResumedTransferIsExact | src/filetransfer/easyfile.c:109-238 | from a partial file that is a strict prefix: in every interleaving the file is always a prefix of the source, and the receiver has completed iff it equals the source |
| Transfer.StopsOnlyComplete | src/filetransfer/easyfile.c:109-238 | when nothing more can happen the receiver has completed, with the partial file followed by the rest of the source |
| Transfer.ExactIffPrefix | src/filetransfer/easyfile.c:80-107 | a completed file equals the source iff the partial file was a prefix of it |
| Transfer.StoppedRunCompletesIff | src/filetransfer/easyfile.c:80-238 | a run that has come to its end has completed iff the partial file was shorter than the source, and was refused otherwise |
| Transfer.AnyChunks | src/filetransfer/easyfile.c:185-238 | whatever a sender sends: the transfer completes iff after some chunks the file has exactly its size, and is cancelled iff it never had and is longer in the end; all is appended until it completes |
| Transfer.NothingWithoutPull | src/filetransfer/easyfile.c:80-107 | a partial file that is long enough is refused, a pull that cannot be sent closes the transfer, and then nothing is written |
| Transfer.AttemptsAreExact | src/filetransfer/easyfile.c:80-238 | over any number of attempts, each cut short anywhere, the file never stops being a prefix of the source |
| Transfer.SendingIsTheLoop | src/filetransfer/easyfile.c:125-152 | the sender's events put exactly the chunks of the sending loop on the link, in order |
| Transfer.ChunksJoin | src/filetransfer/easyfile.c:125-152 | the chunks have 2048 bytes each but the last, which has between 1 and 2048, and concatenate to the rest of the file |
| Transfer.ProgressReachesTheEnd | src/filetransfer/easyfile.c:148-152 | the reported progress strictly increases and ends at the file size |
| Transfer.StepsRunOut | src/filetransfer/easyfile.c:125-152 | every chunk sent or delivered uses up a bounded measure: the transfer ends |
| Transfer.FileSender.SendRoutine | src/filetransfer/easyfile.c:109-155 | the loop sends the chunks of the file from the offset, in order, and stops at the first failure |
| Transfer.FileSender.NotifyPull | src/filetransfer/easyfile.c:157-183 | a pull is taken iff its offset is within the file, and sets the position the sending begins at |
| Transfer.FileReceiver.NotifyFile | src/filetransfer/easyfile.c:80-107 | pulls from the end of the partial file, or cancels when that is too long |
| Transfer.FileReceiver.NotifyData | src/filetransfer/easyfile.c:185-238 | appends the data and completes or cancels by the new length |
| Dispatch.AlwaysOrdered | src/session/session.c:304-353 | in every list that calls can make no prefix occurs twice and longer prefixes come first |
| Dispatch.AlwaysGranted | src/session/session.c:304-353 | after any calls the entries with a callback are exactly the registrations that were made and not removed |
| Dispatch.CallFailsIff | src/session/session.c:277-358 | a call fails, and changes nothing, iff its prefix is longer than 511 or a new entry is needed and there is no memory |
| Dispatch.DefaultIsLatest | src/session/session.c:295-302 | the default callback is always the one of the latest call without prefix, and a null callback clears its context |
| Dispatch.FirstIsLongest | src/session/session.c:119-136 | the first matching entry is the one with the longest prefix, and conversely |
| Dispatch.LongestPrefix | src/session/session.c:113-148 | for an application that removes only what it registered, every bundle goes to its longest registered prefix, or to the default callback if there is none |
| Dispatch.LongestPrefixIff | src/session/session.c:113-148 | after any calls at all this holds for all bundles iff no entry without callback begins with a registered prefix |
| Dispatch.RemovalThatHides | src/session/session.c:339-353 | two calls after which a registered prefix is not found |
| Dispatch.SessionExtension.SetCallback | src/session/session.c:277-358 | the loop over the list updates, removes, inserts or refuses as Step says |
| Dispatch.SessionExtension.FriendInvite | src/session/session.c:94-152 | the callback and context called are those of the chosen entry, or the default ones |

## Left out

- Protocol.Pairing: assumes that nobody claims a new channel id; the source takes any free id. What happens otherwise, and that this is the exact condition, is in Recycling and Reuse.
- Multiplexer.MultiplexHandler.NotifyPacket: channel records are values filed under their id with a reference count, so two pointers to one record are not told apart; the crystal library (hash table, id heap, reference counts) is not part of this model.
- Store.StoreIsAtomic: a torn journal is a prefix of the image, and sections are below 4 GiB, where their length fits the header field; failing renames and removes are not modelled, and SHA-256 is an arbitrary function.
- LabelArea.ApplyExtra: the section is filled up with zeros, as in every file the program writes; the fixed size of a label in a friend's record is not modelled.
- Convert.ConvertLabels: reading the old files and the header fields of the converted image are not modelled.
- Fragmentation.Send: the argument checks on addresses are left out; an accepted message counts as sent.
- Invite.InviteRoundTrip: the application callback and the session extension are taken to be installed. A stranger's packet before the first one or after the last may begin an assembly of its own under the same tid.
- FileSlots.LiveSlotIsFound: assumes that no event gives a file id in use a second slot or channel, which is the exact condition.
- FileSlots.FileTransfer.AddFile: the syntax check of a file id and the making of a missing one are not modelled.
- Transfer.ResumedTransferIsExact: no pend, cancel or I/O error on the way, and the source file does not change; short reads and writes, which the source does not detect, do not occur.
- Md5Streaming.Context.Final: the host is little-endian, so byteReverse does nothing.
- CryptoHandler.Loopback: the cipher is any pair of functions that add and remove the MAC length and undo each other.
- Threads, locks, timers, wall-clock time and select loops: steps are atomic and expiry is an event.
- Keep-alive checkpoints of the multiplexer, the datagram mode and UDP port forwarding.
- The send loop of a TCP channel and reading from its socket: bytes through sockets are not modelled, only who owns them.
- The flatbuffers encoding of packets, base58, NaCl, the DHT, ICE and pseudo-TCP: packets arrive as records over FIFO links.
- The transaction history that maps a peer to the tid a reply needs, and the lookup of friends by number: both would add easy members.
- Cancelling and sending in the slot table change no slot; looking files up by name, user data and connection states of a transfer are left out.
- Configuration, logging, error strings, shells and the speed-test program around MD5.
