# go-p2p, verified models

Dafny 4.11 models of the parts of go-p2p whose correctness is not visible in any one function, with
theorems about them. `dafny verify dfyconfig.toml` checks everything.

| Part of the system | Files |
|---|---|
| Levin portable storage: the recursive binary codec and its varints | `Bytes`, `Varint`, `Storage`, `StorageLocality`, `StorageRoundTrip`, `StorageCanonical`, `StorageBuilt`, `StorageFormat`, `StorageCode` |
| Levin packets: the 33-byte header, framing, writers that share a connection | `LevinHeader`, `LevinConnection`, `LevinWriters`, `LevinWritersDrain` |
| UEPS frames: signed TLV lists, the builder and the reader | `Ueps`, `UepsReader`, `UepsStreams`, `UepsCode` |
| The peer registry: mutators, KD-tree, queries, debounced persistence | `Peers`, `PeerRegistry`, `RegistryPersistence`, `RegistryCalls`, `RegistryClose`, `RegistryFile`, `RegistryRuns`, `RegistryDrain` |
| The read path: token bucket, deduplicator, read loops | `RateLimiter`, `Dedup`, `ReadLoops`, `ReadLoopsDelivery`, `ReadLoopsTogether` |
| Concurrent delivery: the content bus, request/response correlation | `ContentBus`, `ContentBusDelivery`, `ContentBusOutcomes`, `ContentBusDrain`, `Correlator`, `CorrelatorDrain` |

`Sums` holds the sums over maps that the drain theorems use.

## How the models are built

- Code that computes is a function. Code that loops or updates state is a method or a class, and its
  `ensures` ties the result or the new state to a function; the theorems are about those functions.
- Concurrent code is a machine: a `State`, an `Enabled` and an `Apply` for each step, and `Run`, which takes any
  sequence of steps. A theorem about `Run(Init(..), steps)` is about every interleaving of any number of threads.
- Integers are unbounded; the source's widths are written out where they matter (varints, little- and big-endian
  fields, two's complement). Floats in the registry are reals, doubles on the wire are 64-bit patterns.
- Clock readings, message contents, the MAC and the key derivation are parameters.
- Induction is always written out: a lemma on which Dafny would try it by itself carries `{:induction false}`. The
  hypothesis that Dafny 4.11 adds by itself says of every smaller value, without regard to its type, that the calls in
  the lemma are defined. Over a sequence of datatype values that can be contradictory, and then anything follows.
  For the same reason every `forall` statement states its `ensures`.
- A Go panic is an outcome of the model, not a precondition, but for one: the storage decoder's `make` with a huge
  claimed count panics in Go, while the model goes on to find the input truncated.

## What the proofs found

Each of these is a theorem with an exact condition.

- A varint comes back for exactly the values up to 2^62-1 (`Varint.VarintRoundTripExact`).
- A decoded Levin header re-encodes to the same bytes exactly when its flag byte was 0 or 1
  (`LevinHeader.HeaderReencode`).
- The registry's `Close` is documented to flush pending changes, and saving through a temporary file and a rename to
  keep the file from ever being partial. Neither holds unconditionally.
  - All savers share one temporary file under a read lock, so two saves can overlap. As long as they do not, the file is
    whole at every moment (`RegistryFile.FileIsWhole`), and a Close that returns OK leaves one no older than the moment
    it took saveMu exactly when it found the registry dirty or the file up to date
    (`RegistryFile.CloseFlushesSinceExactly`).
  - With no mutator running, a Close that returns OK leaves the file up to date, for good, exactly when it finds what
    `RegistryClose.CanFlush` says (`RegistryClose.CloseFlushesExactly`): the registry dirty, and no other saver still to
    open the temporary file or to write the one there is; or the registry clean, the file up to date, and the savers on
    their way unable to spoil it.
  - Otherwise Close can return early, before a callback that took the flag has written
    (`RegistryRuns.CloseMayReturnEarly`), or over a partial file (`RegistryRuns.CloseMayLeavePartialFile`).
  - No update is lost even so: while a change is not in the file, somebody is on the way to write it, unless an I/O
    error occurred (`RegistryPersistence.NoLostUpdate`).
- Deduplicator housekeeping cannot be noticed exactly when the ttl is positive
  (`Dedup.HousekeepingInvisibleExactly`); without one, `Cleanup` forgets what queries would keep.
- One loop marks a message ID at most once per ttl. All loops together do exactly when every Mark is taken where
  IsDuplicate, asked again, would still say no (`ReadLoopsTogether.SpacedAcrossLoopsExactly`); two loops that both ask
  before either marks do not (`ReadLoopsTogether.TwoLoopsMayRepeat`).
- Handler calls of one loop for one ID are at least ttl + 1 apart less the delay between the earlier call and its Mark
  (`ReadLoops.AtMostOncePerLoop`), and that is attained for every delay (`ReadLoops.CallsMayBeClose`).
- A response that was looked up before its request returned panics on the closed channel exactly when it is sent after
  the request returned (`Correlator.SendMeetsClosedChannelExactly`, `Correlator.LateResponsePanics`). The comment on the
  `default` branch of `handleResponse` says that branch covers a closed channel; in Go it does not.
- The UEPS reader panics on exactly the streams in which a header TLV that is too short follows only TLVs the loop gets
  past (`UepsStreams.PanicsExactly`).
- The signed bytes of a UEPS frame do not record where the payload starts. Two frames with the same signed bytes carry
  one packet exactly when their payloads are equally long (`UepsStreams.SignedBytesFixPacketExactly`,
  `UepsStreams.PayloadBoundaryIsNotSigned`).
- After a Levin writer has failed in the middle of a frame, the next one goes on writing. A reader gets every packet that
  was complete before (`LevinWriters.ReaderSeesLockOrder`), and can take later bytes for the payload of the short frame
  (`LevinWriters.LaterBytesAreReadAsPayload`).

Where code and documentation differ, the model follows the code: `docs/architecture.md` lines 212 and 225 describe a
UEPS payload without a length, while the code gives it a tag and a two-byte length like every other TLV.

## Model

| member | source | states |
|---|---|---|
| `Varint.PackVarint` | go/node/levin/varint.go:40-60 | every value packs into 1, 2, 4 or 8 bytes |
| `Varint.UnpackVarint` | go/node/levin/varint.go:64-96 | reads between 1 byte and the whole buffer, and its only error is truncation |
| `Varint.VarintRoundTrip` | go/node/levin/varint.go:40-96 | every value up to 2^62-1 is read back whatever follows, consuming exactly its own bytes |
| `Varint.VarintRoundTripExact` | go/node/levin/varint.go:19-60 | the round trip holds if and only if the value is at most 2^62-1 |
| `Varint.UnpackIsBounded` | go/node/levin/varint.go:64-96 | no input, over-wide ones included, yields more than 2^62-1 or takes fewer bytes than the packer would |
| `Varint.UnpackIsLocal` | go/node/levin/varint.go:64-96 | appending bytes, or cutting the unread ones, never changes what was read |
| `Varint.PackedForm` | go/node/levin/varint.go:40-60 | the two low bits of the first byte say the width of the varint, and the rest of its little-endian number is the value |
| `Storage.ParseSection` | go/node/levin/storage.go:489-536 | the recursive decoder terminates on every input and consumes between 1 byte and the whole buffer |
| `Storage.ParseValue` | go/node/levin/storage.go:540-640 | a value consumes between 1 byte and the whole buffer, for every tag byte |
| `Storage.EnumerationUnique` | go/node/levin/storage.go:313-314 | a set of names has one ascending enumeration, so the output cannot depend on map order |
| `Storage.BeforeIsLexicographic` | go/node/levin/storage.go:314 | the order of the names is lexicographic on bytes: the first difference decides, and a proper prefix comes first |
| `Storage.TagsSayKinds` | go/node/levin/storage.go:26-34 | integer tags 1 to 4 are signed and 5 to 8 unsigned, each from 8 bytes down to 1; 9 is a double |
| `Storage.ArrayTags` | go/node/levin/storage.go:130-148 | the tag of an array is the tag of its elements with the high bit set |
| `StorageRoundTrip.EncodeFailsExactly` | go/node/levin/storage.go:312-456 | encoding succeeds if and only if no name at any depth exceeds 255 bytes and no tag at any depth is unsupported, and names the matching reason otherwise |
| `StorageRoundTrip.WellFormedEncodes` | go/node/levin/storage.go:312-456 | every well-formed section of any depth encodes |
| `StorageRoundTrip.SectionRoundTrip` | go/node/levin/storage.go:489-713 | any buffer that starts with the encoding of a well-formed section decodes to that section and consumes exactly the encoding |
| `StorageRoundTrip.FileRoundTrip` | go/node/levin/storage.go:293-309 | a whole file, followed by anything, decodes to the section that was encoded |
| `StorageRoundTrip.EncodingsArePrefixFree` | go/node/levin/storage.go:312-456 | no encoding is a prefix of the encoding of a different section; encoding is injective |
| `StorageLocality.SectionLocal` | go/node/levin/storage.go:489-713 | the decoder's answer, error or not, depends only on the bytes it looked at |
| `StorageLocality.DecodeIgnoresTail` | go/node/levin/storage.go:489-713 | a successful decode is unchanged by any bytes after the consumed ones, or by their absence |
| `StorageLocality.TruncationIsDetected` | go/node/levin/storage.go:489-713 | every strict prefix of the consumed bytes is refused, and as truncated |
| `StorageCanonical.SectionIsWellFormed` | go/node/levin/storage.go:489-713 | whatever is decoded, from any bytes, is well formed |
| `StorageCanonical.SectionFits` | go/node/levin/storage.go:312-456 | re-encoding what was decoded never takes more bytes than were consumed, with repeated names and over-wide varints in the input |
| `StorageCanonical.CanonicalForm` | go/node/levin/storage.go:464-713 | every accepted file re-encodes, to no more bytes than were consumed, and that encoding decodes to the same section whatever follows |
| `StorageCanonical.DecodedSizeIsBounded` | go/node/levin/storage.go:489-713 | however large the claimed counts, the entries and elements that the decoded section keeps at all depths are fewer than the bytes consumed |
| `StorageBuilt.SectionBuilt` | go/node/levin/storage.go:489-713 | for every input, accepted or not, the entries and elements the decoder builds at all depths, overwritten ones included, are no more than the bytes given and fewer than those consumed on success |
| `StorageBuilt.RepeatedNameIsBuiltTwice` | go/node/levin/storage.go:500-533 | for any name and two values of any depth, a repeated name is built twice and its last value kept |
| `StorageFormat.EntriesAreWrittenInOrder` | go/node/levin/storage.go:312-341 | an encoded section, whatever follows it, reads as the number of its entries and then exactly its entries, in lexicographic order of their names |
| `StorageFormat.OneNumberBytes` | go/node/levin/storage.go:312-397 | a section with one number of any kind, byte for byte |
| `StorageFormat.FileStart` | go/node/levin/storage.go:293-301 | the nine bytes every file starts with |
| `StorageFormat.AcceptsExactly` | go/node/levin/storage.go:464-485 | a file is accepted if and only if it starts with those bytes and a section can be decoded after them |
| `StorageFormat.RefusedHeader` | go/node/levin/storage.go:464-480 | any other start is refused as truncated, as a bad signature or as a bad version, in that order |
| `StorageFormat.UnknownTagIsRefused` | go/node/levin/storage.go:540-713 | every tag the format does not define is refused as unknown, once an array's count can be read |
| `StorageFormat.BooleansAreBytes` | go/node/levin/storage.go:540-640 | a boolean takes one byte, and every byte but 0 is true |
| `StorageCode.SortKeys` | go/node/levin/storage.go:314 | from any iteration order, the ascending enumeration of the keys |
| `StorageCode.AppendSection` | go/node/levin/storage.go:312-341 | the result is the incoming buffer followed by a function of the section alone, or that function's error |
| `StorageCode.AppendEntries` | go/node/levin/storage.go:319-340 | the loop over the sorted keys appends the entries in that order and stops at the first error |
| `StorageCode.AppendEntry` | go/node/levin/storage.go:323-337 | the name's length byte, the name, the tag and the value, or the error of a long name or of the value |
| `StorageCode.AppendValue` | go/node/levin/storage.go:345-409 | each scalar, string and nested section is appended after the incoming buffer as its encoding |
| `StorageCode.AppendArray` | go/node/levin/storage.go:412-456 | the count, then every element; an unsupported element type is the only error besides a nested one |
| `StorageCode.AppendNats` | go/node/levin/storage.go:416-432 | the number loop appends the elements in order |
| `StorageCode.AppendTexts` | go/node/levin/storage.go:434-440 | the string loop appends each length and string in order |
| `StorageCode.AppendSections` | go/node/levin/storage.go:442-451 | the section loop appends each section in order and stops at the first error |
| `StorageCode.EncodeFile` | go/node/levin/storage.go:293-309 | the nine header bytes, then the section; or the section's error |
| `StorageCode.DecodeSection` | go/node/levin/storage.go:489-536 | the offset-passing decoder is the recursive one |
| `StorageCode.DecodeEntries` | go/node/levin/storage.go:500-535 | the entry loop builds the map of the parsed entries, a repeated name keeping its last value, and ends at the offset after the last one; or it ends with the first error |
| `StorageCode.DecodeEntry` | go/node/levin/storage.go:501-531 | one name, one tag, one value, with every bound checked before it is used |
| `StorageCode.DecodeValue` | go/node/levin/storage.go:540-640 | the switch on the tag yields the value and the bytes it took, or the right error |
| `StorageCode.DecodeArray` | go/node/levin/storage.go:643-713 | the count is read and the elements decoded after it |
| `StorageCode.DecodeElements` | go/node/levin/storage.go:653-712 | the switch on the element type; any other element type is refused |
| `StorageCode.DecodeNats` | go/node/levin/storage.go:654-674 | the number loops yield what the recursive parser yields, with the end as an offset, or its error |
| `StorageCode.DecodeTexts` | go/node/levin/storage.go:676-694 | the string loop yields what the recursive parser yields, with the end as an offset, or its error |
| `StorageCode.DecodeSections` | go/node/levin/storage.go:696-708 | the section loop yields what the recursive parser yields, with the end as an offset, or its error |
| `StorageCode.DecodeFile` | go/node/levin/storage.go:464-485 | signature and version are checked before the section is decoded; later bytes are ignored |
| `LevinHeader.ParseHeader` | go/node/levin/header.go:81-97 | accepted if and only if signature and payload size are right |
| `LevinHeader.HeaderRoundTrip` | go/node/levin/header.go:63-97 | any header comes back unchanged, or is refused for the first reason that applies |
| `LevinHeader.HeaderReencode` | go/node/levin/header.go:63-97 | re-encoding the fields of any 33 bytes gives the same bytes if and only if the flag byte is 0 or 1 |
| `LevinHeader.HeaderLayout` | go/node/levin/header.go:63-77 | which byte of the header is which digit of which field |
| `LevinHeader.PutUint` | go/node/levin/header.go:65-75 | a little-endian write in place changes its own bytes and no others |
| `LevinHeader.EncodeHeader` | go/node/levin/header.go:63-77 | the in-place writes fill the array with the header's bytes, none overwriting another |
| `LevinConnection.WritersBuildSendable` | go/node/levin/connection.go:65-90 | whatever the arguments, both writers build packets that a reader accepts, given the size limits |
| `LevinConnection.FrameRoundTrip` | go/node/levin/connection.go:93-152 | a sent frame is read back as the same packet, leaving exactly what followed it |
| `LevinConnection.ReadsExactly` | go/node/levin/connection.go:119-152 | for any stream, a packet is read if and only if an acceptable header and all of its payload are there; a refused header takes its own bytes alone, the end of the stream all of it |
| `LevinConnection.ReaderGetsRequest` | go/node/levin/connection.go:65-76 | the reader of a WritePacket gets its command, payload and response flag, marked as a request |
| `LevinConnection.ReaderGetsResponse` | go/node/levin/connection.go:79-90 | the reader of a WriteResponse gets its command, return code and payload, marked as a response |
| `LevinConnection.PartialFrame` | go/node/levin/connection.go:119-152 | a frame cut anywhere reads as the end of the stream, never as a packet or a bad header |
| `LevinConnection.FramesRoundTrip` | go/node/levin/connection.go:93-152 | repeated reads of any list of frames, followed by an unfinished one, return the packets in order and then wait |
| `LevinConnection.FramesFirst` | go/node/levin/connection.go:119-152 | whole frames at the front of a stream are read first, whatever follows them |
| `LevinConnection.ShortFrameTakesMore` | go/node/levin/connection.go:119-152 | a frame cut in its payload is filled up with whatever bytes come next |
| `LevinConnection.Connection.WritePacket` | go/node/levin/connection.go:65-76 | success means that the whole frame of a request follows what was written before; failure leaves a prefix of it |
| `LevinConnection.Connection.WriteResponse` | go/node/levin/connection.go:79-90 | success means that the whole frame of a response is on the wire; failure leaves a prefix of it |
| `LevinConnection.Connection.WriteFrame` | go/node/levin/connection.go:93-114 | whatever the deadline and the two writes do, exactly the bytes the network took of the frame are on the wire; success if and only if the deadline was set and neither write failed, and then all of them are |
| `LevinConnection.Connection.ReadPacket` | go/node/levin/connection.go:119-152 | the outcome and the unread bytes in every case: short header, bad header, too big, short payload, success |
| `LevinWriters.StepKeepsWire` | go/node/levin/connection.go:93-114 | every step of every writer, failures included, keeps the wire plus what the lock holder owes equal to the frames in lock order until a frame is left short, and the complete frames at the front from then on |
| `LevinWriters.StepKeepsThreadOrder` | go/node/levin/connection.go:93-114 | every step keeps each thread's sent and pending packets equal to its program |
| `LevinWriters.WireIsWholeFramesAndAPart` | go/node/levin/connection.go:65-114 | at every moment of every run in which no frame was left short the wire is whole frames in lock order and at most one strict prefix of a frame; in every run the frames before the first short one stay at the front; each thread's order is preserved |
| `LevinWriters.ReaderSeesLockOrder` | go/node/levin/connection.go:65-152 | for any threads calling WritePacket and WriteResponse within the size limits, a reader gets exactly the completed packets in lock order and then waits, and after a short frame still gets those before it |
| `LevinWriters.LaterBytesAreReadAsPayload` | go/node/levin/connection.go:93-114 | a run in which one writer fails after its header, the next succeeds, and its bytes are read as the payload of the first |
| `LevinWritersDrain.StepSpends` | go/node/levin/connection.go:93-114 | every step of a writer, a failure included, uses up part of a finite load |
| `LevinWritersDrain.SomeWriterMoves` | go/node/levin/connection.go:93-114 | as long as a packet is to be written, some step other than a failure is possible |
| `LevinWritersDrain.EveryScheduleWrites` | go/node/levin/connection.go:65-114 | every schedule ends within a bounded number of steps; where it ends the lock is free and every thread has written all its packets in its order, and without failures the wire is exactly their frames |
| `UepsReader.ReaderMeaning` | go/ueps/reader.go:31-119 | for any TLV list ending in a payload: signed bytes are the non-HMAC TLVs in order, header fields are last-wins, a short header value panics, and the packet is accepted if and only if a non-empty signature is the MAC of the signed bytes and payload |
| `UepsReader.AcceptedIsSigned` | go/ueps/reader.go:23-120 | whatever bytes are accepted, they are a TLV list ending in the returned payload, with a signature that covers the returned header |
| `UepsReader.HmacMayMove` | go/ueps/reader.go:51-119 | moving the only HMAC TLV anywhere before the payload changes nothing the reader returns |
| `UepsReader.PacketRoundTrip` | go/ueps/packet.go:61-113 | a signed packet is read back as itself, leaving exactly what followed it |
| `UepsReader.FrameLayout` | go/ueps/packet.go:61-113 | a signed packet byte for byte: five header TLVs, the MAC of those and the bare payload, the payload TLV |
| `UepsReader.StreamRoundTrip` | go/ueps/reader.go:23-120 | any list of packets signed with one secret, payloads up to 65535 bytes, is read back in order and leaves exactly the tail |
| `UepsStreams.PanicsExactly` | go/ueps/reader.go:31-74 | for every stream, the reader panics if and only if the stream is complete, long enough, non-payload TLVs and then a header TLV too short to index, and what follows that TLV stays unread |
| `UepsStreams.EndsExactly` | go/ueps/reader.go:31-49 | for every stream, it ends too early if and only if only TLVs the loop gets past precede an incomplete one, and then nothing is left |
| `UepsStreams.SignedBytesFixPacketExactly` | go/ueps/reader.go:51-119 | two frames with the same signed bytes carry the same packet if and only if their payloads are equally long |
| `UepsStreams.PayloadBoundaryIsNotSigned` | go/ueps/packet.go:86-97 | the signed bytes do not fix the boundary: a payload that starts with a threat-score TLV has the signed bytes of a shorter payload under another header |
| `UepsStreams.SameSignedBytesSameVerdict` | go/ueps/reader.go:51-119 | of two frames with the same signed bytes and signature the reader accepts both, each as its own packet, or refuses both alike |
| `UepsCode.WriteTlv` | go/ueps/packet.go:125-145 | appends tag, two-byte length and value, or refuses a value over 65535 bytes |
| `UepsCode.WriteHeader` | go/ueps/packet.go:64-84 | the five header TLVs in order |
| `UepsCode.MarshalAndSign` | go/ueps/packet.go:61-113 | the header TLVs, then the MAC over them and the bare payload, then the payload TLV; or the key or size error |
| `UepsCode.Stream.ReadFull` | go/ueps/reader.go:32-49 | exactly n bytes are taken, or the stream is drained and the end reported |
| `UepsCode.Stream.NextTlv` | go/ueps/reader.go:32-49 | three reads take one TLV off the stream, or report its end with nothing left |
| `UepsCode.Stream.ReadAndVerify` | go/ueps/reader.go:23-120 | the loop and the checks agree with the list meaning; what is left unread is known in every case, and depends on the TLVs alone, not on whether the packet verifies |
| `Peers.UnsavedMutationKeepsFile` | go/node/peer.go:407-426 | a mutation that skips the save changes nothing that is saved |
| `Peers.SavesExactlyIfItCanMatter` | go/node/peer.go:259-524 | a mutator that goes through saves if and only if there are peers for which it changes what is saved |
| `Peers.WrittenIsSaved` | go/node/peer.go:18-40 | the saved map is the one with the same peers, equal in every field but the connection state |
| `Peers.ValidNameIsPattern` | go/node/peer.go:60-89 | a name is valid if and only if it is empty, one alphanumeric character, or up to 62 allowed ones between two alphanumeric ones |
| `Peers.OthersAreLeftAlone` | go/node/peer.go:259-524 | no mutator adds, removes or changes another peer than its own |
| `Peers.DifferentPeersCommute` | go/node/peer.go:259-524 | mutations of different peers give the same map in either order |
| `Peers.RemoveUndoesAdd` | go/node/peer.go:259-325 | RemovePeer after AddPeer gives back the map before |
| `Peers.AddKeepsWhatIsGiven` | go/node/peer.go:259-291 | a peer is added as given, with the time and a score halfway between 0 and 100 only where it had none |
| `Peers.UpdateReplaces` | go/node/peer.go:295-308 | UpdatePeer stores the peer as given, whatever was done to the old one before |
| `Peers.FieldsChange` | go/node/peer.go:365-524 | for each field, which of the mutators of a registered peer change it, and to what |
| `Peers.ScoreIsClamped` | go/node/peer.go:387-404 | UpdateScore stores the score in 0..100 nearest to the one given |
| `Peers.ScoresMove` | go/node/peer.go:456-524 | a success never lowers a score, a timeout or a failure never raises it, a failure costs the most, and each stays in 0..100 |
| `Peers.ScoresStayOk` | go/node/peer.go:259-524 | scores stay in 0..100 as long as the peers given are |
| `Peers.UnindexedMutationKeepsPoints` | go/node/peer.go:407-443 | a mutation that skips the rebuild moves no point of the index |
| `Peers.RebuildsExactlyIfItCanMatter` | go/node/peer.go:259-524 | a mutator that goes through rebuilds the index if and only if there are peers for which it moves a point |
| `Peers.BetterIsNearer` | go/node/peer.go:705-736 | a peer no worse in ping, hops, distance and score is never farther from the ideal point, and is nearer if better in one |
| `PeerRegistry.NearestIsBestPeer` | go/node/peer.go:565-589 | when the index agrees with the map, any nearest point names a registered peer of least weighted distance |
| `PeerRegistry.EitherCoordinatesOrDistance` | go/node/peer.go:632-650 | the recorded distance counts only for a peer at 0/0, and the place searched only for any other |
| `PeerRegistry.NearerCounts` | go/node/peer.go:632-650 | a peer no farther than another in its coordinates, or its distance, and in hops never has the larger combined distance |
| `PeerRegistry.SortByScore` | go/node/peer.go:652-661 | the result is sorted by score and a permutation of the input |
| `PeerRegistry.SortedScoresAll` | go/node/peer.go:652-661 | after sorting, the list still holds every registered peer exactly once |
| `PeerRegistry.PrefixIsNearest` | go/node/peer.go:663-670 | the first entries of the sorted list are the nearest peers: none left out is nearer than one taken |
| `PeerRegistry.Registry.constructor` | go/node/peer.go:137-161 | a loaded registry keys each peer by its ID, and its index agrees with its map |
| `PeerRegistry.RestartKeepsPeers` | go/node/peer.go:774-927 | loading a saved file, in any order, gives back every peer, in every field but the connection state |
| `PeerRegistry.Registry.RebuildKDTree` | go/node/peer.go:705-736 | in any map order, the points become exactly those of the registered peers; if the library refuses them the old tree stays |
| `PeerRegistry.Registry.ScheduleSave` | go/node/peer.go:741-753 | afterwards the registry is dirty and a timer is set, the one that was set or a new one |
| `PeerRegistry.Registry.AddPeer` | go/node/peer.go:259-291 | succeeds if and only if the ID is given and new and the name valid; fills the defaults; index and map still agree; a save is due |
| `PeerRegistry.Registry.UpdatePeer` | go/node/peer.go:295-308 | succeeds if and only if the peer exists; index and map still agree; a save is due |
| `PeerRegistry.Registry.RemovePeer` | go/node/peer.go:312-325 | succeeds if and only if the peer exists; it and its point are gone; a save is due |
| `PeerRegistry.Registry.UpdateMetrics` | go/node/peer.go:365-383 | the metrics and the time are stored, the point moves with them, a save is due |
| `PeerRegistry.Registry.UpdateScore` | go/node/peer.go:387-404 | the score is clamped to 0..100, the point moves with it, a save is due |
| `PeerRegistry.Registry.SetConnected` | go/node/peer.go:407-426 | index and map still agree without a rebuild; a save is due only on connecting |
| `PeerRegistry.Registry.MarkSeen` | go/node/peer.go:429-443 | index and map still agree without a rebuild; a save is due |
| `PeerRegistry.Registry.RecordSuccess` | go/node/peer.go:456-472 | one more point of score, at most 100; index and map still agree |
| `PeerRegistry.Registry.RecordFailure` | go/node/peer.go:475-498 | five points less, at least 0; index and map still agree |
| `PeerRegistry.Registry.RecordTimeout` | go/node/peer.go:501-524 | three points less, at least 0; index and map still agree |
| `PeerRegistry.Registry.SelectOptimalPeer` | go/node/peer.go:565-589 | a registered peer of least weighted distance, and none only if no peer is registered |
| `PeerRegistry.Registry.ScoreAll` | go/node/peer.go:632-650 | in any map order, each registered peer is scored once, with its combined distance |
| `PeerRegistry.Registry.FindNearby` | go/node/peer.go:619-671 | min(maxResults, count) distinct registered peers, none if maxResults is not positive, sorted by combined distance, every omitted peer at least as far as every returned one |
| `RegistryPersistence.StepKeepsInv` | go/node/peer.go:741-829 | every step of a mutator, a timer callback or Close keeps locks, timers, the two files and the debt of unsaved changes in order, however savers overlap |
| `RegistryPersistence.NoLostUpdate` | go/node/peer.go:259-829 | in every interleaving, savers overlapping in the temporary file included, if the file differs from memory then the registry is dirty with an outstanding timer, or a caller has yet to reach save, or a saver has yet to rename, or a save failed and none since has left the memory of its moment; so in a quiet state the file has every peer of the memory, in every field but the connection state |
| `RegistryCalls.MemoryIsCallsInOrder` | go/node/peer.go:259-524 | in every interleaving the memory is the loaded map after the calls so far, one at a time in the order they held the lock, each caller's own order kept, none twice and none skipped |
| `RegistryCalls.FileHoldsAllCalls` | go/node/peer.go:259-829 | where all calls are made and nothing is on its way, without a failed save, the file holds the peers that result from all of them |
| `RegistryPersistence.SaveNeverStuck` | go/node/peer.go:741-829 | as long as a save is owed or a timer outstanding, some step is possible that starts no new call |
| `RegistryClose.CloseFlushesExactly` | go/node/peer.go:774-829 | in every schedule without mutators, a Close that returns OK leaves the file up to date at every later moment if and only if it found what CanFlush says: dirty with no other saver still to open or write the temporary file, or clean and up to date with savers that cannot spoil it |
| `RegistryClose.CloseFlushesWhenAlone` | go/node/peer.go:774-829 | Close flushes whenever no other saver and no caller is between a change and its save |
| `RegistryClose.StoppedTimerNeverFires` | go/node/peer.go:806-829 | a timer that Close finds pending never runs its callback, whatever happens afterwards |
| `RegistryRuns.CloseMayReturnEarly` | go/node/peer.go:752-829 | for any peer that can be added, a run in which Close returns OK before the peer is on disk |
| `RegistryRuns.CloseMayLeavePartialFile` | go/node/peer.go:774-829 | for any two calls that save, a run without I/O errors in which Close overlaps a callback, returns OK, and the file is not a whole map |
| `RegistryFile.StepKeepsLone` | go/node/peer.go:774-803 | as long as at most one saver is at work on the temporary file, every step leaves the file alone or puts the memory of that moment in it |
| `RegistryFile.FileIsWhole` | go/node/peer.go:774-803 | in every run in which saves do not overlap, the file is at every moment whole and has the peers of some moment of the run, in every field but the connection state |
| `RegistryFile.CloseFlushesSinceExactly` | go/node/peer.go:774-829 | in every schedule in which saves do not overlap, mutators included, a Close that returned OK leaves the memory of some moment since it took saveMu, if and only if it found the registry dirty or the file up to date |
| `RegistryDrain.StepSpends` | go/node/peer.go:741-829 | every step but the start of a new call uses up part of a finite load |
| `RegistryDrain.EveryScheduleSaves` | go/node/peer.go:741-829 | from every reachable state, without new calls, every schedule ends within a bounded number of steps, and where it ends the file agrees with memory unless a save failed and none since has left the memory of its moment |
| `RateLimiter.StepSpends` | go/node/transport.go:157-176 | tokens held plus tokens that can still arrive never grow, and every grant takes one |
| `RateLimiter.GrantsAreBudgeted` | go/node/transport.go:157-176 | the grants of any calls fit the tokens held plus the whole-second refills, although each refill rounds down |
| `RateLimiter.WindowFromBucket` | go/node/transport.go:157-176 | from any reachable bucket, the grants fit maxTokens plus refillRate for each second of the window, rounded up |
| `RateLimiter.WindowBound` | go/node/transport.go:147-176 | for every call history of a new limiter, of any maximum and rate, tokens stay in 0..maxTokens (or at a negative maximum) and every window of calls obeys that bound |
| `RateLimiter.RefusedExactly` | go/node/transport.go:157-176 | a call is refused if and only if the maximum is not positive, or the tokens are spent and no refill is due |
| `RateLimiter.GrantsAfterRefill` | go/node/transport.go:157-176 | within a second from a refill exactly the tokens held plus the rate for each whole second since the last refill, up to the maximum, are granted |
| `RateLimiter.IdleRestoresBurst` | go/node/transport.go:147-176 | for every call history of a new limiter, after an idle time worth maxTokens the next maxTokens calls are all granted |
| `RateLimiter.SlowCallsAreGranted` | go/node/transport.go:157-176 | calls a second or more apart are all granted |
| `RateLimiter.PeerRateLimiter.constructor` | go/node/transport.go:147-154 | a new limiter is full, whatever its maximum |
| `RateLimiter.PeerRateLimiter.Allow` | go/node/transport.go:157-176 | the answer and the new bucket are those that the bounds from above and below are about |
| `Dedup.EntryIsLatestMark` | go/node/transport.go:84-118 | after any history an entry is the latest mark, and a mark without an entry is older than the ttl |
| `Dedup.AnswerIsHistory` | go/node/transport.go:84-118 | for a positive ttl, a message is a duplicate if and only if its latest mark is at most ttl old |
| `Dedup.NothingExpires` | go/node/transport.go:84-107 | for a ttl that is not positive, until a Cleanup, a message is a duplicate if and only if it was ever marked |
| `Dedup.SweepKeepsExactlyRecent` | go/node/transport.go:109-118 | for a positive ttl, Cleanup leaves exactly the messages whose latest mark is at most ttl old |
| `Dedup.HousekeepingInvisibleExactly` | go/node/transport.go:84-118 | Cleanup and lazy deletion cannot be noticed by any later query, if and only if the ttl is positive |
| `Dedup.SweepIsVisible` | go/node/transport.go:109-118 | for a ttl that is not positive, two histories with the same marks that Cleanup tells apart |
| `Dedup.MessageDeduplicator.IsDuplicate` | go/node/transport.go:84-99 | the answer, and the lazy deletion of an expired entry and of nothing else |
| `Dedup.MessageDeduplicator.Cleanup` | go/node/transport.go:109-118 | in any map order, exactly the entries older than the ttl go |
| `ReadLoops.StepSpaces` | go/node/transport.go:817-841 | every step keeps each recent mark remembered and the marks of one ID by one loop more than the ttl apart |
| `ReadLoops.AtMostOncePerLoop` | go/node/transport.go:792-855 | in every interleaving of any number of read loops, two marks of one ID by one loop are more than the ttl apart, every handler call follows its mark, and a later call comes more than the ttl after the mark of an earlier one |
| `ReadLoops.StepKeepsCalls` | go/node/transport.go:841-854 | every step keeps handler calls behind their marks and the marks of one loop's calls for one ID more than the ttl apart |
| `ReadLoops.CallsMayBeClose` | go/node/transport.go:841-854 | for every delay d between a mark and its handler call, a run with two calls of one loop for one ID ttl + 1 - d apart |
| `ReadLoopsDelivery.DropsExactlyDuplicates` | go/node/transport.go:837-841 | in every run a loop drops a message as a duplicate if and only if some loop marked its ID within the last ttl |
| `ReadLoopsDelivery.MarkedIsHandled` | go/node/transport.go:841-855 | in every run with a handler installed, each loop calls it for exactly the messages it marked, in that order |
| `ReadLoopsTogether.MarkSpacesExactly` | go/node/transport.go:837-841 | from any state that meets the invariant, a mark keeps all marks of its ID more than the ttl apart if and only if the message is still new |
| `ReadLoopsTogether.SpacedAcrossLoopsExactly` | go/node/transport.go:792-855 | in every run, all marks of one ID by whichever loops are more than the ttl apart if and only if every mark is taken where IsDuplicate would still say no |
| `ReadLoopsTogether.TwoLoopsMayRepeat` | go/node/transport.go:837-841 | for every ttl and ID, a run in which two loops ask before either marks and both handle the message |
| `ReadLoops.StepBudgeted` | go/node/transport.go:817-841 | every step keeps what a loop has handled within its limiter's budget |
| `ReadLoops.HandledIsRateLimited` | go/node/transport.go:792-855 | in every run, a loop handles at most its burst plus its refill rate for each elapsed second |
| `ContentBus.StepKeepsInv` | go/pkg/contentbus/controller.go:243-396 | every step of every thread keeps locks, channels and the closed flag consistent |
| `ContentBus.BusIsSafe` | go/pkg/contentbus/controller.go:243-396 | in every interleaving nothing is sent on a closed channel, no channel is closed twice, a channel is closed exactly when its subscription is gone, and none remains after Close |
| `ContentBus.SomeThreadMoves` | go/pkg/contentbus/controller.go:243-396 | in every state that satisfies the invariant, an unfinished thread means that some thread can step |
| `ContentBus.BusNeverDeadlocks` | go/pkg/contentbus/controller.go:243-396 | with the lock order mu then subsMu, and Go's rule that a waiting writer blocks readers, no run deadlocks |
| `ContentBusDrain.StepSpends` | go/pkg/contentbus/controller.go:243-396 | every step of a thread or a subscriber uses up part of a finite load |
| `ContentBusDrain.EveryScheduleFinishes` | go/pkg/contentbus/controller.go:243-396 | from every reachable state every schedule ends within a bounded number of steps, and where it ends every call has returned and every queue is empty |
| `ContentBusDelivery.StepKeepsHistory` | go/pkg/contentbus/controller.go:386-396 | every step keeps channels, offers and publishers in agreement |
| `ContentBusDelivery.SubscriberGetsAcceptedOffers` | go/pkg/contentbus/controller.go:254-396 | in every run a subscriber's events are exactly the offers to it that met room, in order, all of its topic; an offer is missed only on a full buffer |
| `ContentBusDelivery.PublishOffersToEverySubscriber` | go/pkg/contentbus/controller.go:386-396 | in every run a publisher at the end of its loop has offered its event exactly once to each subscription of its topic and to nothing else |
| `ContentBusOutcomes.StepKeepsOffer` | go/pkg/contentbus/controller.go:274-396 | every step keeps a publisher on the way to each live subscription of its topic, or past it with the subscription matched, until the bus closes |
| `ContentBusOutcomes.FinishedPublishHasOffered` | go/pkg/contentbus/controller.go:274-396 | in every run a publisher that began after a subscription of its topic was live, and has returned from a bus still open, has offered its event to it exactly once |
| `ContentBusOutcomes.StepKeepsOwners` | go/pkg/contentbus/controller.go:243-269 | every step keeps channels and calls of Subscribe in one-to-one agreement |
| `ContentBusOutcomes.FinishedSubscribeHasChannel` | go/pkg/contentbus/controller.go:243-269 | in every run a Subscribe with a topic that has returned from a bus still open owns one channel, open, live and of its topic; every channel belongs to one Subscribe of its topic |
| `ContentBusOutcomes.FinishedCloseHasClosed` | go/pkg/contentbus/controller.go:319-355 | in every run, once any call of Close has returned, the bus and every channel ever made are closed |
| `Correlator.StepKeepsInv` | go/node/controller.go:41-115 | every step of a requester or a response handler keeps entries, handlers and channels matched |
| `Correlator.StepKeepsGenuine` | go/node/controller.go:41-115 | every step keeps what handlers, channels and results hold among the messages that came in |
| `Correlator.NeverDrops` | go/node/controller.go:54-59 | the branch for a full channel is never taken |
| `Correlator.ResponsesAreCorrelated` | go/node/controller.go:41-115 | in every interleaving with unique IDs, a returned message is one that came in, unaltered, and replies to its own request, at most one response enters each channel, and every pending entry belongs to a request in flight |
| `Correlator.NoResponseIsIgnored` | go/node/controller.go:41-115 | in every interleaving with unique IDs, a request in flight has its entry pending, or a handler on the way to its channel, or its one response sent |
| `Correlator.SentResponseCanBeTaken` | go/node/controller.go:54-115 | in every run a request that waits when its response has been sent can take it and return it |
| `Correlator.FailsExactly` | go/node/controller.go:63-115 | in every run a request that has returned has no message if and only if it could not connect or send, or timed out |
| `Correlator.SendMeetsClosedChannelExactly` | go/node/controller.go:51-97 | the send after unlocking panics if and only if its requester has returned |
| `Correlator.LateResponsePanics` | go/node/controller.go:51-97 | a run in which that happens |
| `CorrelatorDrain.StepSpends` | go/node/controller.go:41-115 | every step of a request or a response uses up part of a finite load |
| `CorrelatorDrain.EveryScheduleReturns` | go/node/controller.go:41-115 | every schedule with unique IDs ends within a bounded number of steps, and where it ends every request has returned, every response is dealt with and no entry is pending |

## Left out

- Cryptography (ECDH, HKDF, HMAC, ChaCha20-Poly1305, Ed25519) and the handshake: taken as given functions or absent.
- Memory allocated for a claimed count in the storage decoder: sequences are unbounded here; contents and offsets are modelled.
- The `Val` constructors and `As` accessors of storage values: single branches on a tag.
- Storage values whose tag and Go payload disagree: a value is built by the constructors, or carries an unsupported tag.
- PeerRegistry.Nearest: stands for the external KD-tree's nearest-neighbour search by its contract.
- PeerRegistry.Registry.AddPeer and the other mutators: the tree library accepts the points they give it; a refusal is modelled in RebuildKDTree alone.
- PeerRegistry.SortByScore: is an insertion sort on values; the order of ties is that of one stable sort, which no theorem uses.
- Float rounding of elapsed seconds and of registry scores, NaN scores, and overflow of the token arithmetic.
- `SelectNearestPeers`, `GetPeersByScore`, the iterators and the read-only accessors of the registry: the top-k query and the nearest peer are the hard ones.
- The public-key allowlist, auth modes and their sidecar file.
- Caller aliasing of peers held by the registry: peers are values.
- The bytes of one write to the temporary file: opening it and writing it are two steps, and the write itself is one, so two writes do not mix in it.
- The saveMu sections of the registry are one step each, and a writer waiting for mu does not hold back readers there.
- Load errors, and the loss of monotonic clock readings in a save.
- Publish without an identity, Publish's broadcast to peers, and Close's stopping of transport and registry, in the content bus: delivery and the two locks are modelled.
- Payload cloning in the content bus: events are values.
- RegistryClose.CloseFlushesExactly: is about schedules in which no mutator runs after Close took saveMu; with mutators, CloseFlushesSinceExactly says what the file holds.
- RegistryClose.CloseFlushesWhenAlone: has the same limit.
- RegistryFile.CloseFlushesSinceExactly: is about schedules in which saves do not overlap; CloseMayLeavePartialFile shows what an overlap can do.
- Connection limits, the `Connected` flag against open connections, keepalive, TLS and socket timeouts.
- JSON messages, envelopes, buffer pool, bundles, identity, services, HTTP API, workers, dispatcher and logging.
