# Verification of wolfP11's core

wolfP11 is a PKCS#11 library over software keys, PIV cards, a wolfHSM server and
`.p11k` keystore files. This project models the parts of it that carry their own
logic and proves what they promise. `dafny verify dfyconfig.toml` checks all of it.

- **Keystore codec** (`Bytes`, `CborHead`, `CborItem`, `Payload`, `PayloadGrammar`,
  `PayloadLaws`, `PayloadOrder`, `PayloadNames`, `PayloadRefusals`, `KeystoreCodec`). The CBOR payload has a grammar, written
  independently of the code. The skipper and the decoder are proved to accept exactly the
  grammar; round trips, truncation, insensitivity to order and extension, and "re-encoding
  never grows" follow from it. The buffer-writing encoder and the cursor-driven decoder
  are methods over arrays, proved equal to the functions.
- **Keystore file** (`Container`, `Transfers`, `KeystoreFile`). Header, sealing and size limits, with
  the exact condition under which a created file loads again; and the replacement of the
  file through a temporary one, under every sequence of short writes, interruptions,
  errors and crashes.
- **PKCS#1 v1.5 blocks** (`Pkcs1`), **PIV framing and chaining** (`PivTlv`,
  `PivCommands`) against an arbitrary card, and the **CCID sequence latch** (`Ccid`),
  composed in `PivOverCcid`.
- **Hotplug queue** (`HotplugRing`, `HotplugProtocol`). The ring buffer, and a state
  machine of any number of threads, two locks and a condition variable under every
  schedule.
- **PKCS#11 tables** (`Tables`, `TableOps`, `Cryptoki`). Sessions, key objects and slots.
  `Cryptoki.Library` updates three arrays in place, call by call as the C code does; each
  method is proved to produce the state and the result that `TableOps` specifies.
  `Cryptoki.PerformAll` turns this into a statement about whole runs, so that the laws
  below are laws about those methods. `CallOutcomes` and `EventOutcomes` say from the state before
  each call what it answers and which records it changes, without the specification's functions.
- **Laws of the tables over all runs** (`SessionLaws`, `SlotLaws`, `LivenessLaws`,
  `OwnershipLaws`, `KeystoreLaws`, `PrivacyLaws`, `ApiLaws`), for tables of any size.
  `CrossSlotRun` and `ConcreteRuns` are runs, worked out call by call, in which something does
  not hold that one might expect.

Many functions are specifications; the row for a behaviour names the lemma or method
whose contract states the property, not the function that computes it.

## Where the code and its comments differ

The model follows the code.

- `src/wp11_keystore.c:119-126` allows 64 entries and calls 512 KB a safe upper bound for
  them at about 4300 bytes an entry. With a certificate an entry can take 8322 bytes:
  create writes 64 maximal entries and load refuses the file for its size
  (`Container.SixtyThreeAlwaysLoad`).
- `src/wp11_keystore.c:1261-1288` lets create write entries that load will not read: a key or
  certificate over 4096 bytes, or another key type than RSA and EC, as long as the encoding fits
  its buffer. The old file has been replaced by then (`Container.CreateThenLoad`,
  `Container.LongKeyIsCreatedInVain`).
- `src/wp11_keystore.c:976-977` calls a ciphertext over the maximum a malformed or too large
  payload. A file that really is too large never gets there: lines 935-939 refuse it as
  truncated. Only a length field that contradicts the size of its file is called malformed
  (`Container.SizeErrors`).
- `src/wp11_pkcs11.c:337` says that the keys of PIV cards and of persistent keystores are
  always private. Of the three places that load such keys only `ks_slot_populate_keys` sets the
  mark; the PIV branch of C_Login and `soft_slot_populate_keys` leave it as the record's last
  user left it
  (`ApiLaws.LoadedObjectIsPrivateIff`, `PrivacyLaws.PublicSessionCanBeginIff`,
  `ConcreteRuns.PivKeyNeedsNoLogin`).
- `src/wp11_pkcs11.c:4717-4749` clears stale operations so that none names a deleted key.
  C_SignInit and its siblings do not compare the key's slot with the session's, so a
  session of another slot can be left with one (`CrossSlotRun.LeavesDeadKey`); the exact
  conditions are the lemmas of `LivenessLaws` that end in `Iff`.
- `src/wp11_pkcs11.c:4052-4059` answers CKR_DEVICE_MEMORY and clears the soft token's keys also
  when records are free but an entry cannot be imported (`LivenessLaws.LoginFallsShortIff`).
- `src/wp11_pkcs11.c:5940-5941` protects a running decryption from a second C_DecryptInit, but only
  after the key has been checked: with a bad handle, a certificate, or a private key without a
  login the cleanup at lines 6092-6094 ends it (`ApiLaws.DecryptionSurvivesIff`,
  `ConcreteRuns.BadHandleEndsDecryption`).
- `src/wp11_pkcs11.c:4078` stores a loaded keystore over one that is still there if the last session
  was closed without a logout. The old one is not freed, at finalize either
  (`KeystoreLaws.FinalizeFreesKeystoresIff`, `ConcreteRuns.FirstKeystoreIsLost`).
- `src/wp11_pkcs11.c:379` says that slots are cleared on departure. They stay assigned to
  their token until finalize (`SlotLaws.TokenKeepsItsSlot`).
- `src/wp11_pkcs11.c:105-107` excepts C_WaitForSlotEvent from taking `g_lock`; it takes and
  releases it before it goes to the queue, and the protocol model has it do so.
- `src/wp11_backend_wolfhsm.c:290-296` looks for the separator from index 10 on and accepts
  zeros before it, which section 7.2.2 of RFC 8017 does not (`Pkcs1.StrictCheckIsOneTestMore`).

## Model

| member | source | states |
|---|---|---|
| Bytes.ReadWriteU32Be | src/wp11_keystore.c:173-187 | reading a big-endian word back gives the number that was written, for every 32-bit number |
| Bytes.WriteReadU32Be | src/wp11_keystore.c:173-187 | writing back a word that was read gives the same four bytes |
| Bytes.BigEndianOrder | src/wp11_keystore.c:173-187 | the byte order, written out |
| Bytes.CStringOfPlain | src/wp11_keystore.c:563-578 | a label without NUL is its own C string, so `strlen` sees all of it |
| CborHead.ReadsEveryForm | src/wp11_keystore.c:242-297 | every head of RFC 8949 section 3 in one of the four forms the code knows (in the initial byte, or one, two or four bytes), minimal or not, is read as its major type, value and size |
| CborHead.ReadsOnlyHeads | src/wp11_keystore.c:242-297 | whatever the head reader accepts is such a head, so the eight-byte form is refused: together with the previous row, an exact description of the reader |
| CborHead.ShortestIsShortest | src/wp11_keystore.c:516-560 | no head that can carry a value is shorter than the one the writer picks |
| CborHead.WriteHead | src/wp11_keystore.c:516-560 | writes the canonical head at `pos` and nothing else, or fails exactly when it does not fit, leaving the buffer as it was |
| CborItem.SkipRecognisesItems | src/wp11_keystore.c:424-508 | the skipper succeeds with n if and only if an item of the grammar (integers, byte and text strings, nested arrays and maps, depth at most 8) stands there and takes exactly n bytes |
| CborItem.SkipsEveryItem | src/wp11_keystore.c:424-508 | one half of it: no legal item is refused, whatever its head forms |
| CborItem.SkipsOnlyItems | src/wp11_keystore.c:424-508 | the other half: from a successful skip the item is recovered |
| CborItem.PairGuardIsHarmless | src/wp11_keystore.c:477-493 | an item of the bare format, of any nesting, that takes at most 512 KB passes the pair-count guard in every map inside it |
| CborItem.SkipsEveryFittingItem | src/wp11_keystore.c:424-508 | so the skipper steps over every item of the bare format that fits a payload and is nested at most 8 deep |
| CborItem.CborSkip | src/wp11_keystore.c:424-508 | the recursive method computes the skip function and calls itself at most once per byte consumed on success, and never more often than bytes and nesting levels remain |
| CborItem.SkipChildren | src/wp11_keystore.c:467-503 | the item loop of the array and map branches, with the same call bound |
| PayloadGrammar.DecodeRecognisesPayloads | src/wp11_keystore.c:606-760 | the decoder returns entries es after n bytes if and only if a document of the payload grammar stands at the front, takes n bytes and means es: an independent description of everything the decoder accepts |
| PayloadGrammar.DecodesEveryDoc | src/wp11_keystore.c:606-760 | every legal document decodes to its meaning: last occurrence of a repeated field wins, unknown fields are skipped, required fields are present |
| PayloadGrammar.DecodesOnlyDocs | src/wp11_keystore.c:606-760 | from a successful decode the document is recovered |
| PayloadGrammar.DecodesEveryPair | src/wp11_keystore.c:651-755 | one legal key/value pair updates exactly its field |
| PayloadLaws.EncodeIsDoc | src/wp11_keystore.c:765-863 | what the encoder writes is a document of the grammar whose meaning is the entries with their labels cut at the first NUL |
| PayloadLaws.RoundTrip | src/wp11_keystore.c:606-863 | decoding an encoding followed by any bytes returns the entries, labels as C strings, and stops where the encoding ends |
| PayloadLaws.ExactRoundTrip | src/wp11_keystore.c:606-863 | the same entries exactly, when no label holds a NUL |
| PayloadLaws.DecodeIgnoresWhatFollows | src/wp11_keystore.c:606-760 | a successful decode gives the same result on every extension of the buffer |
| PayloadLaws.CutPayloadIsRefused | src/wp11_keystore.c:242-413 | every accepted payload, in any form, is an error when it is cut anywhere before the position where the decoder stops |
| PayloadLaws.NoStrictPrefixDecodes | src/wp11_keystore.c:242-413 | in particular every truncation of an encoded payload |
| PayloadLaws.ReencodingNeverGrows | src/wp11_keystore.c:606-863 | for every payload that decodes (any order, head forms, repeated or unknown fields) the re-encoding is no longer than the bytes consumed, and decodes to the same entries |
| PayloadLaws.PairsPayForFields | src/wp11_keystore.c:651-755 | the pairs of a map take at least the bytes that the fields they leave behind will cost to write |
| PayloadOrder.OrderDoesNotMatter | src/wp11_keystore.c:651-755 | two lists of pairs that say the same about each known field, without contradicting themselves, build the same entry in any order |
| PayloadOrder.UnknownPairsAreIgnored | src/wp11_keystore.c:742-749 | a pair with an unrecognised key may be inserted anywhere between the pairs of an entry, repeated fields included |
| PayloadOrder.OnlyKnownPairsStore | src/wp11_keystore.c:651-755 | what an entry stores depends on its recognised pairs alone, in their order |
| PayloadOrder.DecodeIgnoresUnknownPairs | src/wp11_keystore.c:606-760 | the decoder returns the same entries for documents that differ only in unrecognised pairs, any number of them anywhere, and in head forms |
| PayloadOrder.PermutationsSayTheSame | src/wp11_keystore.c:651-755 | a permutation of pairs is such a list |
| PayloadOrder.StoredIsSaid | src/wp11_keystore.c:651-755 | a field is stored with a value only if some pair says so, and is stored if any pair names it |
| PayloadOrder.DecodeIgnoresFieldOrder | src/wp11_keystore.c:606-760 | documents whose maps say the same, one by one, decode to the same entries whatever follows them |
| PayloadNames.KeyNamesIff | src/wp11_keystore.c:657-742 | a key names a field if and only if it is the name in ASCII, or the name followed by a NUL and anything, as `strcmp` on the terminated copy has it |
| PayloadNames.LastOneCounts | src/wp11_keystore.c:651-755 | of several values for one field the last is stored |
| PayloadNames.RequiredFieldsIff | src/wp11_keystore.c:753-756 | a map is an entry if and only if its legal pairs name all of id, label, key_type and der_bytes |
| PayloadNames.SmallPayload | src/wp11_keystore.c:765-863 | the bytes of a one-entry payload with a short label and key, written out |
| PayloadOrder.EncodingFitsBuffer | src/wp11_keystore.c:1268-1285 | the buffer that create allocates holds the encoding of any entries within limits |
| PayloadOrder.EntrySize | src/wp11_keystore.c:765-863 | one entry takes at most 8322 bytes, and exactly that many only with label 64, key 4096 and certificate 4096 |
| PayloadOrder.PayloadBound | src/wp11_keystore.c:119-126 | 63 entries never exceed 524288 bytes and reach it exactly when all are maximal; 64 maximal entries exceed it |
| KeystoreCodec.StoreField | src/wp11_keystore.c:665-749 | one value decoded into its field of one array element, with the specified error otherwise, other entries untouched |
| KeystoreCodec.FillEntry | src/wp11_keystore.c:651-755 | the pair loop over one map fills one array element as specified, with the same error otherwise |
| KeystoreCodec.DecodePayload | src/wp11_keystore.c:606-760 | the decoder with its cursor and its entries array returns what the decoding function does, element by element |
| KeystoreCodec.WriteEntry | src/wp11_keystore.c:787-858 | one entry appended at the cursor, or a failure exactly when the entry cannot be encoded or does not fit |
| KeystoreCodec.EncodePayload | src/wp11_keystore.c:765-863 | the writer into a fixed buffer produces the encoding, or fails exactly when it does not fit or a field is over its limit |
| Container.HeaderFields | src/wp11_keystore.c:1361-1367 | each field of the 57-byte header is read back from its offset, whatever the iteration count |
| Container.LoadOpensSealedFile | src/wp11_keystore.c:869-1110 | for every iteration count from 100000 to INT_MAX: a file sealed under the key derived with the count in its header loads to the decoded payload; TRUNCATED exactly when the payload is over 512 KB, CBOR when it is empty or does not decode |
| Container.LoadOutcome | src/wp11_keystore.c:869-1110 | for every file, by the fields that stand in it: which error it gets, in the order of the checks, and otherwise that salt, count and nonce of that very header open its body |
| Container.FileHasParts | src/wp11_keystore.c:955-984 | every file with room for a header has such fields, so the previous row leaves none out |
| Container.CreateOutcome | src/wp11_keystore.c:1223-1367 | when create gets as far as writing, with which error it stops otherwise, and the bytes it sets out to write, under 200000 iterations |
| PayloadRefusals.EntryRefused | src/wp11_keystore.c:666-755 | an entry with another key type, or a key or certificate over 4096 bytes, is refused where the encoder wrote it |
| PayloadRefusals.DecodesOnlyWithinLimits | src/wp11_keystore.c:606-863 | of everything the encoder writes for at most 64 entries the decoder accepts exactly the payloads whose entries are all within the limits |
| Container.SizeErrors | src/wp11_keystore.c:930-984 | which error a file of the wrong size gets: TRUNCATED outside the sizes a keystore can have, CBOR for a length field over the maximum, which then contradicts the size, TRUNCATED for one that asks for more than is there |
| Container.CreateThenLoad | src/wp11_keystore.c:1223-1460 | for everything create accepts: load returns the entries if and only if the payload is at most 512 KB and every entry is within the limits that only load enforces; otherwise TRUNCATED for the size, CBOR for the limits |
| Container.WithinLimitsIsCreated | src/wp11_keystore.c:1261-1288 | entries within the limits are always created, so for them the size alone decides |
| Container.LongKeyIsCreatedInVain | src/wp11_keystore.c:1261-1288 | one key of 4097 bytes: create writes a file, load refuses it |
| Container.SixtyThreeAlwaysLoad | src/wp11_keystore.c:930-984 | 63 entries within limits always load again, and 64 maximal ones are written but never load |
| Container.LoadThenCreate | src/wp11_keystore.c:869-1460 | whatever load returned can be created again under any PIN, in a file no longer than the old one, and loads to the same entries |
| Transfers.WriteOutcomes | src/wp11_keystore.c:213-230 | short writes and EINTR in any pattern complete the write once enough bytes have been moved, and it stops short if and only if the machine does |
| Transfers.WriteFailure | src/wp11_keystore.c:213-230 | a write fails only right after a call that failed or moved nothing, with too few bytes moved until then |
| Transfers.ReadOutcomes | src/wp11_keystore.c:193-210 | the same for reading a whole file |
| Transfers.ReplaceSucceedsIff | src/wp11_keystore.c:1386-1432 | a replacement succeeds if and only if open, fsync and rename do and each of the three writes completes, in whatever portions |
| Transfers.SteadyMachineSucceeds | src/wp11_keystore.c:1386-1432 | if every call does something and there are enough of them, it succeeds |
| Transfers.VerdictIsFinal | src/wp11_keystore.c:1386-1442 | a replacement that has ended, well or not, has ended so whatever the calls after it would do; it is without a verdict only if the machine stopped on the way |
| KeystoreFile.Disk.WriteAll | src/wp11_keystore.c:213-230 | on success the whole buffer has been appended; status and calls used are exactly those of the outcome laws |
| KeystoreFile.Disk.Replace | src/wp11_keystore.c:1369-1442 | for every sequence of system call outcomes, wherever it stops: the path holds the old bytes or the complete new file, a crash can reveal nothing else, an error leaves the path as it was and the temporary file gone exactly if the unlink succeeded; and which of the three it is follows from the outcomes alone |
| KeystoreFile.ReplaceSurvivesCrashes | src/wp11_keystore.c:1369-1442 | starting from a file on stable storage or none, every crash image is the old bytes or the new ones |
| KeystoreFile.ReadAll | src/wp11_keystore.c:193-210 | on success the buffer holds the front of the file; the status is exactly that of the outcome laws, for any portions |
| KeystoreFile.BuildHeader | src/wp11_keystore.c:1361-1367 | the header assembled field by field at fixed offsets |
| KeystoreFile.SaveKeystore | src/wp11_keystore.c:1223-1460 | create as a whole: a parameter or encoding error or a path that is too long touches nothing, otherwise the specified file reaches the path with the crash safety and the status of the replacement |
| KeystoreFile.LoadKeystore | src/wp11_keystore.c:869-1110 | load as a whole, in the order of its steps: the PIN, open and fstat, the size of the file, the bytes in whatever portions they arrive, and then the specified result; no result exactly when the machine stopped before |
| KeystoreFile.OpenFile | src/wp11_keystore.c:955-1110 | the header checks, key derivation, decryption and decoding in the order they are made |
| Pkcs1.PadSign | src/wp11_backend_wolfhsm.c:199-222 | writes the type-01 block for exactly the messages of at most size - 11 bytes, and nothing else |
| Pkcs1.UnpadVerify | src/wp11_backend_wolfhsm.c:236-252 | returns a message only if the block is the padding of that message, and refuses only blocks that pad no message: an exact inverse |
| Pkcs1.PadLayout | src/wp11_backend_wolfhsm.c:199-222 | a block is the padding of a message if and only if it is 00 01, at least eight bytes FF, 00 and the message (section 9.2 of RFC 8017) |
| Pkcs1.PadIsInjective | src/wp11_backend_wolfhsm.c:199-222 | no block is the padding of two messages |
| Pkcs1.VerifyBlock | src/wp11_backend_wolfhsm.c:508-520 | a signature verifies if and only if the public operation yields the padding of the message |
| Pkcs1.Sign | src/wp11_backend_wolfhsm.c:379-416 | succeeds exactly for messages that fit a key of at most 512 bytes, a buffer length of 16 bits and a server that answers, and then returns the private operation on the padded block |
| Pkcs1.Verify | src/wp11_backend_wolfhsm.c:491-520 | no verdict exactly when the signature is too long to send or the server fails; otherwise valid if and only if the public operation yields the padding of the message |
| Pkcs1.SignThenVerify | src/wp11_backend_wolfhsm.c:379-520 | with inverse key operations, a signature verifies for its own message and for no other |
| Pkcs1.ScanSeparator | src/wp11_backend_wolfhsm.c:287-298 | the branchless scan returns the first zero at index 10 or later, as a plain search would |
| Pkcs1.UnpadDecrypt | src/wp11_backend_wolfhsm.c:273-308 | the type-02 unpadding in place: result, length and untouched buffer on refusal |
| Pkcs1.AcceptedBlocks | src/wp11_backend_wolfhsm.c:273-308 | accepted if and only if the block is 00 02 PS 00 M with at least eight padding bytes and no zero after the eighth |
| Pkcs1.RecoversEveryMessage | src/wp11_backend_wolfhsm.c:273-308 | every block of section 7.2.1 of RFC 8017 gives its message back |
| Pkcs1.StrictCheckIsOneTestMore | src/wp11_backend_wolfhsm.c:290-296 | the check of section 7.2.2 of RFC 8017 accepts the same blocks except those with a zero at indices 2 to 9 |
| Pkcs1.ZeroInPaddingIsTolerated | src/wp11_backend_wolfhsm.c:290-296 | an input on which the two differ |
| Pkcs1.Decrypt | src/wp11_backend_wolfhsm.c:533-573 | a plaintext exactly when the ciphertext can be sent, the server answers and its block is an accepted one whose message fits the buffer; the buffer is untouched otherwise |
| Pkcs1.EncryptThenDecrypt | src/wp11_backend_wolfhsm.c:533-573 | with inverse key operations and any padding of non-zero bytes the message comes back, exactly when those conditions hold |
| PivTlv.BerEncode | src/wp11_proto_piv.c:434-454 | writes the length field, or returns 0 exactly above 65535 |
| PivTlv.DecodeUndoesEncode | src/wp11_proto_piv.c:110-144 | decoding inverts encoding on 0..65535 whatever follows, and no accepted field for that length is shorter |
| PivTlv.ExpectFindsElement | src/wp11_proto_piv.c:166-193 | an element that stands at the position and ends within the container is found, with its value |
| PivTlv.DecodesLengthForms | src/wp11_proto_piv.c:110-144 | a length is read from n bytes if and only if these are the short form or a long form of one or two bytes for it, minimal or not, whatever follows |
| PivTlv.ExpectIff | src/wp11_proto_piv.c:166-193 | an element is found if and only if its tag stands at the position, a length form follows, and the value ends within the container; a wrong tag is reported if and only if a byte is there and differs; anything else is malformed |
| PivTlv.ExpectUnwraps | src/wp11_proto_piv.c:166-193 | at the front of a byte string tlv_expect finds exactly the elements tag, length in some form, value |
| PivTlv.BuildCommand | src/wp11_proto_piv.c:505-567 | the frame builder fails exactly above 247 bytes, and otherwise the announced Lc equals the bytes written and all 261 bytes suffice |
| PivTlv.CommandReadsBack | src/wp11_proto_piv.c:509-567 | reading the command back with tlv_expect recovers the input and leaves nothing over |
| PivTlv.ShortCommand | src/wp11_proto_piv.c:509-567 | the command for an input of up to 123 bytes, byte for byte |
| PivTlv.LargestInput | src/wp11_proto_piv.c:501-536 | a one-byte Lc can count the template if and only if the input is at most 247 bytes |
| PivCommands.GeneralAuthenticate | src/wp11_proto_piv.c:478-642 | sign and ecdh against any card: command, one retry on 6C xx, status mapping, response parsing |
| PivCommands.Sign | src/wp11_proto_piv.c:478-642 | the exchange with the challenge under tag 81 and ENCODING for a wrong outer tag |
| PivCommands.Ecdh | src/wp11_proto_piv.c:1152-1287 | the exchange with the peer key under tag 85 and SW for a wrong outer tag |
| PivCommands.ParsesIff | src/wp11_proto_piv.c:617-639 | a response body yields a value if and only if it begins with a 7C element that begins with an 82 element of that value, lengths in any form, and the value fits |
| PivCommands.ParseErrors | src/wp11_proto_piv.c:617-639 | which error any other body gets: empty, another outer tag, no such element, another inner tag, too long for the caller |
| PivCommands.StatusErrors | src/wp11_proto_piv.c:228-245 | which status word gives which error |
| PivCommands.AuthenticateOutcome | src/wp11_proto_piv.c:569-641 | sign and ecdh by what the card answers: a lost or short reply, 6C xx and then the second reply whatever it is, a status word other than 90 00, a response body |
| PivCommands.ResponseParses | src/wp11_proto_piv.c:617-639 | a well-formed 7C/82 response yields exactly its value, whatever surplus the template or the response carries |
| PivCommands.SignatureComesThrough | src/wp11_proto_piv.c:569-641 | a card that answers with such a response, at once or after 6C xx, delivers the signature to the caller |
| PivCommands.GatherChunks | src/wp11_proto_piv.c:761-815 | the chaining loop fills the buffer as specified and, against any card, ends after at most 4097 GET RESPONSE commands less the bytes already there |
| PivCommands.FetchObject | src/wp11_proto_piv.c:733-815 | command, first reply and loop: at most 4097 GET RESPONSE commands |
| PivCommands.FetchJoinsAnySplit | src/wp11_proto_piv.c:752-815 | a fetch returns an object if and only if the card delivers it in parts, in any split, and it is at most 4096 bytes |
| PivCommands.ChunkingIsIrrelevant | src/wp11_proto_piv.c:752-815 | two cards that deliver one object in different splits cannot be told apart |
| PivCommands.GetCert | src/wp11_proto_piv.c:668-840 | wp11_piv_get_cert as a whole |
| PivCommands.Attest | src/wp11_proto_piv.c:1015-1135 | wp11_piv_attest as a whole |
| PivCommands.ExtractsIff | src/wp11_proto_piv.c:817-838 | an object yields a certificate if and only if it begins with a 53 element that begins with a 70 element of that value, and it fits; BUFSIZE if and only if such a certificate does not fit; ENCODING otherwise |
| PivCommands.CommandBytes | src/wp11_proto_piv.c:674-728 | the GET DATA command of each PIV slot, byte for byte; no other slot has one |
| PivCommands.FirstReply | src/wp11_proto_piv.c:730-765 | how a fetch goes on after the first reply, by its status word |
| PivCommands.CertificateComesThrough | src/wp11_proto_piv.c:752-840 | however the card splits a 53 { 70 { cert } ... } object, the certificate comes back |
| PivCommands.TrickleTakesAllRounds | src/wp11_proto_piv.c:767-810 | a card that attains the bound |
| Ccid.LittleEndianRoundTrip | src/wp11_ccid.c:82-97 | the two little-endian helpers are inverse |
| Ccid.CheckReadsDataBlock | src/wp11_ccid.c:378-427 | a successful answer is accepted exactly when it carries the number of the command and fits, whatever surplus the transfer delivered |
| Ccid.AcceptsIff | src/wp11_ccid.c:378-427 | a frame is accepted with given data if and only if it is 80, the length in little endian, a slot, the number of the command, a status with bits 6-7 zero and bits 0-1 neither 1 nor 2, two bytes, the data and any surplus, and the data fits |
| Ccid.CheckErrors | src/wp11_ccid.c:378-427 | which error any other frame gets; a failed command and a request for more time are both STATUS |
| Ccid.FrameLayout | src/wp11_ccid.c:303-315 | the command message, byte for byte |
| Ccid.ExchangeErrors | src/wp11_ccid.c:291-372 | what the caller learns when no response arrives, and that only a lost response closes the latch |
| Ccid.LittleEndianOrder | src/wp11_ccid.c:82-97 | the byte order of the length field, written out |
| Ccid.Context.Apdu | src/wp11_ccid.c:267-427 | one exchange updates sequence number and latch in place as the step function says |
| Ccid.RunKeepsInStep | src/wp11_ccid.c:296-388 | in every run: no latch, no answer outstanding; and a latched connection never changes again |
| Ccid.AcceptedAnswersThisCommand | src/wp11_ccid.c:318-388 | after any run, through any wrap of the 8-bit sequence number, an accepted response is the answer to the command just delivered |
| Ccid.LatchIsPermanent | src/wp11_ccid.c:348-372 | once a response is lost, no later call delivers anything or is accepted |
| PivOverCcid.StepFollows | src/wp11_ccid.c:267-427 | one exchange with a chip behind the reader, in order or with any trouble, gives the reply of one fixed card, and latches exactly when a response was lost |
| PivOverCcid.ConversationIsWithCard | src/wp11_proto_piv.c:752-812 | a whole PIV conversation on a fresh connection is a conversation with that card, so the results about arbitrary cards hold over CCID |
| PivOverCcid.QuietConversationIsWithChip | src/wp11_ccid.c:267-427 | without trouble every reply is the answer of the chip to that very command, through any number of wraps of the sequence number |
| HotplugRing.PushAppends | src/wp11_pkcs11.c:947-974 | a push appends, or with 63 events waiting changes nothing but the drop counter |
| HotplugRing.PopTakesOldest | src/wp11_pkcs11.c:8287-8310 | a pop takes the oldest event and leaves the others in order |
| HotplugRing.HotplugQueue.PushEvent | src/wp11_pkcs11.c:954-972 | the critical section on the ring indices does the push |
| HotplugRing.HotplugQueue.Poll | src/wp11_pkcs11.c:8283-8294 | the non-blocking read delivers the oldest event or none |
| HotplugProtocol.RunKeepsInv | src/wp11_pkcs11.c:101-116 | under any schedule of any number of threads: lock ownership matches program positions, nothing is lost uncounted, no sleeper is forgotten |
| HotplugProtocol.EveryEventAccountedFor | src/wp11_pkcs11.c:947-974 | in every interleaving of the threads at most 63 events wait; delivered followed by queued is a subsequence of what was offered, and the rest of it, event for event, is what was counted as dropped |
| HotplugProtocol.QueueHolderNeverWaits | src/wp11_pkcs11.c:101-116 | the holder of g_hotplug_mutex is always at a place from which it can move; that no such place asks for g_lock is built into the program positions, as it is into the code |
| HotplugProtocol.UndisturbedCall | src/wp11_pkcs11.c:947-974 | what one call comes to when nobody disturbs it: a producer pushes its event and wakes every sleeper, a reader takes the oldest event, on an empty queue a poll changes nothing and a waiter sleeps; both mutexes are free again |
| HotplugProtocol.NoDeadlock | src/wp11_pkcs11.c:101-116 | whenever a thread is awake inside a call, some such thread can move |
| HotplugProtocol.SleepersHaveNothingToRead | src/wp11_pkcs11.c:8296-8310 | nobody sleeps while events are queued, except while a producer holding the mutex is about to broadcast, can do so, and thereby wakes the sleeper |
| SessionLaws.StepKeepsSessions | src/wp11_pkcs11.c:3274-4246 | every call and event keeps the session invariant, which includes that unused records are zero |
| SessionLaws.SessionsAreConsistent | src/wp11_pkcs11.c:3274-4246 | after every run: sessions of one slot share one login state, the state field is the function of login and kind, an SO login means read/write sessions only, and every open session has its token present |
| SlotLaws.StepFollows | src/wp11_pkcs11.c:677-938 | every call and event moves the slot table as the registry of token identities moves |
| SlotLaws.RunFollows | src/wp11_pkcs11.c:677-938 | so after every run the table represents the registry |
| EventOutcomes.LiesUnderIff | src/wp11_pkcs11.c:916-918 | the path test holds if and only if the path is the directory, or the directory, a slash and anything |
| EventOutcomes.DirDepartureByPaths | src/wp11_pkcs11.c:907-938 | the departure of a directory from the paths alone: exactly the present files that are it or lie below it are marked absent, with their sessions and objects cleared and their keystores freed; every other slot, session, object and keystore stays |
| EventOutcomes.DepartDirByPaths | src/wp11_pkcs11.c:907-938 | in the registry exactly the identities of such files lose their mark |
| EventOutcomes.UsbArrivalOutcome | src/wp11_pkcs11.c:677-711 | a device seen before is marked present in its slot, a new one takes the lowest unused slot with these fields, and without one it is turned away |
| EventOutcomes.FileArrivalOutcome | src/wp11_pkcs11.c:807-856 | the same for a keystore file; a path over 255 characters is passed over |
| EventOutcomes.UsbDepartureOutcome | src/wp11_pkcs11.c:747-791 | which slot a departing device leaves, and everything that changes with it |
| EventOutcomes.FileDepartureOutcome | src/wp11_pkcs11.c:861-899 | the same for a keystore file, compared in its first 255 characters |
| SlotLaws.TokenKeepsItsSlot | src/wp11_pkcs11.c:677-938 | a token keeps its slot number until finalize, no other slot ever has that identity, and token_present says whether its last event was an arrival |
| SlotLaws.SlotZeroIsSoft | src/wp11_pkcs11.c:373-385 | slot 0 is always the soft token |
| LivenessLaws.StepKeepsLive | src/wp11_pkcs11.c:747-938 | a call keeps that active operations name live keys of their own slot, if it starts none on another slot's key and is not a login that falls short while an operation uses an object it would sweep away |
| LivenessLaws.OperationsNameLiveKeys | src/wp11_pkcs11.c:3787-4754 | after every run of such calls, every active operation names a live key object |
| LivenessLaws.PrivateKeysNeedLogin | src/wp11_pkcs11.c:6849-6853 | after every such run, an operation on a private key belongs to a session that is logged in to that key's token |
| LivenessLaws.UsbDepartureIff | src/wp11_pkcs11.c:747-791 | without the rule: a USB departure preserves liveness if and only if no session of another slot was using one of the objects cleared |
| LivenessLaws.FileDepartureIff | src/wp11_pkcs11.c:861-899 | the same for the departure of a keystore file |
| LivenessLaws.LogOutIff | src/wp11_pkcs11.c:4155-4246 | the same for C_Logout |
| LivenessLaws.DestroyAlwaysKeepsLive | src/wp11_pkcs11.c:4678-4754 | C_DestroyObject preserves liveness whichever slots are involved |
| LivenessLaws.DirDepartureIff | src/wp11_pkcs11.c:907-938 | the same for the departure of a directory: no session of a slot that stays may be using a keystore object of a slot that goes |
| LivenessLaws.DirDepartureForm | src/wp11_pkcs11.c:907-938 | the loop at one glance: sessions and keystore objects of exactly the slots that go are cleared |
| LivenessLaws.LoginFallsShortIff | src/wp11_pkcs11.c:3858-4119 | when C_Login answers CKR_DEVICE_MEMORY, from the state before: a PIV login with fewer than four free records, a keystore login with fewer free records than entries, a soft-token login with that or an entry that cannot be imported, after the earlier checks |
| LivenessLaws.FailedLoginIff | src/wp11_pkcs11.c:4052-4086 | such a login preserves liveness if and only if no operation used an object it sweeps away |
| LivenessLaws.LoginKeepsLive | src/wp11_pkcs11.c:3787-4153 | every other login preserves it |
| LivenessLaws.LoadTokenKeys | src/wp11_pkcs11.c:3858-4119 | a login only turns free records into objects of its slot, except that one which falls short sweeps all objects of that slot and backend away |
| CrossSlotRun.LeavesDeadKey | src/wp11_pkcs11.c:6842-6853 | a run of eight calls and events, without the rule, that ends with an active operation on a key that is gone |
| OwnershipLaws.StepKeepsOwned | src/wp11_pkcs11.c:2516-2551 | every call and event keeps both ownership invariants |
| OwnershipLaws.SoftKeysReleasedOnce | src/wp11_backend_soft.c:286-322 | after every run in any order of destroy, logout and finalize: a soft key is released exactly when no object holds it, never twice, and a shared key counts its holders |
| OwnershipLaws.FinalizeReleasesEverything | src/wp11_pkcs11.c:2516-2536 | after finalize every soft key ever made has been released, once |
| OwnershipLaws.NoPointerIntoFreedKeystore | src/wp11_pkcs11.c:881-885 | no key object ever points into a freed keystore |
| ApiLaws.OpenSucceedsIff | src/wp11_pkcs11.c:3274-3345 | exactly when C_OpenSession succeeds |
| ApiLaws.OpenThenClose | src/wp11_pkcs11.c:3274-3364 | in every reachable state a new session has a fresh handle and the login state of its slot, and closing it gives back exactly the state before |
| CallOutcomes.OpenOutcome | src/wp11_pkcs11.c:3274-3345 | every answer of C_OpenSession from the state before, and the record it writes into the first free place |
| CallOutcomes.CloseAllOutcome | src/wp11_pkcs11.c:3366-3385 | every answer of C_CloseAllSessions; it closes the sessions of the slot and no other, as closing them one by one does |
| CallOutcomes.CloseOutcome | src/wp11_pkcs11.c:3347-3364 | every answer of C_CloseSession and its effect; the end of an operation clears its flag and no other |
| CallOutcomes.LoginAnswers | src/wp11_pkcs11.c:3787-4153 | every answer of C_Login from the state before and what token, file and cipher report, with a bad PIN told from other failures; unless it is CKR_OK or CKR_DEVICE_MEMORY nothing has changed |
| CallOutcomes.LoginSucceedsIff | src/wp11_pkcs11.c:3787-4153 | C_Login succeeds if and only if nobody is logged in on the slot and: for the SO, no read-only session is open and the soft token's file, if any, loads; for the user, a PIV card has a PIN it accepts and four free records, and a file has a PIN of 1 to 64 bytes, loads, fits and can be imported |
| CallOutcomes.LoginLoads | src/wp11_pkcs11.c:3915-4086 | what a successful user login loads: four keys and up to four certificates from a PIV card, all entries of a file as new soft keys or as pointers into the keystore that the slot then holds; nothing else changes but the sessions |
| CallOutcomes.LogoutOutcome | src/wp11_pkcs11.c:4155-4246 | every answer of C_Logout, and the whole state after it: sessions public, the objects of the connected card, the soft file or the loaded keystore gone, the keystore freed |
| CallOutcomes.BeginAnswers | src/wp11_pkcs11.c:5916-6096 | every answer of the four C_*Init calls and exactly when it is given; certificates are the objects of a card without a private part, and only C_EncryptInit takes them |
| CallOutcomes.DestroyOutcome | src/wp11_pkcs11.c:4678-4754 | every answer of C_DestroyObject, the freed record, and for every session which operations end |
| CallOutcomes.GenerateOutcome | src/wp11_pkcs11.c:7945-8053 | every answer of the soft path; the lower free record gets the public half, never private, the next one the private half, marked as asked, both of one new key |
| CallOutcomes.InitializeFinalizeOutcome | src/wp11_pkcs11.c:2226-2264 | every record after C_Initialize and after C_Finalize, and which keystores finalize frees |
| ApiLaws.LoginOutcome | src/wp11_pkcs11.c:3787-4153 | C_Login compares with the calling session's own login state; when each refusal happens; a refused login changes no session; a successful one marks all sessions of the slot and no other |
| ApiLaws.LogoutAfterLogin | src/wp11_pkcs11.c:4155-4246 | after a login and a logout nothing is loaded for the slot, the objects in use are those from before less those of the slot's token, all operations of the slot are over, and the keystore this login loaded is freed |
| ApiLaws.LogoutUndoesLoginIff | src/wp11_pkcs11.c:4155-4246 | so the slot table is restored if and only if nothing was loaded for the slot before, and the set of live objects if and only if the token had none that a logout clears |
| ApiLaws.LogoutLeavesNoSoftKey | src/wp11_pkcs11.c:1531-1592 | a login and a logout leave exactly the soft keys of those objects alive |
| ApiLaws.DestroyUndoesGenerate | src/wp11_pkcs11.c:7945-8053 | destroying both objects of a generated pair, in either order, keeps the shared key until the second and then releases it once, with all counts as before |
| ApiLaws.BeginOutcome | src/wp11_pkcs11.c:5916-6096 | from the state before: when each of the four C_*Init calls succeeds, when it reports a running operation and leaves it, and that in every other case no operation of its kind is running afterwards |
| ApiLaws.BeginFrame | src/wp11_pkcs11.c:5916-6096 | no other operation, session or table is touched, and a refused call changes nothing unless it is the C_DecryptInit that ends a decryption |
| ApiLaws.DecryptionSurvivesIff | src/wp11_pkcs11.c:5928-5941 | a running decryption survives another C_DecryptInit if and only if the handle is that of a live object, no certificate, and not private without a login |
| ConcreteRuns.BadHandleEndsDecryption | src/wp11_pkcs11.c:6091-6096 | a run of five calls in which C_DecryptInit with handle 0 ends a running decryption |
| KeystoreLaws.StepLoses | src/wp11_pkcs11.c:4063-4086 | one call loses sight of a loaded keystore exactly when it is a login that loads one for a slot that still holds one; what is lost is never freed |
| KeystoreLaws.FinalizeFreesKeystoresIff | src/wp11_pkcs11.c:2538-2551 | after finalize every keystore ever loaded has been freed if and only if no login of the run did so |
| ConcreteRuns.FirstKeystoreIsLost | src/wp11_pkcs11.c:4076-4086 | a run in which one is not: the only session is closed and the user logs in again |
| PrivacyLaws.PublicSessionCanBeginIff | src/wp11_pkcs11.c:6845-6853 | after every run a session without a login can begin an operation on exactly the live objects not marked private, certificates aside, and these never belong to a keystore token |
| ConcreteRuns.PivKeyNeedsNoLogin | src/wp11_pkcs11.c:3938-3953 | a run in which a PIV login creates keys that are not private, its session is closed, and a new session signs with one without logging in |
| ApiLaws.LoadedObjectIsPrivateIff | src/wp11_pkcs11.c:3938-3953 | which of the objects a login creates are private |
| ApiLaws.PivKeyIsNotPrivate | src/wp11_pkcs11.c:3938-3953 | for any key table whose first record was never used: the populate loop leaves the first key of the card without the private mark |
| Cryptoki.Library.InvalidateSessions | src/wp11_pkcs11.c:770-775 | every session of the slot cleared, no other touched |
| Cryptoki.Library.MarkLogin | src/wp11_pkcs11.c:4121-4138 | every session of the slot gets the login and the state its kind implies, no other is touched |
| Cryptoki.Library.MarkLogout | src/wp11_pkcs11.c:4212-4241 | every session of the slot public with its operations ended, no other touched |
| Cryptoki.Library.ForgetOperations | src/wp11_pkcs11.c:4728-4749 | in all open sessions, of any slot, exactly the operations on the destroyed key end |
| Cryptoki.Library.ReleaseSoftKey | src/wp11_backend_soft.c:298-322 | the count drops, and the key is released exactly when no more than one reference was left |
| Cryptoki.Library.ClearSlotKeys | src/wp11_pkcs11.c:1498-1509 | the clearing loop as a left-to-right sweep: exactly the slot's objects of the backend go, each giving up its reference |
| Cryptoki.Library.FreeAllObjects | src/wp11_pkcs11.c:2520-2536 | the key loop of C_Finalize as such a sweep over all objects |
| Cryptoki.Library.PopulatePiv | src/wp11_pkcs11.c:3915-4000 | objects go into free records in order; what does not fit is counted |
| Cryptoki.Library.PopulateKeystore | src/wp11_pkcs11.c:1449-1492 | as many entries as fit become objects that point into the keystore; the others are counted |
| Cryptoki.Library.PopulateSoft | src/wp11_pkcs11.c:1531-1567 | each entry that fits and imports becomes a soft key of its own; the others are counted |
| Cryptoki.Library.OpenSession | src/wp11_pkcs11.c:3274-3345 | for every state and argument the whole new state, the result and the handle of C_OpenSession |
| Cryptoki.Library.CloseSession | src/wp11_pkcs11.c:3347-3364 | the same for C_CloseSession |
| Cryptoki.Library.CloseAllSessions | src/wp11_pkcs11.c:3366-3385 | the same for C_CloseAllSessions |
| Cryptoki.Library.LogIn | src/wp11_pkcs11.c:3787-4153 | the same for C_Login, for every user type and every outcome of token, file and cipher |
| Cryptoki.Library.LogOut | src/wp11_pkcs11.c:4155-4246 | the same for C_Logout |
| Cryptoki.Library.BeginOperation | src/wp11_pkcs11.c:5916-6096 | the same for the common part of the four C_*Init calls, checks in their order; C_DecryptInit is the one that can end a running operation, the others are lines 5239-5261, 6827-6916 and 7123-7150 |
| Cryptoki.Library.DestroyObject | src/wp11_pkcs11.c:4678-4754 | the same for C_DestroyObject |
| Cryptoki.Library.GeneratePair | src/wp11_pkcs11.c:7945-8053 | the same for the soft path of C_GenerateKeyPair |
| Cryptoki.Library.AddUsb | src/wp11_pkcs11.c:677-711 | the same for slot_add behind the descriptor checks of the callback |
| Cryptoki.Library.RemoveUsb | src/wp11_pkcs11.c:747-791 | the same for slot_remove |
| Cryptoki.Library.AddFile | src/wp11_pkcs11.c:807-856 | the same for slot_add_keystore |
| Cryptoki.Library.RemoveFile | src/wp11_pkcs11.c:861-899 | the same for slot_remove_keystore |
| Cryptoki.Library.RemoveDirectory | src/wp11_pkcs11.c:907-938 | the same for slot_remove_flash_dir |
| Cryptoki.Library.Initialize | src/wp11_pkcs11.c:2226-2264 | the same for the tables at C_Initialize |
| Cryptoki.Library.Finalize | src/wp11_pkcs11.c:2497-2602 | the same for the tables at C_Finalize: keys, then keystores, then slots |
| Cryptoki.Library.Perform | src/wp11_pkcs11.c:677-8053 | one call or event moves the arrays as the step function of the laws moves the state |
| Cryptoki.PerformAll | src/wp11_pkcs11.c:677-8053 | any run of the arrays is the run that the laws speak of, for tables of any size |

## Left out

Assumptions

- Sizes are those of a 64-bit build: no `size_t` sum in the modelled code wraps there.
- The readers return positions as C ints; the payload buffers they are given are at most 512 KB
  (`Container.Load`), so these do not overflow, and the model uses unbounded numbers.
- `malloc` and `mlock` succeed; the out-of-memory and lock-limit error paths are absent.
- PBKDF2, AES-GCM, RSA, key generation and import, the random generator, the token database,
  the clock and the environment are parameters. Of the cipher it is assumed that it opens
  what it sealed, to the same length; of RSA, where stated, that the operations are inverse. Any of the wolfHSM calls may fail.
- A file does not change between `fstat` and the last `read`; a directory entry after `rename`
  is either the old or the new one; `close` has no effect on contents.
- Pointers passed by callers are not NULL, and no two of them overlap.

What the model does not capture

- KeystoreCodec.DecodePayload: fills an array of values; the separate heap blocks for key
  and certificate, and the freeing of them on errors, are not modelled. A label is the text
  before its terminator; bytes left behind the terminator by an earlier, longer label of the
  same record are not.
- KeystoreFile.SaveKeystore: the longest path is a constant of the platform; 4096 stands for it.
- KeystoreFile.Disk.Replace: one writer; two processes that replace the same file at once
  share the temporary name, and this is not modelled. Permissions and symbolic links are not
  either.
- Pkcs1.ScanSeparator: computes with 0 and 1 as the code does, but timing is not modelled.
- PivCommands.GeneralAuthenticate: the card is a function of the number and the bytes of each
  command, so a card with state or with outside influence is covered by varying it.
- Ccid.Context.Apdu: the device answers each delivered command once, in order; a real device
  only. The test transport behind `wp11_ccid_open_mock` is a plain call and is left out.
- PivOverCcid.ConversationIsWithCard: the chip answers with at most 512 bytes; a trouble is a failed
  transfer, a wrong sequence number or a reported failure, not a corrupted payload.
- HotplugProtocol.NoDeadlock: mutex and condition calls do not fail. The wake-up at finalize,
  which signals without the mutex, is not claimed; no fairness of the scheduler is assumed,
  so it is not claimed that a particular waiter is ever scheduled.
- Cryptoki.Library.ReleaseSoftKey: soft keys are entries of a map from identity to reference
  count rather than separate objects; the atomic orderings are not modelled, as all callers
  hold `g_lock`.
- Cryptoki.Library.AddUsb: does nothing while the library is not initialized. The libusb callback
  takes `g_lock` without asking for that (`src/wp11_pkcs11.c:1006-1020`), so an event between the
  reset at finalize and the end of the event thread still marks the cleared table, which the next
  initialize clears again.
- Cryptoki.Library.RemoveUsb: the same.
- Cryptoki.Library.LogIn: failure counters and the cached PIN are not modelled. The SO path's
  check of the keystore file and the loading of tokens take their results from the caller.
- Cryptoki.Library.BeginOperation: checks of key type, mechanism and parameters are one flag with
  one result code. Digest and find operations, which name no key, are absent.
- Cryptoki.Library.GeneratePair: templates are reduced to the private mark. On PIV and wolfHSM
  slots the code generates on the device; the model refuses there. The saving of the new key to
  the soft token's file is absent.
- Cryptoki.Library.PopulatePiv: the certificates that could be read are a number; which of the
  four slots they belong to is not kept.
- LivenessLaws.OperationsNameLiveKeys: holds for runs that respect the own-slot rule; what
  happens without it is stated by the lemmas ending in `Iff`, one call at a time.

Not modelled at all

- C_CreateObject, C_CopyObject, C_DeriveKey, C_GenerateKey, C_InitPIN, attribute and search calls:
  they add objects or read them by the same table primitives.
- wolfHSM slots, their connection and keys, and builds with both keystore backends, where a
  directory token is loaded twice: one keystore backend is modelled.
- The PIV commands SELECT, VERIFY and GENERATE KEY, and OpenPGP: fixed frames over the same
  transport.
- The threads that watch directories and USB, directory scans, the command line tool, and the
  hooks for tests.
- DER and PEM parsing.
