# aribb25: models and proofs

This project models the core of the ARIB STD-B25 descrambler in Dafny and proves properties of it: the MULTI2 cipher
with its vector forms, the PSI section parser, the map of PIDs with its reference counts, the key state driven by ECM
and EMM sections, and the packet loop that ties them together. Methods follow the imperative code and are proved
against functions on values; the properties of whole runs are lemmas about those functions.

| file | what it models |
|---|---|
| Prelude, Bytes | options, counting, distinctness; bytes, words, big-endian loads and stores, buffers |
| Multi2, Multi2Arith, Multi2Cbc | the block cipher over any operand type, the arithmetic of each form, the mode of operation in place |
| Multi2Vector, Multi2Forms, Multi2Dispatch | multi2_block.h, multi2_ymm2.h, multi2_ymm.h, multi2_xmm.h, multi2_neon2.h, multi2_neon.h and the dispatch of multi2_cipher.h |
| Multi2Simd | the four decrypt routines of multi2_simd.c |
| Multi2Keys, Multi2History, Multi2Objects, Multi2Kat | the C object, the C++ object with its lazy keys, their agreement, what any call sequence comes to, and the known-answer vector |
| CrcTable, Crc32 | the section checksum |
| SectionEngine, SectionPackets, SectionRecovery, SectionStore, SectionParser, LateReturns | the section parser on values, packetisation and its inverse, recovery after lost packets, buffer ownership, the parser object, and a run in which a second return does harm |
| PidStore, PidRegistry, PidLists | PID map, stream lists, decryptors and their counts under PAT, PMT and CAT updates |
| EcmKeys | decryptor key state, ECM and EMM processing |
| PacketLoop, PacketHeaders, PacketSync, PacketRuns, RunTrace, Descrambling | the packet loop on values, told from header fields and sync bytes, and what holds of its runs: chunks, the packets visited, the output, scrambled streams |
| EcmTables | section parser, key state and packet loop put together: the ECM side of the tables behind the loop |
| WorkBuffer, StreamDecoder | byte queues, the loop on buffers, put, get and rollback |
| UnitSize, Mjd | packet size detection, date conversion |

`dafny verify dfyconfig.toml` checks everything.

How to read the model:

- A vector register is a sequence of 32-bit words. Shuffles, unpacks, permutes and de-interleaving loads are index maps;
  a load is taken from the bytes of a whole run and a store is a write at an offset, issued in the source's order.
- `Tables` in PacketLoop stands for everything behind the loop that keeps state: which kind an entry of the map has, which
  cipher object a PID is bound to, and what a section parser with its table processing does with a payload. The results
  about the loop hold for all such tables. The concrete tables are modelled in the section parser, registry and key modules;
  `EcmTables` makes the ECM side of `Tables` concrete and leaves the rest of them arbitrary.
- The card is a source of answers. The results about keys hold for every sequence of answers; in `EcmTables` an answer is
  any function of the section and of all that happened before, and depends on the section's bytes as a whole.
- Between two program association tables every PID has one use: elementary stream, ECM, PMT, or one of the fixed ones
  (PAT, CAT, EMM, unused). `Roles` says which. `PidStore.TwoUsesDangle` shows what happens otherwise.
- A client that returns a section twice is modelled; the parser's invariant is lost in exactly the cases stated for `Ret`.
- Reference counts are unbounded integers, except that the count of a map entry wraps to 2^32 - 1 below zero as the
  unsigned field does.
- Places where the code does not meet a claim one would make of it, each with its exact condition: a system key set while
  scramble keys are loaded (`Multi2Keys.StepAgrees`, with the input of `Multi2Keys.LateSystemKeyDisagrees`); the last day
  of each 400-year period in the date conversion (`Mjd.RightExactlyWhen`); a section returned a second time
  (`SectionStore.Store.LateReturn`, with the run of `LateReturns.SecondReturnLosesLoan`); the SSE routines on the last
  packet of a full buffer (`StreamDecoder.SseRoomInLoop`, with the decoder of `StreamDecoder.SseRoomLacking`). And a card
  that once fails to give its initial status leaves a decryptor without a usable cipher object until its next unpurchased
  answer (`EcmKeys.PurchasedWorksWhen`, `EcmKeys.StaysUnusable`).
- Two decryptors of one ECM PID can be alive at once: a stream keeps its decryptor while tables without a descriptor for
  it let the ECM PID go, and a later table makes another. The map's entries say which one is meant, here as in the code.

## Model

| member | source | states |
|---|---|---|
| Multi2.Arith.DecryptEncrypt | aribb25/multi2_cipher.h:60-98 | decryption undoes encryption for every block, work key and round count, over any operand arithmetic whose exclusive or cancels |
| Multi2.Arith.EncryptDecrypt | aribb25/multi2_cipher.h:60-98 | encryption undoes decryption as well, so each work key permutes the blocks |
| Multi2.LaneEncrypt | aribb25/multi2_cipher.h:60-80 | encrypting vectors is encrypting every lane with the scalar cipher |
| Multi2.LaneDecrypt | aribb25/multi2_cipher.h:82-97 | decrypting vectors is decrypting every lane with the scalar cipher |
| Multi2Arith.SignAddIsSub | aribb25/multi2_block.h:71-74 | `rot1_sub` (the operand plus its own sign bit) is rotate-and-subtract modulo 2^32 for every word |
| Multi2Arith.TripleAddIsAddDec | aribb25/multi2_ymm.h:132-140 | the x86 vector `rot1_add_dec` (three times the operand plus a sign mask) is rotate, add and decrement for every word; the NEON comparison form too |
| Multi2Arith.ShufflesAreRotations | aribb25/multi2_ymm.h:114-130 | byte shuffles, shift-left-insert and half-word reversal are the rotations by 8 and 16 |
| Multi2Arith.AllFormsAgree | aribb25/multi2_xmm.h:84-98 | the SSE2, AVX2, NEON, template and multi2_simd.c arithmetics agree with the portable one on every word |
| Multi2Arith.SameForms | aribb25/multi2.c:571-653 | so each of them is the same cipher as the C functions, for every block, work key and round count |
| Multi2Kat.KnownAnswer | tests/multi2_kat.cc:8-28 | the repository's frozen 17-byte vector: encryption gives the published ciphertext and decryption the plaintext |
| Multi2Cbc.BlockCipher.RoundTrip | aribb25/multi2.c:350-478 | decryption undoes encryption for every length, chaining state and lawful block cipher, chained blocks and output-feedback tail together |
| Multi2Cbc.BlockCipher.RunThenRest | aribb25/multi2_cipher.h:155-168 | a run of whole blocks decrypted in any order is the front of the sequential decryption, and leaves the chaining state of its last block |
| Multi2Cbc.KeyedLawful | aribb25/multi2_cipher.h:60-98 | MULTI2 under any key and round count is such a lawful cipher |
| Multi2Cbc.EncryptInPlace | aribb25/multi2.c:384-412 | the C loop replaces exactly the named bytes by their encryption and changes nothing else |
| Multi2Cbc.DecryptInPlace | aribb25/multi2.c:449-477 | the C loop replaces exactly the named bytes by their decryption and changes nothing else |
| Multi2Vector.VectorDecrypt | aribb25/multi2_cipher.h:82-97 | lane `i` of a decrypted vector block is the scalar decryption of lane `i` |
| Multi2Forms.LoadLanes | aribb25/multi2_ymm2.h:74-100 | every form's load puts into each lane the block its lane order names, for all seven forms |
| Multi2Forms.ShiftedWinner | aribb25/multi2_ymm2.h:131-163 | the chaining permutation gives every lane that is finally stored the block before its own, the first one the chaining state |
| Multi2Forms.StoredBlock | aribb25/multi2_neon2.h:75-92 | after the stores, issued in the source's order, every block holds the right lane although some stores overlap |
| Multi2Forms.FormRun | aribb25/multi2_ymm2.h:74-163 | load, decrypt, chain and store of any form, the 15-block and 7-block forms with their duplicated block included, is a sequentially decrypted run |
| Multi2Dispatch.PaddedBlock | aribb25/multi2_cipher.h:215-227 | a zero-padded tail block combined as words is the tail combined byte by byte |
| Multi2Dispatch.DecryptBlock | aribb25/multi2_cipher.h:155-168 | one vector block in place, store by store, equals the scalar decryption of its blocks and hands on the last ciphertext block |
| Multi2Dispatch.DecryptScalar | aribb25/multi2_cipher.h:170-228 | the dispatch without vector units leaves the reference decryption in the buffer, for every length, IV, key and round count |
| Multi2Dispatch.DecryptAvx2 | aribb25/multi2_cipher.h:174-190 | the AVX2 dispatch, 184 bytes as 15 and 8 blocks included, leaves the reference decryption in the buffer |
| Multi2Dispatch.DecryptSse | aribb25/multi2_cipher.h:192-195 | the SSE dispatch, with or without byte shuffles, leaves the reference decryption in the buffer |
| Multi2Dispatch.DecryptNeon | aribb25/multi2_cipher.h:197-209 | the NEON dispatch, 184 bytes as 7, 8 and 8 blocks included, leaves the reference decryption in the buffer |
| Multi2Dispatch.EncryptTemplate | aribb25/multi2_cipher.h:126-153 | the C++ encryption leaves the bytes the C encryption leaves |
| Multi2Dispatch.ReferenceRoundTrip | aribb25/multi2.c:350-478 | the reference decryption undoes the reference encryption, so every decrypt routine undoes either encrypt routine |
| Multi2Simd.FinalWrites | aribb25/multi2_simd.c:1543-1700 | writes that are each final may overlap in any order: a covered block ends up final |
| Multi2Simd.SseWritesFinal | aribb25/multi2_simd.c:975-1120 | three chained SSE sets loaded before any is stored write only final blocks |
| Multi2Simd.Avx2WritesFinal | aribb25/multi2_simd.c:1543-1700 | the AVX2 sets at offsets 0, 64 and 120, block 15 loaded and stored twice, write only final blocks and cover all 23 |
| Multi2Simd.DecryptWithoutSimd | aribb25/multi2_simd.c:899-972 | equals `decrypt_multi2` at four rounds for every length |
| Multi2Simd.DecryptWithSse | aribb25/multi2_simd.c:975-1537 | both SSE routines equal `decrypt_multi2` at four rounds for every length; the eight bytes behind a 184-byte payload are as before |
| Multi2Simd.DecryptWithAvx2 | aribb25/multi2_simd.c:1543-1871 | equals `decrypt_multi2` at four rounds for every length |
| Multi2Keys.StepAgrees | aribb25/multi2.cc:23-100 | every call draws the same reply from a C and a C++ object that agree, and they still agree, cached work keys being schedules of the current keys, exactly when a system key set while scramble keys are loaded schedules the work keys they have |
| Multi2Keys.SameSystemKeyIsOrderly | aribb25/multi2.c:233-258 | in particular when no new system key is set while scramble keys are loaded |
| Multi2Keys.RunsAgree | aribb25/multi2.cc:38-100 | over every call sequence whose calls meet that condition, the lazy and the eager object give the same codes and bytes |
| Multi2Keys.NewObjectsAgree | aribb25/multi2.c:86-123 | the same from newly created objects, with every cached work key fresh at the end |
| Multi2Keys.CrossRoundTrip | aribb25/multi2.cc:60-100 | what either object encrypts the other decrypts |
| Multi2Keys.LateSystemKeyDisagrees | aribb25/multi2.c:233-258 | an input that does not: with a system key set late the two objects decrypt one byte differently |
| Multi2History.EagerKeyInUse | aribb25/multi2.c:376-380 | a C object that is given two scramble keys uses the second for what is marked 2 and the first for every other mark, scheduled under its system key, for encryption and decryption alike |
| Multi2History.LazyKeyInUse | aribb25/multi2.cc:60-100 | so does a C++ object whose cached work keys are fresh |
| Multi2History.CodeAfter | aribb25/multi2.c:360-374 | after any calls on a new C object, the code of an encryption or decryption told from the calls alone: empty data, then no initial value set, then no system key, then no scramble keys set since the last clearing; and then the data are untouched |
| Multi2History.EagerReplies | aribb25/multi2.c:350-478 | after any calls, the bytes a decryption or encryption gives: under the half of the last pair of scramble keys that the mark selects, scheduled under the system key there was when the pair was set, with the initial value and round count as last set |
| Multi2History.LazyReplies | aribb25/multi2.cc:60-100 | the same of a new C++ object after any calls that meet the condition of agreement |
| Multi2Objects.EagerMulti2.SetScramble | aribb25/multi2.c:286-331 | both work keys are scheduled at once; a null argument changes nothing |
| Multi2Objects.KeyRestored | aribb25/multi2.c:250-253 | the system key read from the 32 bytes of any eight words, each most significant byte first, is those words in order |
| Multi2Objects.KnownKey | tests/multi2_kat.cc:8-28 | the test vector's 32 bytes are the eight words they spell |
| Multi2Objects.EagerMulti2.Check | aribb25/multi2.c:360-374 | the error code of a call is that of the first missing precondition, in the source's order |
| Multi2Objects.EagerMulti2.EncryptBuffer | aribb25/multi2.c:350-412 | the call's bytes become their encryption, or the code says why not and nothing changes |
| Multi2Objects.EagerMulti2.DecryptBuffer | aribb25/multi2.c:415-519 | the same for decryption; the portable routine honours the round count, the multi2_simd.c routines run four rounds |
| Multi2Objects.LazyMulti2.SetScramble | aribb25/multi2.cc:38-51 | an unchanged data key keeps its cached work key, a changed one loses it |
| Multi2Objects.LazyMulti2.Prepare | aribb25/multi2.cc:60-78 | the checks of a call, with the work key it needs filled in exactly when they pass |
| Multi2Objects.LazyMulti2.EncryptBuffer | aribb25/multi2.cc:60-79 | one step of the lazy object, its buffer changed in place |
| Multi2Objects.LazyMulti2.DecryptBuffer | aribb25/multi2.cc:81-100 | the same for decryption, in each of the builds |
| CrcTable.ZeroByteAdd | aribb25/ts_section_parser.c:793-800 | eight division steps are linear over exclusive or |
| Crc32.TableEntry | aribb25/ts_section_parser.c:711-791 | each of the 256 table entries is the remainder of its index by 0x04C11DB7 |
| Crc32.TableStepIs | aribb25/ts_section_parser.c:797-800 | one table step is eight steps of bit-serial division |
| Crc32.Checksum | aribb25/ts_section_parser.c:706-803 | the table-driven loop computes the bit-serial checksum of every byte string |
| Crc32.Residue | aribb25/ts_section_parser.c:304-308 | the checksum of a whole section is zero exactly when its last four bytes are the big-endian checksum of the rest |
| Crc32.BurstDetected | aribb25/ts_section_parser.c:304-308 | any change confined to four consecutive bytes, in a string of any length, changes the checksum |
| Crc32.StartsInverted | aribb25/ts_section_parser.c:793-803 | the checksum of any four bytes or more is the plain remainder, from zero, of the string with its first four bytes inverted: all registers start at one |
| Crc32.KnownChecksum | aribb25/ts_section_parser.c:706-803 | a program association section with the right checksum, byte by byte: e8f95e7d after the first twelve bytes, zero at the end |
| SectionEngine.PutGrows | aribb25/ts_section_parser.c:290-409 | whatever payload comes, nothing already logged changes, and every section newly queued is as long as it announces and passed its check |
| SectionEngine.Accounting | aribb25/ts_section_parser.c:496-524 | every section that ended was counted exactly once, as new, repeated or an error |
| SectionPackets.AccumulateEnds | aribb25/ts_section_parser.c:418-466 | with all its bytes present a section that is as long as it announces is complete and is cut back to its own length, whatever follows |
| SectionPackets.CarryStep | aribb25/ts_section_parser.c:290-409 | one legal payload, with or without section starts, keeps an engine with any history in step with what has been sent, and draws a warning exactly when a section it completes is unsound and no unfinished one stands at its end |
| SectionPackets.ReassemblyUndoesPacketisation | aribb25/ts_section_parser.c:290-409 | after any legal run of payloads the queue has received exactly the sections sent in full, consecutive repeats removed, and no error was counted |
| SectionPackets.DedupIs | aribb25/ts_section_parser.c:314-318 | without consecutive repeats means: the sections that differ from the one just before, those and no others, in order |
| SectionPackets.NewsAre | aribb25/ts_section_parser.c:308-321 | what counts as new after any history: the sound sections without consecutive repeats, the first also compared with the last sound one from before; all others are errors |
| SectionPackets.RoundTrip | aribb25/ts_section_parser.c:290-409 | for every list of well-formed sections and every payload size, parsing what a packetiser sends gives the list without consecutive repeats |
| SectionRecovery.SectionRead | aribb25/ts_section_parser.c:548-590 | the length and the form of a section built from its fields are read back |
| SectionRecovery.SoundWhen | aribb25/ts_section_parser.c:304-308 | a long section passes exactly when its last four bytes are the checksum of the rest, a short one always |
| SectionRecovery.SectionsAreWellFormed | aribb25/ts_section_parser.c:418-466 | every short section of the right length, and every long one that ends in its checksum, is one the round trip speaks of |
| SectionRecovery.GoesOn | aribb25/ts_section_parser.c:290-322 | a payload without a section start, after anything: ignored with nothing under way, kept behind what there is, or the section cut to its length and received; the buffer's size never shows |
| SectionRecovery.Recovers | aribb25/ts_section_parser.c:324-409 | whatever is under way when a payload comes in which sections of a list start, at any pointer_field: the bytes in front end what is under way or it is lost, and then exactly the sections that start in the payload are heard |
| SectionRecovery.RecoversAndGoesOn | aribb25/ts_section_parser.c:290-409 | recovery: from there any legal payloads give the queue exactly the new sections among those sent in full, count each unsound one, and hold what has been sent of the next; with sound ones there is no further warning |
| SectionRecovery.RecoversAtOnce | aribb25/ts_section_parser.c:366-408 | with the start at the front, a section under way costs exactly one error and the length warning, and the queue, the repeat comparison and the section begun are as if it had not been there |
| SectionRecovery.RecoversBehind | aribb25/ts_section_parser.c:358-406 | bytes in front of the start that end the section under way have it heard before the others |
| SectionRecovery.PointsBeyond | aribb25/ts_section_parser.c:341-356 | a pointer_field beyond the payload only gives up what is under way |
| SectionStore.Store.CommitKeeps | aribb25/ts_section_parser.c:513-524 | a new section keeps every count exact while the repeat buffer changes hands |
| SectionStore.Store.TakeKeeps | aribb25/ts_section_parser.c:526-544 | only a buffer that is neither `last`, queued nor on loan is taken from the pool |
| SectionStore.Store.NoneFree | aribb25/ts_section_parser.c:526-546 | a new buffer is made only when the demand accounts for all but one of the buffers there are |
| SectionStore.Store.GetKeeps | aribb25/ts_section_parser.c:189-196 | the head of the queue goes on loan with its count, and was not on loan before |
| SectionStore.Store.ReturnKeeps | aribb25/ts_section_parser.c:211-221 | the end of a loan lowers exactly its buffer's count |
| SectionStore.Store.OpenReturn | aribb25/ts_section_parser.c:201-224 | a return whose loan is not over, with the body where it was got, ends that loan and keeps everything else; with any other address it does nothing |
| SectionStore.Store.LateReturn | aribb25/ts_section_parser.c:201-224 | a return of any handle whose own loan is over leaves every other loan and the repeat buffer alone exactly when the pool does not hold its buffer, with the body at the same place, as the repeat buffer or on a later loan; then it does nothing, and otherwise a count is too small |
| SectionStore.Store.LaterLoanLost | aribb25/ts_section_parser.c:211-221 | in the case of a later loan the buffer counts as free, and the next search that takes it empties it under the client that holds it |
| SectionStore.Store.RepeatBufferLost | aribb25/ts_section_parser.c:211-221 | in the case of the repeat buffer it is emptied while repeats are still compared with it |
| LateReturns.SecondReturnLosesLoan | aribb25/ts_section_parser.c:201-224 | a run in which it happens: four sections in two buffers, the first returned twice, and the third loses its bytes while on loan, its buffer not being the repeat buffer |
| SectionParser.Elem.Append | aribb25/ts_section_parser.c:418-466 | appending respects the buffer's size, reads the header as soon as it can and cuts a complete section to its length |
| SectionParser.TsSectionParser.Finish | aribb25/ts_section_parser.c:304-321 | a completed section is dropped as bad, dropped as a repeat, or queued, by the engine's verdict |
| SectionParser.TsSectionParser.PutExclude | aribb25/ts_section_parser.c:290-322 | a payload without a section start has the engine's effect and keeps the ownership invariant |
| SectionParser.TsSectionParser.PutInclude | aribb25/ts_section_parser.c:324-409 | so has one with section starts, the pointer_field checks and the result codes included |
| SectionParser.TsSectionParser.Put | aribb25/ts_section_parser.c:155-177 | the first payload fixes the PID, others are refused, loans are untouched, and the peak demand becomes the larger of what it was and the sections now queued and on loan |
| SectionParser.TsSectionParser.Get | aribb25/ts_section_parser.c:179-199 | the sections are got in the order they were queued, with the bytes they were queued with, each as a loan with its own number |
| SectionParser.TsSectionParser.Ret | aribb25/ts_section_parser.c:201-224 | for every handle: the count of the pool buffer whose body is where the handle says falls, ending the loan when it is the handle's own; the parser's invariant holds afterwards exactly when that loan was not over, or the buffer was neither the repeat buffer nor on a later loan |
| SectionParser.TsSectionParser.LoansIntact | aribb25/ts_section_parser.c:489-546 | at any time a loan holds the bytes it was got with, and repeats are compared with the true last new section |
| SectionParser.TsSectionParser.PoolBounded | aribb25/ts_section_parser.c:526-546 | the buffers allocated never exceed two more than the most sections ever queued and on loan, a peak that only a newly queued section raises, and no further than to the demand then |
| SectionParser.TsSectionParser.GetStat | aribb25/ts_section_parser.c:238-250 | total is unique plus error plus suppressed repeats, and unique is the queue length plus the sections got |
| PidStore.Store.CreateKeeps | aribb25/arib_std_b25.c:2637-2687 | a new decryptor behind an ECM entry disturbs no count |
| PidStore.Store.RemoveKeeps | aribb25/arib_std_b25.c:2689-2728 | freeing an unused decryptor leaves no map entry pointing at it |
| PidStore.Store.NothingListed | aribb25/arib_std_b25.c:1440-1447 | when no stream list names a PID no decryptor is left |
| PidStore.TwoUsesDangle | aribb25/arib_std_b25.c:1662-1809 | why each PID must have one use: the code's steps on a program's first table leave an entry pointing at a freed decryptor exactly when the stream's PID is the program's ECM PID |
| PidRegistry.Registry.RemoveDecryptor | aribb25/arib_std_b25.c:2689-2728 | the ECM entry is cleared when it points at the decryptor, which leaves the list and the heap |
| PidRegistry.Registry.UnrefStream | aribb25/arib_std_b25.c:2617-2635 | one list element less: the entry's count drops, at zero the entry is cleared and its decryptor released |
| PidRegistry.Registry.SetDecryptor | aribb25/arib_std_b25.c:2637-2687 | gives the live decryptor behind an ECM PID, a new one when there is none, and no other stream's entry changes |
| PidRegistry.Registry.BindStreamDecryptor | aribb25/arib_std_b25.c:2741-2763 | the stream is bound as asked, the counts of the old and the new decryptor follow, no other stream's entry changes |
| PidRegistry.Registry.AddEcmStream | aribb25/arib_std_b25.c:1838-1863 | an ECM PID joins a stream list at most once, and its entry counts it |
| PidRegistry.Registry.ProcPmt | aribb25/arib_std_b25.c:1662-1809 | the invariant is kept, the lists are the table's and its predecessor's, and each stream is bound to the decryptor its own ECM's map entry points at, to none when marked unscrambled, else to the program's, which its ECM's entry points at, or the only one; a stream in use that the table does not name keeps its binding, and no PMT, PAT, CAT or EMM entry changes |
| PidRegistry.Registry.ReleaseProgram | aribb25/arib_std_b25.c:2588-2615 | both lists are counted off and the invariant is kept |
| PidRegistry.Registry.ProcPat | aribb25/arib_std_b25.c:1401-1488 | after a program association table no decryptor is left, the announced programs are entered, the last of several with one PMT PID, and every other entry but PID 0 is empty |
| PidRegistry.Registry.ProcCat | aribb25/arib_std_b25.c:2449-2501 | the EMM and CAT entries are set, no other entry changes and the invariant is kept |
| PidRegistry.Registry.Follow | aribb25/arib_std_b25.c:2335-2424 | over every run of program association, program map and conditional access tables no map entry is left pointing at a freed decryptor, every decryptor counts its users and has one, and a program association table leaves none |
| PidRegistry.Registry.NothingDangles | aribb25/arib_std_b25.c:1662-1809 | between calls every entry's count is its occurrences in the stream lists, and every target is alive and the right one |
| PidRegistry.Registry.CountsExact | aribb25/arib_std_b25.c:2741-2763 | between calls every decryptor's count is the number of stream entries pointing at it, and at least one |
| PidLists.AnnouncedAre | aribb25/arib_std_b25.c:1447-1474 | the programs of a table are those of exactly the entries whose number is not zero, in their order, with their PIDs |
| PidLists.StreamCounts | aribb25/arib_std_b25.c:1733-1790 | a program's new stream list names each PID once for every elementary stream with it, and an ECM PID that is neither 0 nor 0x1fff once however many descriptors give it |
| PidLists.StreamsInOrder | aribb25/arib_std_b25.c:1748-1790 | and the streams stand in it in the table's order |
| EcmKeys.KeysAreFresh | aribb25/arib_std_b25.c:2044-2157 | over every run, a cipher object that would decrypt holds the keys of the card's latest answer, and that answer was a purchased one |
| EcmKeys.NotAskedAgain | aribb25/arib_std_b25.c:2078-2110 | after an unpurchased answer there is no cipher object and the card is not asked again until an EMM for this card has been processed |
| EcmKeys.AskedAfterUnlock | aribb25/arib_std_b25.c:2765-2774 | once it has, the next ECM section is put to the card, and nothing else about the decryptor has changed |
| EcmKeys.PurchasedWorksWhen | aribb25/arib_std_b25.c:2112-2130 | after a purchased answer decryption works exactly when the cipher object was, or now is, given its other parameters by the card |
| EcmKeys.PurchasedWorks | aribb25/arib_std_b25.c:2112-2130 | over runs in which the card never fails to give its initial status, a purchased latest answer means that decryption works |
| EcmKeys.FailedInitUnusable | aribb25/arib_std_b25.c:2113-2124 | the inputs on which it fails: after any purchased answer without the initial status the cipher object is kept, without its other parameters and without keys |
| EcmKeys.StaysUnusable | aribb25/arib_std_b25.c:2112-2128 | one failure to give the initial status leaves an object that no later purchased answer repairs |
| EcmKeys.CallsAreOrderly | aribb25/arib_std_b25.c:2125-2130 | the calls made on a cipher object satisfy the restriction under which the two MULTI2 objects agree |
| EcmKeys.AnswerCodes | aribb25/arib_std_b25.c:2098-2130 | the return codes 0x0800, 0x0400 and 0x0200 load the answer's keys into the object there is, or into one set up from the initial status; every other code removes the object, locks, and is remembered |
| EcmKeys.NotAskedAbout | aribb25/arib_std_b25.c:2063-2084 | a section that is not put to the card draws the code of the first reason and changes at most the count of unpurchased ones |
| EcmKeys.FailedForgets | aribb25/arib_std_b25.c:2089-2096 | a failed request leaves a cipher object that decrypts nothing, and locks nothing |
| EcmKeys.UnpurchasedCounts | aribb25/arib_std_b25.c:2078-2111 | over every run the count of unpurchased sections is the number that drew that warning |
| EcmKeys.EcmDecryptor.ProcEcm | aribb25/arib_std_b25.c:2044-2157 | one step of the key state machine on the decryptor's fields and its cipher object |
| EcmKeys.UnlockedWhen | aribb25/arib_std_b25.c:2543-2564 | an EMM element unlocks exactly when the card takes it and has refused none before it |
| EcmKeys.EmmProcessor.ProcElems | aribb25/arib_std_b25.c:2543-2564 | the elements of a section unlock every decryptor or none, and nothing else about a decryptor changes |
| EcmKeys.EmmProcessor.ProcEmm | aribb25/arib_std_b25.c:2503-2586 | the same over all sections that have arrived, with the code of the first one that stops it |
| EcmKeys.ElemsCode | aribb25/arib_std_b25.c:2543-2564 | a section draws the EMM error exactly when the card refuses one of its own elements |
| EcmKeys.SectionsUnlock | aribb25/arib_std_b25.c:2503-2586 | over the sections that have arrived: the decryptors are unlocked exactly when some EMM has an element the card takes before it refuses one, and every section before is an EMM message or an EMM in which the card refuses nothing of its own |
| EcmKeys.SectionsCode | aribb25/arib_std_b25.c:2503-2586 | the code is that of the first section that is no EMM or is refused, and no error exactly when there is none |
| PacketRuns.TurnMore | aribb25/arib_std_b25.c:2220-2233 | a turn that can be taken, inside a resync search too, is taken in the same way when more bytes follow |
| PacketRuns.ChunkIndependence | aribb25/arib_std_b25.c:2197-2447 | a run on a chunk and one on its leftover with the next chunk give the output, pending bytes and state of one run on both, wherever the boundary falls |
| PacketRuns.AnyChunks | aribb25/arib_std_b25.c:989-1080 | the same for any division of the input into chunks, each run starting afresh |
| PacketRuns.CountersConserved | aribb25/arib_std_b25.c:2268-2299 | without a program association section the normal and undecrypted counters rise, PID by PID, by the packets whose fate is to be emitted, error packets apart |
| PacketRuns.RunKeeps | aribb25/arib_std_b25.c:2197-2447 | whatever every payload handed to the tables keeps true of their state, every run keeps, however it ends |
| PacketRuns.FailureCode | aribb25/arib_std_b25.c:2307-2424 | a run fails exactly when its result is negative |
| RunTrace.RunInPlace | aribb25/arib_std_b25.c:2218-2430 | however a run ends, the bytes it leaves in place differ from the input only in the marks and payloads of scrambled packets that it has come to and descrambled, and every packet it has gone over is in place as descrambling leaves it |
| RunTrace.RunOutput | aribb25/arib_std_b25.c:2218-2430 | the output is, in order, what the packets the run has come to put out, each behind its resynchronisation lead, and the fates are theirs |
| RunTrace.CountersMatchOutput | aribb25/arib_std_b25.c:2268-2307 | at 188 bytes a packet, and for other sizes without leads, the output is whole packets, and without a program association section the counters rise, PID by PID, by the packets in the output bytes that have no error bit |
| RunTrace.OutputCounted | aribb25/arib_std_b25.c:2226-2307 | for every size and every end of a run, the output's length is that of the packets emitted and of the leads |
| PacketLoop.ResyncIs | aribb25/arib_std_b25.c:2990-3012 | resynchronisation finds the first offset with eight sync bytes one unit apart, and nothing only when there is none |
| PacketHeaders.EveryPacketHas | aribb25/arib_std_b25.c:2962-2972 | every packet that begins with a sync byte is built from some header fields |
| PacketHeaders.HeaderRead | aribb25/arib_std_b25.c:2962-2972 | the fields a packet's header is built from are those the loop reads |
| PacketHeaders.PayloadRead | aribb25/arib_std_b25.c:2258-2269 | the payload is what stands behind the header and the adaptation field up to byte 188; a packet is broken exactly when that field is too long, or leaves none of a payload that is there |
| PacketHeaders.ErrorPacket | aribb25/arib_std_b25.c:2245-2251 | a packet with the error bit is emitted as it came, counted nowhere and handed to no table |
| PacketHeaders.NullPacket | aribb25/arib_std_b25.c:2253-2256 | a packet of PID 0x1fff is left out exactly when stripping is on |
| PacketHeaders.MissingKeysFail | aribb25/arib_std_b25.c:2283-2287 | a marked payload that its cipher object refuses fails the run with the decryption code, nothing counted and the packet as it came |
| PacketHeaders.Dispatch | aribb25/arib_std_b25.c:2271-2430 | which table takes the payload of any other packet: ECM, PMT and EMM PIDs go to their tables, the last only when EMM processing is on; of the rest PID 1 to the CAT and PID 0 to the PAT, which ends the run when a section is taken and wipes the counters when it draws no warning. A packet raises the undecrypted count exactly when it is marked, has a payload and there is no cipher object for it |
| PacketHeaders.ClearStays | aribb25/arib_std_b25.c:2297-2299 | an unmarked packet goes out and to its table as it came |
| PacketHeaders.EmptyUnmarked | aribb25/arib_std_b25.c:2293-2296 | a marked packet without a payload loses its mark and nothing else |
| PacketHeaders.ScrambledLeft | aribb25/arib_std_b25.c:2290-2292 | a marked packet for which there is no cipher object stays as it came |
| PacketHeaders.ScrambledOpened | aribb25/arib_std_b25.c:2272-2289 | one whose object has its keys gets the object's decryption in the payload's place, loses its mark, and keeps header, adaptation field and the bytes behind 188 |
| PacketSync.RunInStep | aribb25/arib_std_b25.c:2226-2432 | with a sync byte in front and one a unit later, the packet is handled as it is and the run goes on a unit later, ends, or fails |
| PacketSync.RunSkips | aribb25/arib_std_b25.c:2258-2265 | a broken packet is passed over by one byte, with nothing emitted |
| PacketSync.RunWaits | aribb25/arib_std_b25.c:2228-2232 | out of step with no eight sync bytes a unit apart, nothing is used or emitted |
| PacketSync.RunResyncs | aribb25/arib_std_b25.c:2228-2239 | out of step the run is the run from the first place with eight sync bytes a unit apart, with the bytes that fill that packet's unit in front of its output when there are so many |
| Descrambling.DescrambleScrambled | aribb25/arib_std_b25.c:2250-2293 | descrambling a packet scrambled under the even or odd key restores every byte of it, header marks included |
| Descrambling.HandleScrambled | aribb25/arib_std_b25.c:2226-2430 | the loop body does the same with a scrambled packet as with the clear one: state, output, section handling |
| Descrambling.ScrambledRun | aribb25/arib_std_b25.c:2197-2447 | on a stream with any payloads scrambled under the keys bound to their PIDs the loop gives the output, state, counters and result of the clear stream |
| Descrambling.DescramblingRestores | aribb25/arib_std_b25.c:2197-2447 | with stripping off, such a stream comes out as exactly the clear packets, in order, but for the one held back |
| EcmTables.ProcessKeeps | aribb25/arib_std_b25.c:2044-2157 | an ECM section taken from a decryptor's parser leaves its key state following the card's latest answer, each section being asked about at most once and in the order it arrived |
| EcmTables.PutKeeps | aribb25/arib_std_b25.c:2307-2424 | so does any payload for any table: an ECM payload fed to its parser, and the creation, removal and unlocking of decryptors |
| EcmTables.FreshInEveryRun | aribb25/arib_std_b25.c:2197-2447 | for every input in any chunks, every card and every behaviour of the other tables and the map, several decryptors of one ECM PID included, all decryptors' keys follow the card's latest answer after the run |
| EcmTables.ScrambledFate | aribb25/arib_std_b25.c:2250-2293 | a scrambled packet is decrypted under the latest answer, a purchased one to a section that arrived whole: under the second half of its sixteen key bytes when marked 2, else under the first; or left as it came because there is no cipher object; or refused, never after an unpurchased answer |
| EcmTables.OnlyFreshKeysOpen | aribb25/arib_std_b25.c:2226-2430 | from a decoder with no decryptor, after any input, the next scrambled packet leaves unchanged or decrypted under the keys of the card's latest answer for the decryptor the map gives its PID, unless the run fails |
| EcmTables.PutInStep | aribb25/arib_std_b25.c:2307-2328 | with a card that answers every question with a purchase, one payload of an ECM PID goes through its decryptor's parser, if a section is then waiting exactly one is got and, being an ECM, put to the card, and the loop goes on |
| EcmTables.StreamFeeds | aribb25/arib_std_b25.c:2218-2430 | a run over such packets does not end early and does to the tables what feeding the ECM payloads one by one does |
| EcmTables.EverySectionAsked | aribb25/arib_std_b25.c:2307-2328 | with such a card, a run of the loop over packets of an ECM PID and packets no table takes asks the card about the first of the ECM sections sent, consecutive repeats removed, in the order sent; about all of them when no payload completes two new ones |
| EcmTables.RefusalStands | aribb25/arib_std_b25.c:2078-2110 | in every run of the loop, as long as no EMM for this card unlocks the decryptors and the decryptor is not dropped, the card is not asked again for a decryptor that was refused, and that has no cipher object |
| EcmTables.RefusalStarts | aribb25/arib_std_b25.c:2096-2110 | an unpurchased answer puts a decryptor into that state |
| WorkBuffer.Buffer.Grown | aribb25/arib_std_b25.c:2877-2885 | the capacity is the first doubling that fits the request and stays within the integer type |
| WorkBuffer.CapacityIs | aribb25/arib_std_b25.c:2877-2885 | that capacity is 512, or twice the old one, times the smallest power of two that fits |
| WorkBuffer.Buffer.Reserve | aribb25/arib_std_b25.c:2863-2916 | succeeds exactly up to the size limit, and what is held is kept |
| WorkBuffer.Buffer.Append | aribb25/arib_std_b25.c:2918-2939 | data are added at the end or nothing changes; within the capacity it neither fails nor reallocates |
| WorkBuffer.Buffer.Consume | aribb25/arib_std_b25.c:2432-2444 | the unused bytes are kept, moved to the front by a forward copy when they are few or far back |
| StreamDecoder.FindSync | aribb25/arib_std_b25.c:2990-3012 | finds the first offset in the buffer with eight sync bytes one unit apart, and fails only when there is none |
| StreamDecoder.Decoder.DescrambleAt | aribb25/arib_std_b25.c:2268-2299 | the packet in the buffer becomes what descrambling makes of it, nothing else in the buffer changes, and it is counted |
| StreamDecoder.Decoder.HandlePacket | aribb25/arib_std_b25.c:2235-2429 | the loop body on a packet in the buffer: bytes in place, output, table state and code |
| StreamDecoder.Decoder.Loop | aribb25/arib_std_b25.c:2218-2432 | the loop over the buffer is the run on its bytes, and the room reserved before it is enough for all its output |
| StreamDecoder.Decoder.Proc | aribb25/arib_std_b25.c:2197-2447 | the queues, the tables and the code after a run, whether it fails or not, and after one there is no room for |
| StreamDecoder.Decoder.Put | aribb25/arib_std_b25.c:989-1080 | with the tables complete: data that fit go through the run, with a negative code exactly when it fails; then the output is as before and the pending input what the run left of it, changed only in packets it descrambled; data that do not fit change nothing |
| StreamDecoder.SseRoomInLoop | aribb25/multi2_simd.c:990-997 | in the loop, the SSE routines have the eight bytes they need behind a payload exactly when the packet has an adaptation field or the buffer goes on for 196 bytes from its start |
| StreamDecoder.SseRoomLacking | aribb25/arib_std_b25.c:2863-2939 | a decoder that does not have them: its first 4096 bytes fill the buffer, with packets from 145 on |
| StreamDecoder.Decoder.Get | aribb25/arib_std_b25.c:1082-1096 | the output is handed out once |
| UnitSize.Select | aribb25/arib_std_b25.c:1255-1317 | picks the smallest interval with the most sync pairs, and accepts it exactly when there are eight and they cover the window |
| UnitSize.SelectionUnique | aribb25/arib_std_b25.c:1297-1314 | there is only one such result |
| UnitSize.SelectedWhen | aribb25/arib_std_b25.c:1255-1317 | the selection in numbers: from 3008 bytes on, of which at most 6016 are looked at, distances from 188 to 319, eight pairs, and three more units covering the bytes |
| UnitSize.ExactSelected | aribb25/arib_std_b25.c:1255-1317 | with sync bytes exactly at `o`, `o+u`, `o+2u` and so on, 188 to 319 apart, the unit becomes `u` for every input long enough |
| Mjd.NextDayCounts | aribb25/b_cas_card.c:891-916 | the closed-form day count rises by one from each calendar date to the next |
| Mjd.MonthFormulasExact | aribb25/b_cas_card.c:904-905 | the shift-multiply month formulas are exact on every day of a year |
| Mjd.RightExactlyWhen | aribb25/b_cas_card.c:891-916 | the split gives the date of a day exactly when the day is not the last of a 400-year period |
| Mjd.CallersSafe | aribb25/b_cas_card.c:858-875 | no value a caller can form meets such a day |
| Mjd.KnownDays | aribb25/b_cas_card.c:887-890 | day 51604 is 1 March 2000, 58849 is 1 January 2020, and 0, taken as wrapped, 23 April 2038 |
| Mjd.Extract | aribb25/b_cas_card.c:877-918 | the result is the calendar date that many days after 1 March 2000, on the last day of a 400-year period the day after it |

## Left out

- The card: PC/SC calls, command building and response parsing, the resizing of its pool; only the answers are modelled.
- `find_pat`, `find_pmt` and `find_ecm`, the three searches before the packet loop runs, and `flush_arib_std_b25`.
- The parsing of PAT, PMT, CAT and EMM bytes: the registry and the key modules take a table's entries. In a PMT that stops
  being readable the entries are those read before.
- Multi2Keys.RunsAgree: objects that have come to disagree may agree again, once their scramble keys are cleared; what
  holds in between is not stated.
- PidRegistry.Registry.ProcPmt: takes PIDs with one use each, because with two uses the counts are not kept.
- PidRegistry.Registry.SetDecryptor: so an ECM PID whose entry is an elementary stream's, whose decryptor the code releases
  first, does not occur.
- PidRegistry.Registry.ProcCat: nor does an EMM PID that is an elementary stream's.
- Reading the bytes beyond a truncated long-form section header: the parser keeps the header fields it read, and only the
  section length and the syntax bit of a header are modelled.
- The raw memory behind a section buffer: a buffer is the bytes between its start and its tail, at most 4100.
- Doubly linked lists are sequences; their pointer surgery is not modelled.
- SectionParser.TsSectionParser.Ret: after a return that does harm the other methods, which need the invariant, are not
  described further than `LaterLoanLost` and `RepeatBufferLost` do.
- Multi2Simd.DecryptWithSse: needs the eight bytes behind a payload of 184, which the loop does not always have.
- Multi2Objects.EagerMulti2.DecryptBuffer: so do its calls of the SSE routines.
- RunTrace.CountersMatchOutput: an output with leads is not cut into packets; which bytes are leads is stated by RunOutput.
- StreamDecoder.Decoder.Put: entered with packet size, PAT, PMT and ECM known; the state of the tables and the counters is
  not rolled back by the code either.
- The result code of a run made of several chunks is that of the last chunk that processed a section.
- Mjd.Extract: for day numbers far enough below zero that one wrap of 16 bits does not reach 1 March 2000 nothing is said;
  no caller forms them.
- Allocation failures, null-object checks, function-pointer tables, CPU feature detection, debug and benchmark code.
- The set-up of packed work keys for the vector routines of multi2_simd.c: broadcasting a word to all lanes is the lanewise
  application of the scalar key.
- `td.c`, `libaribb25.cpp`, `B25Decoder.cpp` and the build files.
