# DBS: a verified model

DBS backs up a Django project into an encrypted, self-healing container. This project models its
logic in Dafny and proves what the code promises: what a container survives, what a reader may ever
yield, that the streaming payload and its threads lose nothing, and what holds of jobs, schedules and
the audit trail wherever a process dies. `dafny verify dfyconfig.toml` checks all of it.

## How it is organised

- **Reed-Solomon code** (`GaloisField`, `ReedSolomon`, `Parity`, `Encoder`, `CopyRepair`): the field
  of 256 elements from its bits up, the order of α, the minimum distance of the code, the table-driven
  encoder against polynomial division, and the repair from two copies.
- **Container** (`Layout`, `Records`, `Container`, `ChunkCipher`, `StreamWriter`, `EndOfStream`,
  `BlockRepair`, `RepairWindow`, `StreamReader`, `ContainerRead`, `WrittenContainer`, `BurstSafety`,
  `Healing`, `RepairReport`, `RoundTrip`): the writer as a class that refines one specification of the
  container's bytes, the scan that finds the end, the reader's bounded window and its report, and three
  results about damage: what is yielded is a prefix of what was written, one burst within
  `burst_tolerance` costs nothing, and damage scattered over both copies of a block is healed.
- **Payload and pipeline** (`Pipeline`, `Rechunking`, `Frames`, `Json`, `JsonCodec`, `Payload`,
  `PayloadReader`, `PayloadWriter`, `PayloadEmit`, `PayloadGrammar`, `PayloadRefusal`, `Batching`,
  `Backup`): threads and channels as a state machine with locks and wait sets, segments and inflater and
  prefetch cache, the payload grammar with its reader and writer, what exactly is accepted and why the
  rest is refused, the paging and batching of records, and all of that put together from a selection's
  rows to what is read back.
- **Jobs** (`Jobs`, `Schedule`, `AuditChain`): shared rows changed one statement at a time by
  processes that can die between any two, with invariants over all runs.
- **Model order** (`ModelOrder`): the topological order that breaks foreign-key cycles but never
  inheritance, and the closure of the backup plan under parents.

Code that updates state is a class or a method with loops, proved against functions on values;
protocols are state machines whose steps are single statements or critical sections.

## What is assumed

Foreign code enters as function arguments with stated laws, never as axioms.

- `CopyRepair.DecoderContract`: reedsolo's decoder corrects what bounded-distance decoding can, and
  returns messages of the right length. `IdealDecoderMeetsContract` shows that such a decoder exists.
- `Container.Codec.Sound`: hashes and sealed chunks have fixed lengths. `Authentic` and `Opens` state
  the ideal cipher for one run; `ChunkCipher` derives both from an ideal AEAD and the nonces, and
  `ContainerRead.FormatIsAuthentic` does so for every header a reader may find. A data key seals one
  run only.
- `BurstSafety.Detected`: a header, a trailer or the first slot of a block that was altered fails its
  own checksum or tag, unless the slot became that of another block, which its descriptor shows. The
  burst result uses it, and the healing result what it says of headers and trailers; the prefix result
  holds without it.
- `Rechunking.Zlib.Contract`: what a `decompressobj` promises about members it is inside of. A
  stream of stored segments meets it (`StoredMeetsContract`).
- `Json.Codec.Sound`: JSON text parses back to the value written. `JsonCodec.SomeCodecIsSound` shows
  that such a codec exists. Numbers with a fraction are exact binary ones, as finite Python floats are.
- `Backup.Selectable`: the encoded pieces of a row join to the JSON text of its record.
- `AuditChain.Chaining.Injective`: the hash over previous hash and canonical text is injective
  (`SomeChainingIsInjective` gives one).
- In `Jobs`, database statements are atomic, keys of new rows are fresh and the clock never goes back.

## Where a promise fails

`Job.begin` promises that an unfinished event always keeps its lease row, so that a recovery can find
it. This is false when the closing update itself raises inside `tracked`: `finally` still deletes the
lease (dbs/jobs.py:105-116), and no later recovery sees the event. `Jobs.LostJobExample` is such a
run, and `Jobs.BegunJobsAreCovered` shows that this is the only way: in every run a begun, unfinished
event has lost its lease exactly when its own process ran `close` after its closing update had
raised.

## Model

| member | source | states |
|---|---|---|
| `GaloisField.NextPower` | dbs/container/rs.py:25-30 | The shift-and-reduce step of the table loop is the doubling of the field. |
| `GaloisField.FieldTables` | dbs/container/rs.py:20-35 | The tables hold every power of α and every logarithm, 512 and 256 entries, with the wrap after 255. |
| `GaloisField.MultiplyByTables` | dbs/container/rs.py:38-41 | The log/exp product equals the schoolbook product modulo 0x11D, for all 65,536 pairs, zeros included. |
| `GaloisField.AlphaPeriod` | dbs/container/rs.py:25-34 | α has period 255. |
| `GaloisField.PowersBelow255` | dbs/container/rs.py:25-30 | No smaller power of α is one, so its order is exactly 255. |
| `GaloisField.AlphaInjective` | dbs/container/rs.py:27-28 | The 255 powers of α are distinct, which is what makes the logarithm table a function. |
| `GaloisField.MultiplyCommutes` | dbs/container/rs.py:38-41 | Multiplication commutes. |
| `GaloisField.MultiplyAssociates` | dbs/container/rs.py:38-41 | Multiplication associates. |
| `GaloisField.NoZeroDivisors` | dbs/container/rs.py:38-41 | A product is zero only if a factor is. |
| `ReedSolomon.LightWordsVanish` | dbs/container/rs.py:44-52 | A word of at most 255 symbols that vanishes at all nsym roots with at most nsym nonzero symbols is zero. |
| `ReedSolomon.CloseWordsAgree` | dbs/container/rs.py:215-220 | Two words of the code that differ in at most nsym symbols are equal. |
| `ReedSolomon.MinimumDistance` | dbs/container/rs.py:158-178 | Two different words of the code of the same length, full or shortened, differ in at least nsym + 1 symbols. |
| `Parity.EncodedVanishes` | dbs/container/rs.py:55-66 | A message followed by its parity vanishes at α^0 … α^(nsym-1). |
| `Parity.ParityIsUnique` | dbs/container/rs.py:79-89 | Only the parity completes a message to a word of the code. |
| `Parity.ParityIsDivisionRemainder` | dbs/container/rs.py:55-66 | The sum over positions of table remainders is message(x)·x^nsym modulo the generator, by an independent long division. |
| `Encoder.Generator` | dbs/container/rs.py:44-52 | The product loop computes the generator polynomial with roots α^0 … α^(nsym-1). |
| `Encoder.PositionRemainders` | dbs/container/rs.py:55-66 | The shift register computes, position by position, the remainder of that power of x. |
| `Encoder.ParityTable` | dbs/container/rs.py:79-89 | Every table row holds the 256 multiples of its position's remainder. |
| `Encoder.ParityRows` | dbs/container/rs.py:120-128 | Gathering and XORing one table row per position gives each message its parity, in place over all rows. |
| `Encoder.ParityMany` | dbs/container/rs.py:131-140 | Batches of 4096 rows change nothing. |
| `Encoder.EncodeMany` | dbs/container/rs.py:158-178 | Every block becomes its codewords in order, shortened last word included, however blocks are concatenated for the parity pass. |
| `Encoder.EncodeBlockLength` | dbs/container/rs.py:106-117 | The encoded length is the one the layout computes, and it is well formed. |
| `Encoder.EncodedBlockIsSound` | dbs/container/rs.py:158-212 | Every emitted codeword vanishes at all roots, and stripping the parity gives the data back. |
| `Encoder.ConsistentMask` | dbs/container/rs.py:285-294 | A codeword is called consistent exactly when it vanishes at all roots. |
| `Encoder.DamagedCodewords` | dbs/container/rs.py:215-220 | Exactly the codewords that do not vanish are listed, in order; an ill-formed length is refused. |
| `Encoder.DamageIsListed` | dbs/container/rs.py:215-220 | A codeword of an encoded block with 1 to nsym changed symbols is always listed. |
| `CopyRepair.DecodeAny` | dbs/container/rs.py:269-282 | First each copy as it is, then, when the two differ in 1 to nsym places, each with those as erasures. |
| `CopyRepair.IdealDecoderMeetsContract` | dbs/container/rs.py:227-238 | The contract asked of the foreign decoder can be met: bounded-distance decoding is unambiguous. |
| `CopyRepair.RepairOfTwo` | dbs/container/rs.py:269-282 | One codeword comes back right if the first copy that is a word of the code is the one sent; and, if neither is a word of the code, if the first has at most nsym//2 changes, or does not decode and the second has at most nsym//2, or neither decodes and the disagreements of the copies plus twice what both have wrong alike are at most nsym. |
| `CopyRepair.FewChangesAreRepairable` | dbs/container/rs.py:269-316 | Counts alone that suffice: an unchanged first copy beside any second, an unchanged second beside at most nsym changes, or at most nsym//2 changes beside at most nsym. |
| `CopyRepair.ErasuresAreRepairable` | dbs/container/rs.py:269-282 | When neither copy decodes but the erasures suffice, neither copy is another word of the code. |
| `CopyRepair.DisjointDecodesAlone` | dbs/container/rs.py:269-282 | Disjoint changes that total at most nsym never need the erasures: one of the copies decodes alone. |
| `CopyRepair.RepairFromCopies` | dbs/container/rs.py:285-316 | The loop over codewords that prefers consistent copies, then decodes, with the sources used and whether anything was decoded. |
| `CopyRepair.CopiesRepair` | dbs/container/rs.py:285-316 | If every codeword can be repaired from the copies, the repair yields the block that was sent. |
| `CopyRepair.DecodedMeans` | dbs/container/rs.py:285-316 | A repair counts as decoded exactly if some codeword was a word of the code in no copy. |
| `CopyRepair.UsedMeans` | dbs/container/rs.py:285-316 | A copy is counted as a source exactly if some codeword was taken from it. |
| `CopyRepair.RepairKeepsLength` | dbs/container/rs.py:297-316 | The repaired data has the length of the stripped data, whatever the decoder returns within its contract. |
| `CopyRepair.TwoCopyRepair` | dbs/container/rs.py:285-316 | If every codeword index is repairable from the two copies, the original data comes back. |
| `CopyRepair.Decode` | dbs/container/rs.py:251-266 | Only damaged codewords are decoded and spliced in; one failure fails the whole. |
| `CopyRepair.SingleCopyDecode` | dbs/container/rs.py:251-266 | A single copy with at most nsym//2 changes in every codeword decodes to the data. |
| `Layout.Schedule` | dbs/container/stream.py:280-288 | The two-branch loop emits the schedule of first and second copies. |
| `Layout.ScheduleIsBijective` | dbs/container/stream.py:276-288 | Every position of the schedule holds one copy, and every copy stands at the position of its closed form. |
| `Layout.CopiesAreFarApart` | dbs/container/stream.py:148-150 | The two copies of a block are more than the burst distance apart, and the first block meets the bound. |
| `Layout.OneCopySurvives` | dbs/container/stream.py:148-150 | A range of at most burst_tolerance + 1 bytes misses one slot of every block. |
| `Layout.ToleranceIsTight` | dbs/container/stream.py:148-150 | Two bytes more than the tolerance can reach both slots of the first block. |
| `Records.DescriptorRoundTrip` | dbs/container/stream.py:795-799 | A packed block descriptor unpacks to itself, with its reserved bytes zero. |
| `Records.SealedTrailerOpens` | dbs/container/stream.py:229-263 | A sealed trailer opens to itself exactly when its ranges and its length equation hold. |
| `Records.OpenedTrailerWasSealed` | dbs/container/stream.py:243-263 | Bytes open as a trailer only if they are its sealed form, it names this container, and its block count, last chunk length and plaintext size are in range and fit together. |
| `Container.TrailerOpens` | dbs/container/stream.py:257-263 | The trailer of a cut plaintext satisfies the equation that opening checks. |
| `Sequences.CutIsFaithful` | dbs/container/stream.py:436-454 | Cutting at the chunk capacity loses nothing; only the last chunk may be short, and it is empty only for no data. |
| `ChunkCipher.NonceIsInjective` | dbs/crypto/chunked.py:34-39 | A nonce tells its prefix, the chunk index and the final flag, so no two chunks of a run share one. |
| `ChunkCipher.OpenedInPlace` | dbs/crypto/chunked.py:42-62 | With an ideal AEAD whatever opens is a chunk of the run, at its index, with its final flag, under the nonce prefix and the header it was sealed with. |
| `ChunkCipher.RunOpens` | dbs/crypto/chunked.py:42-62 | With the run's own prefix and header every chunk it sealed opens again. |
| `ChunkCipher.FoundIsAuthentic` | dbs/crypto/chunked.py:42-62 | With any nonce prefix and any header, under the run's key or another, the reader's cipher opens only chunks of the run in their places, and nothing at all unless prefix and header are the run's. |
| `ContainerRead.FormatIsAuthentic` | dbs/container/stream.py:578-591 | Hence every header a reader may find unlocks a cipher that opens nothing but the run's chunks in their places. |
| `Writer.StreamWriter.Place` | dbs/container/stream.py:562-567 | A slot goes out, and once the window is full the second copy of the oldest one. |
| `Writer.StreamWriter.Encode` | dbs/container/stream.py:547-560 | A group of chunks becomes its slots, descriptor and padding and tag included, the same for every split into groups. |
| `Writer.StreamWriter.Flush` | dbs/container/stream.py:526-545 | A batch is encoded in groups of sixteen and placed in order; too many blocks are refused before anything is placed. |
| `Writer.StreamWriter.Queue` | dbs/container/stream.py:521-524 | A full chunk joins the batch, which is flushed when it holds sixteen blocks for every worker. |
| `Writer.StreamWriter.Write` | dbs/container/stream.py:436-454 | Any piece of data continues the cut of everything written; a byte is always kept back for the last chunk. |
| `Writer.StreamWriter.Close` | dbs/container/stream.py:456-498 | The emitted bytes are the container of the cut of all data written: slots exactly in schedule order, trailer twice, header again; too many blocks raise. |
| `Writer.EmitOneMore` | dbs/container/stream.py:562-567 | Placing one more block extends the emission by exactly the next entries of the schedule. |
| `Writer.DrainCompletes` | dbs/container/stream.py:470-480 | Draining the window completes the schedule. |
| `RoundTrip.WriteContainer` | dbs/container/stream.py:436-498 | For every split into writes, every batch and every worker count the container is the same function of the data. |
| `RoundTrip.WriteThenRead` | dbs/container/stream.py:436-498 | What was written, however split, is what reading an unharmed container yields. |
| `EndOfStream.FirstDescriptors` | dbs/container/stream.py:725-744 | One parity pass over the joined codewords gives every offset the descriptor it would get alone. |
| `EndOfStream.ScanBlockCount` | dbs/container/stream.py:754-784 | The batched scan finds the first probe that decides the count. |
| `EndOfStream.ScanIsNeverWrong` | dbs/container/stream.py:754-784 | If every descriptor that decodes is genuine, a count that is returned is the true one. |
| `EndOfStream.DescriptorExactly` | dbs/container/stream.py:745-752 | A message shows an index and a final flag exactly if it starts with that packed descriptor and zero reserved bytes. |
| `EndOfStream.ScanDecidesExactly` | dbs/container/stream.py:770-779 | A probe yields a count exactly if it is the first copy of a last block or, with that many blocks, the second copy of its index stands at the probe. |
| `EndOfStream.ScanFindsTheEnd` | dbs/container/stream.py:766-779 | It is returned whenever a probed position from the last block's first copy on is readable: that copy or a tail second copy, after truncation too. |
| `EndOfStream.LocateEnd` | dbs/container/stream.py:690-723 | The trailers at the back, else the scanned count and the trailers behind its slots. |
| `EndOfStream.TrailerFlags` | dbs/container/stream.py:707-723 | With a trailer in use, a copy is flagged exactly if the bytes at its place are not the sealed form of that trailer. |
| `EndOfStream.TrailersArePlausible` | dbs/container/stream.py:690-723 | A trailer that is used agrees with the block count and is within its ranges. |
| `BlockRepair.RepairBlock` | dbs/container/stream.py:832-867 | A clean second copy, else the repair of both copies, accepted only with a fitting descriptor and the tag rule; what this answers is said apart from it in Healing.BlockComesBack, BlockRepair.CleanExactly and Healing.RepairTells. |
| `BlockRepair.CleanExactly` | dbs/container/stream.py:795-830 | A slot is accepted as a block exactly if it carries the tag of its own bytes and their data starts with the packed descriptor of that index, has a chunk length that fits its place and the trailer, and ends in zeros. |
| `Healing.MendedIsGenuine` | dbs/container/stream.py:844-857 | If every codeword of a block can be repaired from its copies, the repair answers that block when the tag rule lets it pass and nothing when not, whatever was decoded. |
| `Healing.BlockComesBack` | dbs/container/stream.py:832-867 | Over a written container: if neither slot of a block is clean and its codewords can be repaired from the two, the reader gets the genuine block exactly if a stored tag is its own, or nothing was decoded and the copies do not agree on another tag. |
| `Healing.HealedIsReadable` | dbs/container/stream.py:608-632 | Whatever the damage: as long as a header and an end are left and every block has a slot that stands, or slots that can be repaired in this way, the container reads back whole. |
| `Healing.DamagedWordShows` | dbs/container/stream.py:725-752 | A first codeword with at most nsym/2 symbols changed still shows the scan the descriptor that was sent in it. |
| `Healing.RepairTells` | dbs/container/stream.py:853-867 | A repair tells truly whether both copies have a part in it, only the second, whether anything was decoded, and whether no copy carries the block's tag. |
| `RepairReport.DamagedSparesMean` | dbs/container/stream.py:869-903 | The spares listed as damaged are exactly those whose first copy is clean and whose own bytes are cut short or do not carry and have its tag, in order. |
| `RepairReport.DoubtGoes` | dbs/container/stream.py:853-857 | Opening a block takes exactly that block off the list of those repaired without a matching tag. |
| `RepairWindow.NextPlacement` | dbs/container/stream.py:280-288 | The schedule at a position is decided by how many first and second copies came before. |
| `RepairWindow.WindowIsBounded` | dbs/container/stream.py:875-910 | Waiting and ready blocks are disjoint and number the distance between the next block and the last one met, at most interleave + 1; at the end none is left. |
| `Reader.StreamReader.TakeFirst` | dbs/container/stream.py:884-896 | A first copy is delivered when clean and kept waiting otherwise. |
| `Reader.StreamReader.TakeSecond` | dbs/container/stream.py:897-903 | A second copy repairs a waiting block or is checked as a spare; the report lists exactly the lost blocks, the damaged spares and the blocks still in doubt. |
| `Reader.StreamReader.TakeSlot` | dbs/container/stream.py:875-906 | One entry of the schedule keeps the window's contents right and within interleave + 1 blocks, whatever the damage. |
| `Reader.StreamReader.Deliver` | dbs/container/stream.py:904-906 | Blocks leave in order, each once, as what the source holds for that index. |
| `Reader.StreamReader.Slots` | dbs/container/stream.py:786-793 | Cutting slots from batched reads gives each position its own bytes, short at the end of the source. |
| `Reader.StreamReader.Chunks` | dbs/container/stream.py:608-632 | The plaintext is that of the blocks up to the first one lost or rejected, which is then the one raised and listed; it finishes without raising exactly when all blocks open and the digest agrees. At the end the report has counted every block by how it came back, lists exactly the damaged spares, and holds a digest mismatch exactly if the digest disagrees. The closing loop over undelivered blocks is never entered. |
| `ContainerRead.LocateHeader` | dbs/container/stream.py:660-688 | The front copy is parsed if it verifies, else the back copy if that does, else nothing; a copy that differs from the one used is reported. |
| `ContainerRead.OpenReader` | dbs/container/stream.py:578-591 | A reader opens exactly when a header verifies and parses and an end is found. A header copy is reported exactly if it differs from the one used, and a trailer copy exactly if the bytes at its place are not the sealed form of the one used. |
| `ContainerRead.AnyAlterationIsSafe` | dbs/container/stream.py:608-632 | For every source, wrong counts and swapped or missing slots included, the plaintext is a prefix of what was written, and all of it if every block opens. |
| `ContainerRead.ReadingIsSafe` | dbs/container/stream.py:578-632 | The same from the ideal AEAD on, for every source and whatever header it carries. |
| `ContainerRead.ReadContainer` | dbs/container/stream.py:578-632 | The same for the whole reading of any bytes: prefix always, everything if it finishes. |
| `WrittenContainer.SlotStands` | dbs/container/stream.py:456-498 | In a written container the scheduled slot stands at its offset. |
| `WrittenContainer.EndsStand` | dbs/container/stream.py:456-498 | Both headers and both trailers stand where a reader looks for them. |
| `WrittenContainer.GenuineIsClean` | dbs/container/stream.py:816-830 | A genuine slot is accepted as its block. |
| `WrittenContainer.DescriptorShows` | dbs/container/stream.py:725-752 | The first codeword of a genuine slot shows the scan its index and final flag. |
| `BurstSafety.SomeCopyIsIntact` | dbs/container/stream.py:148-150 | A tolerated burst leaves the bytes of one slot of every block as they were. |
| `BurstSafety.ScanSucceeds` | dbs/container/stream.py:754-784 | A tolerated burst that destroys both trailers leaves every probed descriptor untouched, so the scan finds the true count. |
| `BurstSafety.EndIsFound` | dbs/container/stream.py:690-723 | After a tolerated burst the true block count is found, with a genuine trailer or with none. |
| `BurstSafety.HeaderIsFound` | dbs/container/stream.py:660-688 | After a tolerated burst the header is found. |
| `BurstSafety.AllBlocksDelivered` | dbs/container/stream.py:875-910 | After a tolerated burst every block is delivered as written. |
| `BurstSafety.BurstIsTolerated` | dbs/container/stream.py:148-150 | Damage confined to one range of at most burst_tolerance(blocks) bytes anywhere, headers and trailers included: reading finishes and yields the whole plaintext. |
| `BurstSafety.UndamagedIsReadable` | dbs/container/stream.py:608-632 | An undamaged container reads back whole, without any assumption on the hashes. |
| `Pipeline.StepKeepsInv` | dbs/engine/pipeline.py:34-146 | Every step of every thread keeps the invariant on queues, locks, waiters, flags and exits. |
| `Pipeline.RunKeepsInv` | dbs/engine/pipeline.py:34-146 | So do all runs. |
| `Pipeline.ChannelsConserve` | dbs/engine/pipeline.py:107-139 | What was taken is a prefix of what was put, and queued bytes never exceed the larger of the capacity and the item at the head. |
| `Pipeline.PutOrGet` | dbs/engine/pipeline.py:107-139 | One pass through a put or get: it waits exactly if the queue is full for the item or empty, and else appends it or takes the front and wakes exactly those who sleep on the channel. |
| `Pipeline.NoLostWakeup` | dbs/engine/pipeline.py:73-77 | When no stop is under way any more, a stopped pipeline has no sleeping thread. |
| `Pipeline.SomeThreadCanStep` | dbs/engine/pipeline.py:107-146 | Until the with-block is left some thread can take a step other than failing: no deadlock. |
| `Pipeline.FailureIsRaised` | dbs/engine/pipeline.py:86-92 | If any stage, or the block itself, raised, the with-block does not end normally. |
| `Pipeline.FirstFailureStays` | dbs/engine/pipeline.py:67-71 | The first failure recorded is the one kept. |
| `Pipeline.NormalEndMeansAllTaken` | dbs/engine/pipeline.py:245-261 | When a backup's with-block ends normally, every channel was closed and fully taken. |
| `Rechunking.Compress` | dbs/engine/pipeline.py:189-214 | Whatever the items, the segments are those of their concatenation; digest and byte count see all of it. |
| `Rechunking.StoredMeetsContract` | dbs/engine/pipeline.py:319-343 | The contract asked of zlib can be met. |
| `Rechunking.Inflater.Feed` | dbs/engine/pipeline.py:319-332 | Any next bytes of the members are inflated as far as they reach, across member boundaries, and nothing stays undrained. |
| `Rechunking.Inflater.Finish` | dbs/engine/pipeline.py:341-343 | It raises exactly when what was fed does not end with a whole member; when all was fed the output is the segments. |
| `Rechunking.Encode` | dbs/engine/pipeline.py:189-233 | What reaches the container is the payload, or one member per segment in order. |
| `Rechunking.Decode` | dbs/engine/pipeline.py:346-356 | For every cutting of that into chunks the pieces are the payload again. |
| `Rechunking.PrefetchingSource.ReadAhead` | dbs/engine/pipeline.py:278-287 | The read-ahead puts exactly the prefetched range, in non-empty pieces. |
| `Rechunking.PrefetchingSource.Read` | dbs/engine/pipeline.py:289-311 | Every read that ends inside the prefetched range is what the plain source gives, and what other reads give is stated exactly. |
| `Rechunking.ServedAgrees` | dbs/engine/pipeline.py:289-311 | The cache differs from the plain source exactly for reads past the range into more of the file. |
| `Frames.FrameParts` | dbs/engine/frames.py:61-68 | However a frame is split, its parts join to it; it is refused exactly above the limit. |
| `Frames.FrameRoundTrip` | dbs/engine/frames.py:243-254 | A written frame is read back, whatever follows. |
| `Frames.FrameWasWritten` | dbs/engine/frames.py:243-254 | Only the bytes of a frame are read as that frame. |
| `Frames.SplitOfJoined` | dbs/engine/frames.py:208-254 | Splitting undoes joining. |
| `Frames.CleanSplitWasJoined` | dbs/engine/frames.py:208-254 | Nothing else splits cleanly. |
| `Frames.FrameReader.Fill` | dbs/engine/frames.py:221-230 | Filling the buffer changes nothing of what is left, and succeeds exactly when enough is left. |
| `Frames.FrameReader.Take` | dbs/engine/frames.py:232-241 | Taking gives the next bytes, compaction included. |
| `Frames.FrameReader.NextFrame` | dbs/engine/frames.py:243-254 | What is found depends on the bytes alone, not on how they are cut. |
| `PayloadReading.PayloadReader.ReadHeader` | dbs/engine/frames.py:338-346 | The header phase against the grammar. |
| `PayloadReading.PayloadReader.ReadManifest` | dbs/engine/frames.py:348-359 | The manifest phase against the grammar. |
| `PayloadReading.PayloadReader.ReadFile` | dbs/engine/frames.py:267-307 | One file read as the grammar says: data under its index, its end, and its size and digest or the reason it was skipped. What that accepts and refuses is AcceptedHasShape, DescribedIsAccepted and WhyRefused. |
| `PayloadReading.PayloadReader.ReadFiles` | dbs/engine/frames.py:361-368 | Every file of the manifest in turn. |
| `PayloadReading.PayloadReader.ReadRecords` | dbs/engine/frames.py:370-384 | Record batches, with the position in the model order carried across frames. |
| `PayloadReading.PayloadReader.ReadTrailer` | dbs/engine/frames.py:386-393 | The trailer phase against the grammar. |
| `PayloadReading.PayloadReader.Finish` | dbs/engine/frames.py:395-399 | Nothing may follow the trailer. |
| `PayloadReading.ReadPayload` | dbs/engine/frames.py:310-399 | All phases together compute the grammar's reading of the bytes. |
| `PayloadReading.BatchesSum` | dbs/engine/validate.py:112-121 | The counts by model add up to the number of records. |
| `PayloadReading.ReadThrough` | dbs/engine/validate.py:105-124 | A payload is accepted exactly when it parses and the trailer's counts agree with what was read. |
| `PayloadReading.CountsAgreeExactly` | dbs/engine/validate.py:115-124 | The counts agree exactly if the trailer tells the number of records of every model, of all records, and of the files not skipped. |
| `PayloadEmitting.EmitManifests` | dbs/engine/backup.py:310-317 | Manifests of at most 1000 entries, in order, refused exactly if a frame is above the limit. |
| `PayloadWriting.ManifestAt` | dbs/engine/backup.py:306-312 | The k-th manifest lists the k-th thousand of the files, and the last one what is left. |
| `PayloadEmitting.EmitFile` | dbs/engine/backup.py:352-370 | The data frames of a file while it can be read, then its end with the running size and digest, or the reason. |
| `PayloadEmitting.EmitFiles` | dbs/engine/backup.py:352-370 | All files, with what was skipped and how many were written; a stop where skipping is not allowed. |
| `PayloadEmitting.EmitRecords` | dbs/engine/backup.py:373-388 | The serialized pieces of every batch of every model as records frames, and the counts by model. |
| `PayloadEmitting.Produce` | dbs/engine/backup.py:282-328 | The emitted bytes are magic and frames of the draft; it raises exactly when a frame is above the limit, there are too many files, or a file is missing without leave. |
| `PayloadEmitting.WriteAndRead` | dbs/engine/validate.py:105-124 | For every cutting, what was emitted reads back whole and passes validation: the header names the draft's time, versions, migrations and models in order, entries and file chunks or skip reasons are those of the sources, the records are those of the tables, and the trailer lists what was missing and then each skipped file in order. It is emitted exactly under the conditions of Produce. |
| `PayloadWriting.PayloadRoundTrip` | dbs/engine/frames.py:310-399 | The same about the grammar: parsing undoes printing. |
| `JsonCodec.SomeCodecIsSound` | dbs/engine/frames.py:71-108 | The law asked of the JSON codec can be met: values have texts none of which begins another, lists joined item by item. |
| `PayloadWriting.DraftCountsAgree` | dbs/engine/backup.py:373-388 | The counts written are the counts a reader finds. |
| `PayloadGrammar.AcceptedHasShape` | dbs/engine/frames.py:257-399 | Any stream read to its finish is header, manifests, data and end per entry, records and trailer, whose values say what they must: every file not skipped ends with its own index, size and digest, every skipped one with a reason, and records never go back in the model order. |
| `PayloadGrammar.DescribedIsAccepted` | dbs/engine/frames.py:257-399 | The other way round: whatever parts say what they must, their bytes are read to the finish as that payload. |
| `PayloadRefusal.WhyRefused` | dbs/engine/frames.py:207-307 | Which exception a byte stream raises: not a payload exactly for another magic; an integrity failure exactly if, with all in order before it, a file's end tells another size or digest than its data has; a TypeError exactly if, with all in order before it, a record's model is a list or an object; anything else that is refused is malformed. |
| `Batching.FramedRecords` | dbs/serialize.py:250-265 | However large values are spliced in, the pieces are exactly "[r0,r1,…]" and none is empty. |
| `Batching.FramedLength` | dbs/serialize.py:338-343 | The size a framed batch takes, which is what the flush condition computes. |
| `Batching.Pages.Measured` | dbs/serialize.py:286-288 | The next page is never more than twice the last nor above `rows`, stays within the byte target at the measured mean unless it is one row, and is the largest such page. |
| `Batching.Pages.Next` | dbs/serialize.py:290-314 | Each page is the next rows of the snapshot: none twice, none left out, by key or by iteration. |
| `Batching.SerializeBatches` | dbs/serialize.py:317-347 | The batches hold all records in key order; each has 1 to `rows` records, never exceeds the limit, exceeds the budget only with a single row, and could not have taken the first record of the next; a row is refused exactly if it is above the limit. |
| `Backup.CutIsSerialized` | dbs/serialize.py:330-347 | The pieces of every batch join to the list of the records it took, and the batches take all records in order. |
| `Backup.Serialize` | dbs/engine/backup.py:380-385 | serialize_batches under the frame limit: every record in one batch and every batch within a frame, or a single row that no frame can hold. |
| `Backup.BackUpAndRead` | dbs/engine/backup.py:373-388 | Paging, batching, framing, reading and validation together: what a selection writes is read back as its records in order; the one thing about records that stops it is a row above the frame limit, and otherwise it is emitted exactly when the other frames fit and no file is missing without leave. |
| `ModelOrder.TopologicalOrder` | dbs/introspect.py:154-189 | A permutation in which every ancestor in the set comes first; a dependency is given up only where no remaining model is ready, so every one comes first when there is no cycle; a list that is in order already stays as it is. |
| `ModelOrder.GivenUpMeans` | dbs/introspect.py:171-188 | Wherever a model comes before one it inherits from or relates to, every model still to come needs another that is still to come. |
| `ModelOrder.SomeRootRemains` | dbs/introspect.py:178-188 | Some remaining model always has all its ancestors resolved. |
| `ModelOrder.CycleBreaker` | dbs/introspect.py:180-184 | The first remaining model whose ancestors are all placed; there is always one, so the default remaining[0] is never taken. |
| `ModelOrder.NoCycleHere` | dbs/introspect.py:171-180 | A pass without progress means that the remaining models contain a cycle. |
| `ModelOrder.BackupPlan` | dbs/introspect.py:94-111 | The worklist ends with the least set that holds the chosen models, repeated or not, and is closed under parents, in an order with parents first that gives up a dependency only where no model is ready; every implied parent knows exactly its children in the plan, each once for every time it was named. |
| `Jobs.StepKeepsInv` | dbs/jobs.py:47-152 | Every statement, crash and tick keeps the invariant on leases, events and processes. |
| `Jobs.BegunJobsAreCovered` | dbs/jobs.py:76-116 | In every run, once begin has returned, an unfinished event has its job lease, except exactly when its own process ran close after its closing update had raised. |
| `Jobs.LostJobExample` | dbs/jobs.py:105-116 | A run in which that happens: the exception is real. |
| `Jobs.RecoveryFinishes` | dbs/jobs.py:132-152 | In every run: if a begun job outside that exception has let its lease expire when a process reads the expired leases, then in every state after that process interrupts what it read the event is finished, and if it was unfinished until then it is Failed. |
| `Jobs.RecoverySparesOthers` | dbs/jobs.py:132-152 | A recovery fails no event but the running ones whose expired leases it read. |
| `Jobs.SuccessIsItsOwn` | dbs/jobs.py:76-130 | An event becomes Succeeded only by its own process closing it so. |
| `Jobs.FinishedForGood` | dbs/jobs.py:76-152 | In every run of the job protocol, crashes included, a finished event never changes again. |
| `Jobs.HeldIsExclusive` | dbs/leases.py:27-65 | While a lease has not expired nobody but its owner, or the owner's supervisor, changes it. |
| `Jobs.RenewedLeaseIsKept` | dbs/leases.py:27-51 | An owner of a lease that does not give it up holds it in every state, provided only that the clock is below the last expiry it wrote: less than LEASE_SECONDS pass up to each renewal and after the last one. In every state it expires when the last renewal said, and no other process changes it. |
| `Jobs.OwnerKeepsLease` | dbs/leases.py:44-51 | After any step that does not give a lease up, its owner holds it still, until clock + LEASE_SECONDS if the step was its renewal and until the earlier expiry if not. |
| `Jobs.RenewalExtends` | dbs/leases.py:44-51 | A renewal leaves the owner's lease expiring LEASE_SECONDS after it. |
| `Jobs.TakingExtends` | dbs/leases.py:27-41 | Taking succeeds exactly if the lease has expired or is the process's own, and then it expires LEASE_SECONDS after the time read. |
| `Jobs.TakeIsExact` | dbs/leases.py:27-41 | Create and update together take the runner lease exactly if it had no row, had expired, or was the process's own. |
| `Jobs.AcquiringExtends` | dbs/leases.py:27-41 | The job lease of an unfinished event is there to be acquired, and then expires LEASE_SECONDS after the time read. |
| `Jobs.GivingUpFrees` | dbs/leases.py:54-65 | Releasing, dropping, settling and the deletion of a recovery free or remove exactly the leases meant. |
| `Schedule.BackupSchedule.Resume` | dbs/schedule_runner.py:321-338 | An attempt that died is remembered once and goes on; a second one moves next_run_at instead and stops. |
| `Schedule.BackupSchedule.Run` | dbs/schedule_runner.py:341-370 | While the backup runs the row is marked as a first or a second attempt and next_run_at is unchanged; afterwards it holds the outcome and the next time. |
| `Schedule.BackupSchedule.RunDue` | dbs/schedule_runner.py:285-307 | A run without a crash is a path of the crashing machine; an unforced run attempts exactly if enabled, due and not after two interrupted attempts; next_run_at becomes now plus the interval exactly when it attempted or met the second interruption, and last_status is stated for every outcome. |
| `Schedule.AtMostTwoAttempts` | dbs/schedule_runner.py:285-370 | Wherever the process dies, at most two unforced attempts start between two changes of next_run_at. |
| `Schedule.ThirdRunOnlyMoves` | dbs/schedule_runner.py:330-337 | After two interrupted attempts the next unforced run moves next_run_at one interval past its time without starting. |
| `Schedule.TwoAttemptsHappen` | dbs/schedule_runner.py:285-370 | The bound of two is reached. |
| `AuditChain.AuditTrail.Record` | dbs/audit.py:78-113 | A new row, unsealed, with every field stated from the arguments: texts cut to their columns, succeeded exactly for Succeeded, started and finished where the status asks for it; nothing else changes. |
| `AuditChain.AuditTrail.Start` | dbs/audit.py:214-222 | Only an unfinished event starts, and nothing but its status and start change. |
| `AuditChain.AuditTrail.Close` | dbs/audit.py:233-249 | Only an unfinished event closes: the status given, succeeded exactly for Succeeded, the error code cut to its column, finished now, data and detail replaced only where given, and no other field changed. |
| `AuditChain.AuditTrail.Interrupt` | dbs/audit.py:252-271 | Exactly the unfinished events that are meant become Failed, not succeeded, with the code "interrupted" and finished now; no other field changes. |
| `AuditChain.AuditTrail.SealPending` | dbs/audit.py:306-333 | The next finished events in pk order join the chain with the next indices; no content and no sealed row changes. |
| `AuditChain.AuditTrail.Amend` | dbs/manager/transfer.py:73-75 | Only an unsealed entry, or a running one, gets other data. |
| `AuditChain.KeepsOverRuns` | dbs/audit.py:214-333 | In every run of record, queue, start, finish, fail, interrupt, sealing and the manager updates of an entry, from any moment of it to its end: the chain is intact and only grows, sealed rows never change, and an event that has left queued or running keeps its contents, its data aside where the manager replaces it before the seal. |
| `AuditChain.StatusesAgree` | dbs/audit.py:78-271 | In every run a row's succeeded agrees with its status, if what was recorded did. |
| `AuditChain.VerifyChain` | dbs/audit.py:364-392 | The check is intact exactly when the sealed rows are a chain, and otherwise names the first broken link. |
| `AuditChain.TrailVerifies` | dbs/audit.py:364-392 | Under what every run keeps, the sealed rows have indices 1…n and the check finds them intact. |
| `AuditChain.RunVerifies` | dbs/audit.py:364-392 | So does every run of the operations. |
| `AuditChain.ListingIsUnique` | dbs/audit.py:368-369 | Ordering by index and key leaves no choice of listing. |
| `AuditChain.SameHeadSameContents` | dbs/audit.py:282-289 | With an injective hash, two intact chains with the same head hold the same contents in the same order. |
| `AuditChain.SomeChainingIsInjective` | dbs/audit.py:282-289 | An injective hash exists. |

## Left out

- Key derivation, AES-GCM, BLAKE2 and SHA-256 are function arguments; `unwrap_key` and the parsing of
  the 152 header bytes are one argument of `ContainerRead`, and only their place in the file is modelled.
- The packing of parity rows into 64-bit words and numpy's gathering are byte sequences here.
- The whole-buffer decoder that `decode` falls back to for an ill-formed length is a function argument.
- The thread pool of the writer and of `_compress` is an ordered map; the writer's SHA-256 of the
  stream and the summary's plain statistics are not modelled.
- `verify` of the reader, which repeats the pass of `chunks` and keeps going after a rejected chunk.
- The texts of error messages and of repair reports; problems are kept apart by kind.
- Reading format version 1 and converting it.
- `encode_record`, natural keys and the loading of records; a row arrives as its encoded pieces.
- A payload's JSON is a tree of values; Python's treatment of duplicate keys, of NaN, of
  the infinities and of negative zero is not modelled.
- Listing the files of a backup: entries and chunks of each source are given, as is the reason for a skip.
- `AuditChain.VerifyChain` takes the rows already ordered by index and key, as the query returns them.
- The expiry of a lease is compared with the time a statement was given, which may be out of date, but
  the statement that reads the clock is one step with the statement that creates the lease row, and
  renewing and releasing read the clock in the step of their own statement.
- FinishedForGood: events of `Jobs` are running or finished; queued events, their start and their end
  are those of `AuditChain`, whose `KeepsOverRuns` covers them.
- Each process of `Jobs` begins at most one job, as every runner does.
- `Schedule` lets a run enter at any time read earlier, whether or not it was due then, which covers
  every run the check before the lease allows.
- The REST, MCP, admin and command-line front ends, file placement, SSH transport, retention and the
  session guard: plumbing or smaller claims.
