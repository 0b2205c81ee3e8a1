# Verified model of the media proxy's core

These Dafny files model four parts of the proxy and prove what they promise:

1. the CENC decryptor for fragmented MP4 and its box codec (`src/drm/cenc.rs`, `src/drm/mp4_atom.rs`), in its batch form and its streaming form;
2. byte-range streaming over aligned blocks from a server that fails and is reconnected to (`src/telegram/session.rs`, `src/telegram/handler.rs`);
3. the DASH to HLS conversion: live windows, segment numbering over reloads, playlist writing with skipped segments, segment index expansion (`src/mpd/timeline.rs`, `src/mpd/processor.rs`, `src/hls/skip_filter.rs`);
4. the HLS prefetcher: its queue, its pool of workers as a protocol of atomic steps, and the key of its cache (`src/hls/prebuffer.rs`).

`dafny verify dfyconfig.toml` checks everything.

## How the model is built

- Code that changes state step by step is a class or a method with loops (`Mp4Parser`, `Mp4Decrypter`, `BoxStream`, `SkipSegmentFilter`, `PlaylistPrefetcher`, the sample and index loops, the retry loop). Each such method is proved equal to a function of its inputs and the old state; the properties are then proved about those functions.
- The AES block function and its inverse are a parameter (`Cipher.Aes`); only the block length is assumed, and, where a lemma says so (`Inverts`), that one undoes the other. Counter mode and CBC are built on it.
- The packager of `Packager` is defined apart from the decryptor, after ISO/IEC 23001-7: `cenc` is one counter-mode pass over the joined protected bytes, `cens` one over the bytes in encrypted blocks of the pattern, which starts anew in every range; `cbc1` is one chain through the complete blocks of all ranges; `cbcs` starts pattern and chain anew in every range. Its counter blocks are the numbers of section 9.3: an 8-byte vector is the upper half and the block counter the lower, a 16-byte vector is the first block. A pattern of 0:0 stands for none: every block is encrypted.
- Boxes are written field by field as ISO/IEC 14496-12 and ISO/IEC 23001-7 lay them out (`InitPackage`, `Fragment.PackTfhd`, `SampleTables`, `TrackKeys.PackTenc`), with their names and schemes in letters, and reading them gives the fields back; the end-to-end results start from these writers.
- Integers are those of a release build: 32-bit and 64-bit fields wrap or truncate where the code lets them, written out as `% 2^n`. A box header whose 64-bit size makes the end of the box wrap aborts the listing (`Mp4Atom.Wraps`); `Mp4Atom.MachineAgreement` shows that this is what the parser's address arithmetic does in every buffer the machine can hold. Segment index positions are unbounded too; they agree with 64-bit arithmetic while the end of the described media is below 2^64.
- A slice outside a sample, an index into an empty `tkhd`, or a listing with a wrapping size aborts the program; methods and functions return `None` there (or `false`), and the contracts say exactly when, through nested boxes (`InitSegment.ReadableBox`, `Fragment.ReadableMoof`).
- The network is a value: what happens to every request and every reconnect. The clock is a parameter. Seconds are reals. Header maps are sequences of pairs in any order.
- URLs and names in playlists are opaque strings; in the cache key, strings are their UTF-8 bytes.

## Properties that fail, and when they hold

- Printing boxes and parsing them again gives them back exactly when their sizes fit 32 bits; the last box may instead wrap to size zero (`Mp4Atom.RoundTrip`).
- Stripping shortens a fragment by exactly the encryption overhead if and only if as many bytes are lost to wide headers and stray bytes as are added by made-up `tfhd` boxes (`Fragment.FragmentShrinks`). Relative to the end of the fragment every run moves by that difference, so it keeps its place exactly then (`Fragment.OffsetConservation`); in `Fragment.MadeUpTfhdMoves` it moves by 16 bytes.
- Cleaning an initialization segment twice changes nothing if and only if every sample entry comes out of the first pass settled: its child boxes print back to the bytes they were read from, and none is a protection box (`InitSegment.BoxTwiceExactly`). A restored codec with the fixed-field size of its wrapper suffices (`InitSegment.BoxTwice`); another size may do damage (`InitSegment.LayoutMatters`) or not (`InitSegment.LayoutHarmless`).
- On ordinary input (an initialization segment of `ftyp` boxes and one `moov`, a segment in which the parser finds one `moof` before one `mdat`) the batch form and the streaming form send the same bytes if and only if the stream aborts on the listed boxes, or the listing goes through and the stream sees nothing else to send, or both abort (`Refinement.StreamingRefinesBatch`). They differ in three ways. A last `mdat` of size 0, to the end of the file, goes out still encrypted, where the batch form decrypts it (`Refinement.EndlessMdat`); only a box that fills a multiple of 4 GiB and does not change is sent alike. Headers that claim less than their own length end the batch form's listing and are sent on as empty boxes by the stream (`Refinement.StuntedTail`). An unfinished box at the very end whose 64-bit size makes its end wrap aborts the batch form only (`Refinement.WrappingTail`).
- The batch form processes the first `moov`, `moof`, `sidx` and `mdat` and prints each at every place of its type. Every box comes out as its own processed form if and only if the boxes of each of these types have the processed form of the first, for which it suffices that none occurs twice (`SeveralFragments.EachBoxItself`). Nothing of a later fragment reaches the output (`SeveralFragments.LaterFragmentsLost`); of two fragments the batch form prints the first twice, where the stream sends both (`SeveralFragments.SecondFragmentLost`).
- Samples packaged as common encryption prescribes come out, whatever they hold and whatever invertible block function is used, under exactly these conditions (`Packager.RoundTripExactly`). `cenc`: every protected range that more protected bytes follow is a whole number of blocks. `cens`: the same, and no protected byte lies in a skipped block, because the program ignores the pattern; for a sample without a map that is a skip count of zero or a sample no longer than the encrypted blocks of one period (`Packager.CensWithoutMap`), and `Packager.CensFails` gives 32 bytes that do not come out. `cbc1`: at most one protected range holds a complete block, because the program starts the chain anew in each range (`Packager.TwoChains`). `cbcs`: there is a pattern, or no range holds a complete block, because the program takes a pattern of 0:0 for no encryption (`Packager.NoPatternFails`).
- Sample entries of a track fragment with several runs are looked for in their places if and only if there is one run: sizes and offset are those of the last run (`SeveralRuns.RunsExactly`, `SeveralRuns.TwoRuns`).
- The media sequence of a live `SegmentTimeline` without a start number is the first segment's time over the median duration. It never decreases from one reload to a later one, wherever the two begin, if and only if the median does not grow (`LiveWindow.TimelineSequenceExactly`); `LiveWindow.TimelineGoesBack` is a stream on which it goes from 10 to 6.
- The decryptor keeps one scheme and one source of vectors for all tracks. They are those of every track of an initialization segment if and only if the tracks have the same (`InitPackage.SourcesExactly`).
- The patched index follows the fragment that got shorter if and only if it has 64-bit times and its first reference is as long as the overhead, or there is no overhead; in an index with 32-bit times the patched field is another one (`IndexPatch.IndexFollows`).
- The places computed for the samples are the run offsets counted from the first payload byte if and only if the smallest run offset is that of the first payload byte and no difference wraps (`Delivery.RunPlaces`).
- A key is found alike for both ways to write a track's identifier if and only if not both are given with different keys (`TrackKeys.SwappedLookup`).
- The keystream indices of a sample are consecutive exactly when its subsample map is block aligned (`Counter.IndicesConsecutive`), and the program's 64-bit counter move is the 128-bit one exactly when the low half does not overflow (`Cipher.OffsetIvExact`).
- The stream sees the boxes the parser lists if and only if all headers are good ones and the listing does not abort (`Streaming.SeenIsListed`).
- A stream of a range ends without error exactly when the network survives as many requests as the range needs (`RangeStream.StreamDocumentRange`); the declared length is the sent length exactly when the file is not empty (`RangeHeader.DeclaredLength`).
- A segment keeps its number over two reloads exactly when both or neither have settled, that is, moved past the start of the stream (`LiveWindow.SameNumberInEveryReload`); `LiveWindow.EarlyReloadRenumbers` is a stream where it does not. The source's comment calls the nominal duration a lower median; it is the upper one, which is the same exactly when the length is odd or the two middle values are equal (`LiveWindow.UpperMedian`).
- The announced initialization section is the segment's own, byte range included, exactly when the first segment of the run with that URL has the same range (`Playlist.InitOfRun`).
- The comment in the prefetch worker says that no URLs are lost. None is lost to a missed wake-up (`Prebuffer.WakeupsNotLost`), but a worker that leaves drops what is queued. A run drops nothing if and only if the worker has not left, or its idle test met an empty queue and nothing came after it, or the last change after the test was a refresh without URLs (`Prebuffer.NothingDropped`). A playlist refreshed between the test and the removal loses all its URLs (`Prebuffer.RefreshLost`), and so does one that nobody asks about while URLs are still queued (`Prebuffer.IdleWithQueue`).
- Two different requests share a cache key if and only if one URL goes on with the first encoded header lines of the other request, whose other headers the first has (`CacheKey.KeysEqual`); one of the URLs then holds a newline. Every request with headers has such a counterpart (`CacheKey.NewlineCollides`), and the cache then answers with the wrong bytes (`Prebuffer.CacheConfused`).

## Model

| member | source | states |
|---|---|---|
| Mp4Atom.Mp4Parser.ReadAtomAt | src/drm/mp4_atom.rs:78-111 | reads the first box between two positions and looks at nothing outside them; 32-bit, 64-bit and to-the-end sizes, and the abort when a 64-bit size wraps |
| Mp4Atom.Mp4Parser.ReadAtom | src/drm/mp4_atom.rs:53-60 | advances the position past the box that was read, or stays when there is none; aborts with the read |
| Mp4Atom.Mp4Parser.ListAtoms | src/drm/mp4_atom.rs:62-76 | lists every box and restores the position, or aborts exactly when a header on the way wraps |
| Mp4Atom.ChildrenOf | src/drm/mp4_atom.rs:114-117 | the boxes of a payload are those of the same bytes at top level, aborts included |
| Mp4Atom.ListableExactly | src/drm/mp4_atom.rs:78-111 | only the header of an unfinished box behind the complete ones can abort a listing |
| Mp4Atom.ListedBack | src/drm/mp4_atom.rs:22-76 | listing packed boxes gives them back if and only if they are printable |
| Mp4Atom.RoundTrip | src/drm/mp4_atom.rs:22-76 | the same for the boxes read one after the other |
| Mp4Atom.ReparseStable | src/drm/mp4_atom.rs:22-111 | for a buffer that can be listed: list, print, list equals list if and only if the boxes are printable, always below 4 GiB; printing never gets longer |
| Mp4Atom.FormsRead | src/drm/mp4_atom.rs:78-111 | boxes written with a 32-bit size, a 64-bit size or, the last one, up to the end are read as the same boxes, whatever form each has |
| Mp4Atom.FileNames | src/drm/cenc.rs:125-134 | the box codes of a file are their four letters |
| Mp4Atom.TrackNames | src/drm/cenc.rs:190-286 | the same on the path down to the sample entries |
| Mp4Atom.ProtectionNames | src/drm/cenc.rs:303-337 | the same inside a sample entry |
| Mp4Atom.FragmentNames | src/drm/cenc.rs:411-480 | the same inside a fragment |
| Mp4Atom.MachineAgreement | src/drm/mp4_atom.rs:101-108 | the bound test and the slice in 64-bit arithmetic find a box, none, or abort exactly as modelled |
| Cipher.CtrTwice | src/drm/cenc.rs:964-999 | counter mode at any block offset undoes itself |
| Cipher.OffsetIvExact | src/drm/cenc.rs:964-985 | adding the offset to the low 64 bits equals adding it to the 128-bit counter if and only if the low half does not overflow |
| Cipher.CtrContinues | src/drm/cenc.rs:964-999 | restarting at a block offset continues the keystream of the whole sample |
| Cipher.CbcInverts | src/drm/cenc.rs:1146-1178 | CBC decryption of complete blocks undoes CBC encryption, a partial last block included |
| Cipher.CbcCut | src/drm/cenc.rs:1146-1178 | a CBC chain may be cut at any block border |
| Bytes.XorBitwise | src/drm/cenc.rs:964-1000 | a bit of the exclusive or is set exactly when it is set in one of the two bytes |
| Bytes.FlagMeans | src/drm/cenc.rs:522-531 | a flag is set exactly when the number from its bit on is odd |
| Pattern.GatherStretches | src/drm/cenc.rs:1078-1120 | the first loop collects exactly the encrypted stretches and where they stand |
| Pattern.PutBackStretches | src/drm/cenc.rs:1120-1144 | the second loop puts each decrypted stretch back in its place and leaves all else |
| Pattern.DecryptCbcsPattern | src/drm/cenc.rs:1078-1144 | gather, decrypt as one chain, put back equals walking the blocks once with the pattern |
| Pattern.PeriodsArePattern | src/drm/cenc.rs:1078-1144 | working period by period decrypts exactly the blocks whose number modulo the period is below the crypt count |
| Pattern.PatternBlock | src/drm/cenc.rs:1078-1144 | each complete block in the pattern is decrypted against the nearest encrypted block before it; every other byte stays |
| Pattern.PatternInverts | src/drm/cenc.rs:1078-1144 | pattern decryption undoes the matching encryptor for every length and pattern |
| Pattern.CbcsInverts | src/drm/cenc.rs:1078-1178 | the same for the program's case distinction, empty patterns and unknown keys included |
| Samples.DecryptSampleCenc | src/drm/cenc.rs:915-958 | the counter-mode loop equals the walk over the subsample map |
| Samples.DecryptSampleCbc1 | src/drm/cenc.rs:1002-1029 | the CBC loop equals the walk, each range a chain of its own |
| Samples.DecryptSampleCbcs | src/drm/cenc.rs:1031-1076 | the pattern loop equals the walk with the constant or per-sample vector |
| Samples.DecryptSample | src/drm/cenc.rs:888-912 | dispatch on the scheme; clear samples are returned as they are |
| Samples.WalkExact | src/drm/cenc.rs:925-957 | a walk goes through if and only if the map fits the sample; then length and clear bytes are kept |
| Samples.WalkInverts | src/drm/cenc.rs:925-957 | a walk with the inverse piece function undoes the walk |
| Samples.SampleDecryption | src/drm/cenc.rs:888-1076 | under every scheme decryption goes through if and only if the map fits, and then keeps length and every clear byte |
| Samples.CounterModeTwice | src/drm/cenc.rs:915-958 | cenc and cens: decrypting twice gives the sample back for every map that fits, aligned or not |
| Packager.CounterBlocks | src/drm/cenc.rs:917-923 | the counter blocks of a sample: for an 8-byte vector the number of the block is the lower half, a 16-byte vector is the first block |
| Packager.Vectors | src/drm/cenc.rs:917-923 | the padded vector is the first of these blocks, and moving it gives the others |
| Counter.IndicesConsecutive | src/drm/cenc.rs:925-957 | the keystream indices used are consecutive if and only if the map is block aligned |
| Counter.CounterWalk | src/drm/cenc.rs:915-999 | without counter overflow, range by range is one exclusive or of the joined protected bytes with one 128-bit keystream |
| Counter.CounterContinuity | src/drm/cenc.rs:915-999 | over an aligned map this is one continuous counter-mode pass, the clear bytes interleaved back |
| Packager.PlansExactly | src/drm/cenc.rs:964-999 | adding keystream bytes by two plans in turn restores a sample under every invertible block function if and only if the plans are the same |
| Packager.CounterExactly | src/drm/cenc.rs:915-999 | a cenc or cens sample, encrypted in one counter-mode pass over the bytes its map and pattern mark, comes out if and only if the map is block aligned and, for cens, no protected byte is skipped |
| Packager.CensWithoutMap | src/drm/cenc.rs:897-931 | for a sample without a map: a skip count of zero, or no byte behind the encrypted blocks of the first period |
| Packager.CensFails | src/drm/cenc.rs:897-931 | two zero blocks under the pattern 1:1 do not come out |
| Packager.ChainIsWalk | src/drm/cenc.rs:1002-1029 | one chain through all ranges is a chain for each range, as long as at most one range holds a complete block |
| Packager.TwoChains | src/drm/cenc.rs:1002-1029 | with two such ranges there is a sample that does not come out |
| Packager.NoPatternFails | src/drm/cenc.rs:1078-1096 | under cbcs with the pattern 0:0 there is a block function under which a sample of zeros stays encrypted |
| Packager.SampleRoundTrip | src/drm/cenc.rs:888-1178 | decryption undoes encryption under every scheme for every restorable sample |
| Packager.RoundTripExactly | src/drm/cenc.rs:888-1178 | exactly the restorable kinds of samples come out, under all four schemes |
| SampleTables.ParseSenc | src/drm/cenc.rs:540-596 | the senc loops equal the table reader |
| SampleTables.SencRoundTrip | src/drm/cenc.rs:540-596 | reading a written senc gives its entries back for every count, flag, vector source and subsample list |
| SampleTables.SencCursor | src/drm/cenc.rs:540-596 | the cursor never passes the end of the data |
| SampleTables.TruncatedSenc | src/drm/cenc.rs:540-596 | cutting a senc leaves every entry that ends before the cut unchanged |
| SampleTables.ParseTrun | src/drm/cenc.rs:598-653 | the trun loop equals the table reader |
| SampleTables.TrunRoundTrip | src/drm/cenc.rs:598-653 | reading a written trun gives count, offset and sizes back under every combination of flags |
| SampleTables.ModifyTrun | src/drm/cenc.rs:655-667 | the patched payload is the shifted one |
| SampleTables.ShiftedTrun | src/drm/cenc.rs:655-667 | only the data offset changes, by exactly the overhead if and only if the difference fits 32 bits |
| SampleTables.ShiftTwice | src/drm/cenc.rs:655-667 | shifting again by nothing changes nothing |
| InitSegment.ChildrenCorrespond | src/drm/cenc.rs:190-286 | cleaning keeps order and content: each kept box comes out as itself, or cleaned if it is on the path to the sample entries |
| InitSegment.MoovCleaned | src/drm/cenc.rs:190-202 | the cleaned moov has no direct pssh child, and its other children are the original ones in order |
| InitSegment.CleanedEntry | src/drm/cenc.rs:288-339 | a cleaned sample entry carries the codec its sinf names, keeps its fixed fields, and has exactly the unprotected children |
| InitSegment.CodecOfEntry | src/drm/cenc.rs:300-309 | the codec is that of the last sinf, even when that names none |
| InitSegment.CodecOfSinf | src/drm/cenc.rs:318-328 | in a sinf the last frma of at least four bytes names it |
| InitPackage.FixedFields | src/drm/cenc.rs:290-294 | how many bytes of fixed fields an entry has, by its four letters |
| InitSegment.CleanedStsd | src/drm/cenc.rs:271-286 | the cleaned stsd is read as the cleaned entries |
| InitSegment.AnnouncedEntries | src/drm/cenc.rs:271-286 | entries behind the announced number are not looked at |
| InitPackage.EntryCleaned | src/drm/cenc.rs:288-339 | an encrypted sample entry as written comes out with its original format, the same fields, and exactly its boxes that have nothing to do with protection |
| InitSegment.BoxShrinks | src/drm/cenc.rs:190-316 | cleaning never makes a box longer |
| InitSegment.EntrySettled | src/drm/cenc.rs:288-316 | cleaning leaves exactly those entries alone whose child boxes print back to their bytes and are not protection boxes |
| InitSegment.BoxTwiceExactly | src/drm/cenc.rs:190-316 | cleaning a cleaned box changes nothing if and only if every sample entry in it came out settled |
| InitSegment.BoxTwice | src/drm/cenc.rs:190-316 | so cleaning is idempotent when every restored codec keeps the fixed-field size of its wrapper |
| InitSegment.LayoutMatters | src/drm/cenc.rs:288-316 | an entry with another layout which a second pass changes |
| InitSegment.LayoutHarmless | src/drm/cenc.rs:288-316 | an entry with another layout which a second pass leaves alone |
| Fragment.FragmentShrinks | src/drm/cenc.rs:408-515 | the packed moof shrinks by exactly the overhead if and only if lost bytes and added tfhd bytes balance; what "no lost bytes" means |
| Fragment.TrafCorrespond | src/drm/cenc.rs:438-512 | a cleaned traf has exactly the boxes that are not senc, saiz or saio, in order, the truns shifted |
| Fragment.TablesGone | src/drm/cenc.rs:417-422 | the boxes that stay are those not named senc, saiz or saio by their letters, and none of these is left |
| Fragment.TrafHeader | src/drm/cenc.rs:499-512 | a cleaned traf has its own tfhd, or without one a written tfhd without optional fields that names the current track, or none if no track is current |
| Fragment.OffsetConservation | src/drm/cenc.rs:408-515 | relative to the end of the moof every run moves by the bytes added less the bytes lost, so it keeps its place if and only if these are equal; its sizes stay |
| Fragment.PlainConservation | src/drm/cenc.rs:408-515 | in a plain fragment with tfhd boxes every run keeps its place |
| Fragment.MadeUpTfhdMoves | src/drm/cenc.rs:502-512 | a fragment whose run is moved by 16 bytes |
| Fragment.TracksAreRuns | src/drm/cenc.rs:438-515 | with one run in each traf, each track has the original offset and the sizes of its run, in order |
| Fragment.FragmentTwice | src/drm/cenc.rs:408-515 | a second pass over a cleaned moof changes nothing |
| Fragment.LastRunWins | src/drm/cenc.rs:617-653 | only the last readable trun of a traf keeps its sizes |
| Fragment.LastRunPlaces | src/drm/cenc.rs:477-483 | only the last trun places the samples, and one that cannot be read places them at offset 0 |
| Fragment.OneTrackPerTraf | src/drm/cenc.rs:408-515 | a moof adds one track per traf and keeps the other settings |
| Fragment.FragmentLearned | src/drm/cenc.rs:408-436 | a moof leaves exactly its own tracks, and the overhead it remembers is what the printed moof has lost if and only if lost and added bytes balance |
| Fragment.TfhdRoundTrip | src/drm/cenc.rs:517-538 | reading a written tfhd, whichever optional fields it has, gives track identifier and default sample size back; without the size field the size learned before stays |
| IndexPatch.IndexPatched | src/drm/cenc.rs:669-683 | the patched payload of a written index of either version is exactly the written patched index |
| IndexPatch.IndexFollows | src/drm/cenc.rs:669-683 | the first reference loses exactly the overhead if and only if the index has 64-bit times and the reference was long enough, or there is no overhead; in version 0 no size changes |
| Decrypter.Mp4Decrypter.ProcessSidx | src/drm/cenc.rs:669-683 | the index payload with that field patched |
| MediaData.JobsGoThrough | src/drm/cenc.rs:745-802 | the sample loop completes if and only if every subsample map fits |
| MediaData.AllJobsExactly | src/drm/cenc.rs:745-802 | the samples decrypted are exactly those of known size that end inside the data, each behind its track's start by the sizes before it |
| Sorting.SortStable | src/drm/cenc.rs:752-756 | tracks with the same offset keep their order |
| MediaData.LeftAlone | src/drm/cenc.rs:686-770 | media data stays as it is when no track has a key and vectors, or there is no track and not one key or no vectors |
| MediaData.RangesApart | src/drm/cenc.rs:765-799 | tracks whose ranges do not meet share no bytes |
| MediaData.InPlace | src/drm/cenc.rs:745-802 | for samples that do not share bytes, each becomes exactly its decryption, every other byte and the length stay, and track order does not matter |
| MediaData.EachSample | src/drm/cenc.rs:765-799 | sample by sample, at the place its sizes give |
| MediaData.PlacesAreOffsets | src/drm/cenc.rs:756-770 | the track starts computed are the offsets from a given byte if and only if the smallest offset is that byte's and no difference wraps |
| MediaData.JobsDecrypt | src/drm/cenc.rs:745-802 | the same for any list of samples, over any intermediate output |
| MediaData.DecryptsUnique | src/drm/cenc.rs:745-802 | such a result is unique: only the set of samples matters |
| MediaData.OneTrackCompatible | src/drm/cenc.rs:770-798 | the samples of one track never share bytes |
| MediaData.DecryptTracks | src/drm/cenc.rs:745-802 | the loop over a copied buffer equals running the samples in the program's order |
| MediaData.DecryptTrack | src/drm/cenc.rs:765-799 | one track, in place on an array |
| MediaData.DecryptInSequence | src/drm/cenc.rs:700-743 | the fallback loop without tracks equals samples taken one behind the other |
| MediaData.InSequenceExactly | src/drm/cenc.rs:700-743 | its result is as long as the samples reach, and every sample that begins inside the data is decrypted at its place |
| MediaData.SequenceIsTrack | src/drm/cenc.rs:700-730 | in the fallback, samples of known size lie where they would in a track that begins with the data, and the first of unknown size takes all that is left |
| Decrypter.Mp4Decrypter.ProcessMoov | src/drm/cenc.rs:190-202 | the cleaned moov and the learned settings, or an abort exactly when a listing below it or an empty tkhd aborts |
| Decrypter.Mp4Decrypter.ProcessTrak | src/drm/cenc.rs:204-233 | the cleaned trak, with the same aborts; its identifier becomes current before its children are read |
| Decrypter.Mp4Decrypter.ProcessStsd | src/drm/cenc.rs:271-286 | at most the announced number of entries, each cleaned |
| Decrypter.Mp4Decrypter.ProcessSampleEntry | src/drm/cenc.rs:288-316 | the cleaned entry, and the settings its protection boxes set |
| InitPackage.SchmRoundTrip | src/drm/cenc.rs:341-346 | reading a written schm leaves the scheme of its four letters and nothing else |
| InitPackage.OtherSchemes | src/drm/cenc.rs:53-62 | every other four letters are taken for cenc |
| InitPackage.EntryRead | src/drm/cenc.rs:288-346 | an encrypted sample entry as written, with sinf(frma, schm, schi(tenc)) among any other boxes, is read: its scheme and tenc are learned |
| InitPackage.TkhdRead | src/drm/cenc.rs:204-223 | a written tkhd of version 0 or 1 names the track |
| InitPackage.TrakRead | src/drm/cenc.rs:204-286 | a written trak, through mdia, minf, stbl and stsd, is read as its identifier and its entry |
| InitPackage.MoovRead | src/drm/cenc.rs:190-286 | a written moov is read as its tracks one after the other |
| InitSegment.EmptyTkhdAborts | src/drm/cenc.rs:206-212 | a moov with a track whose first tkhd is empty aborts the program |
| InitPackage.TracksLearned | src/drm/cenc.rs:348-402 | under each identifier stand the pattern, vector size, constant vector and key identifier of that track, and all others stay |
| InitPackage.SourcesExactly | src/drm/cenc.rs:341-402 | the one scheme and the one source of vectors that are kept are those of every track if and only if the tracks have the same |
| InitPackage.TrackKnown | src/drm/cenc.rs:190-402 | after a written moov everything about a track of a fragment that belongs to it is known: scheme, vectors, key, pattern |
| TrackKeys.TencRoundTrip | src/drm/cenc.rs:348-402 | a written tenc gives its track exactly its pattern, vector size, constant vector and key identifier, and leaves all other tracks alone |
| Decrypter.Mp4Decrypter.ProcessMoof | src/drm/cenc.rs:408-436 | the cleaned moof and the tracks of all its trafs, or an abort exactly when listing it or a traf aborts |
| Decrypter.Mp4Decrypter.ProcessTraf | src/drm/cenc.rs:438-515 | the cleaned traf, the sizes and sample data of its track |
| TrackKeys.SwappedLookup | src/drm/cenc.rs:841-873 | an identifier and its swapped form find the same key if and only if not both are given with different keys |
| TrackKeys.SwappedFields | src/drm/cenc.rs:846-860 | the swapped form has the first three fields of the UUID in the other byte order |
| TrackKeys.KeyChosen | src/drm/cenc.rs:841-880 | a track gets the key of its identifier, else of the swapped identifier, else the only key; an identifier of zeros names none |
| TrackKeys.NoKey | src/drm/cenc.rs:745-770 | a sample of known size that ends inside the media data is decrypted if and only if its track's identifier is given in some form or there is a single key; otherwise no sample of the track is |
| Decrypter.Mp4Decrypter.DecryptMdat | src/drm/cenc.rs:686-802 | the decrypted payload under the state, or an abort |
| Decrypter.Mp4Decrypter.DecryptSegment | src/drm/cenc.rs:119-142 | the batch form, aborts included: the first box of each kind, processed in fixed order, printed at every place of that kind |
| Decrypter.PrintedWithoutInit | src/drm/cenc.rs:133-142 | without the initialization segment exactly what is not ftyp or moov is printed |
| Decrypter.Mp4Decrypter.ProcessInitOnly | src/drm/cenc.rs:148-170 | the cleaned initialization segment and the settings learned from it, or an abort |
| Decrypter.InitKeepsBoxes | src/drm/cenc.rs:148-170 | a cleaned initialization segment has all its boxes in their places, unchanged but for the moov, with or without one |
| Streaming.StreamExtends | src/drm/cenc.rs:1239-1349 | feeding bytes in two parts is feeding them at once |
| Streaming.ChunkIndependence | src/drm/cenc.rs:1239-1349 | any two ways to cut the same bytes give the same output and final state |
| Streaming.SeenIsListed | src/drm/cenc.rs:1265-1300 | the stream sees the boxes the parser lists if and only if every header is good and the listing does not abort |
| Streaming.StreamIsFold | src/drm/cenc.rs:1239-1349 | on good headers the stream is a fold over the boxes it sees, a last partial box dropped; they are the listed ones unless that partial box aborts the listing |
| Streaming.BoxStream.StartBox | src/drm/cenc.rs:1262-1300 | takes a complete header out of the buffer and loses no byte |
| Streaming.BoxStream.NextBox | src/drm/cenc.rs:1262-1340 | one turn of the inner loop is one step of the one-pass form |
| Streaming.Drain | src/drm/cenc.rs:1262-1345 | the inner loop sends what the one-pass form sends for the bytes so far |
| Streaming.DecryptSegmentStreaming | src/drm/cenc.rs:1193-1350 | the whole loop: output and final state depend only on the joined bytes before the first upstream error |
| Refinement.ParseConcat | src/drm/mp4_atom.rs:62-111 | the boxes read from a buffer of whole boxes followed by another are the boxes of both |
| Refinement.ListableConcat | src/drm/mp4_atom.rs:62-111 | listing both goes through exactly when it does on the first and, from its end on, on the second |
| Refinement.StreamOverListed | src/drm/cenc.rs:1239-1349 | without a box to the end of the file the stream makes of the listed boxes what the fold over them does, and goes on behind them |
| Refinement.SilentExactly | src/drm/cenc.rs:1262-1340 | a stream sends nothing exactly when it meets complete boxes of type sidx only and no box without end |
| Refinement.StreamingRefinesBatch | src/drm/cenc.rs:119-170 | on an ordinary init and segment both forms give the same bytes, with and without the init, and abort alike, under exactly the condition given above |
| Refinement.RunRefinesBatch | src/drm/cenc.rs:1193-1350 | for every cutting into chunks, an undisturbed streaming run sends what the batch form returns, whenever it returns, under exactly that condition |
| Refinement.EndlessMdat | src/drm/cenc.rs:1278-1296 | behind whole boxes with one fragment, a media data box of size 0 is ordinary, goes out as it is, and is not what the batch form returns |
| Refinement.StuntedTail | src/drm/cenc.rs:1265-1300 | eight bytes behind an ordinary segment of whole boxes for which the stream sends an empty box that is not listed |
| Refinement.WrappingTail | src/drm/mp4_atom.rs:101-107 | 16 bytes which, behind any ordinary segment of whole boxes, make the batch form abort and leave the streaming form as it was |
| SeveralFragments.EachBoxItself | src/drm/cenc.rs:119-142 | every box is printed as its own processed form if and only if the boxes of each processed type have the form of the first; so if none occurs twice |
| SeveralFragments.LaterFragmentsLost | src/drm/cenc.rs:119-142 | the output does not depend on processed boxes that are not the first of their type |
| SeveralFragments.SecondFragmentLost | src/drm/cenc.rs:119-142 | of two fragments the batch form prints the first twice, and the stream each as its own processed form |
| SeveralRuns.RunsExactly | src/drm/cenc.rs:745-802 | the samples of all runs are looked for in their places if and only if there is one run |
| SeveralRuns.TrackFromRuns | src/drm/cenc.rs:438-515 | a track has offset and sizes of the last run of its traf |
| SeveralRuns.TwoRuns | src/drm/cenc.rs:617-653 | of two runs of one sample, the first sample's entry is applied where the second sample stands |
| Delivery.RunPlaces | src/drm/cenc.rs:745-770 | with one run in each traf, the places computed are the run offsets from the first payload byte if and only if the smallest is that byte's and no difference wraps |
| Delivery.PlainSamplesComeOut | src/drm/cenc.rs:408-802 | behind a packaged fragment of any number of tracks and any other boxes, with sizes in the run or one default size in the tfhd, media data that holds the encrypted samples where the runs say is decrypted to the plain samples in the same places, and nothing else changes |
| InitPackage.SamplesFromInit | src/drm/cenc.rs:1193-1350 | end to end from the bytes of the initialization segment: with the keys its key identifiers name, the stream sends the cleaned fragment and media data with the plain samples in their places |
| Delivery.KnownUnannounced | src/drm/cenc.rs:95-113 | without an initialization segment exactly the tracks of cenc with 8-byte vectors under the only key are known |
| Delivery.ClearFragment | src/drm/cenc.rs:686-802 | the media data behind a fragment without vectors is not touched, whatever was learned before |
| Delivery.PlainFragment | src/drm/cenc.rs:408-515 | a packaged fragment can be read, and every byte of it belongs to a listed box |
| Delivery.CleanedRunNamesThem | src/drm/cenc.rs:408-515 | the cleaned run of every track has the same offset from the first payload byte as the packaged one |
| RangeStream.FetchChunk | src/telegram/session.rs:614-702 | retries one block within the reconnect budget of the whole stream |
| RangeStream.StreamDocumentRange | src/telegram/session.rs:715-792 | emits a prefix of the slice whatever fails; all of it if and only if no error ends the stream, which is exactly when the network survives the needed requests |
| RangeStream.BudgetSuffices | src/telegram/session.rs:623-680 | at most six drops and working reconnects are survived, whatever the range |
| RangeStream.SeventhDropKills | src/telegram/session.rs:660-666 | seven drops in a row are not survived |
| RangeStream.RequestsNeeded | src/telegram/session.rs:715-792 | a range inside the file needs one answered request for each block of 512 KiB that it touches |
| RangeHeader.RangeShape | src/telegram/handler.rs:407-445 | the parsed range is inside the file and not inverted, except for an empty suffix of a non-empty file |
| RangeHeader.WholeFile | src/telegram/handler.rs:407-417 | without a header, or without a dash in it, the range is the whole file |
| RangeHeader.AnyRange | src/telegram/handler.rs:413-445 | what every other header asks for, from the texts on both sides of its first dash, unreadable ones included |
| RangeHeader.NumbersRead | src/telegram/handler.rs:419-440 | the numbers that can be read are decimal ones below 2^64, behind zeros or a plus sign if there are any |
| RangeHeader.ExplicitRange | src/telegram/handler.rs:407-445 | first and last byte in decimal are read back, cut to the file, or give the whole file when inverted |
| RangeHeader.OpenRange | src/telegram/handler.rs:407-445 | an open range runs to the end of the file |
| RangeHeader.SuffixRange | src/telegram/handler.rs:419-426 | a suffix range is the last bytes, at most the file |
| RangeHeader.DeclaredLength | src/telegram/handler.rs:284-298 | for every header, the slice is as long as the declared length if and only if the file is not empty |
| RangeHeader.EmptySuffixLength | src/telegram/handler.rs:294-298 | the declared length wraps to zero exactly for an empty suffix |
| RangeHeader.Serve | src/telegram/handler.rs:278-333 | a finished stream has sent the declared number of bytes if and only if the file is not empty, and without a header it has sent the whole file |
| LiveWindow.AllEnded | src/mpd/timeline.rs:168-209 | every listed segment has ended by now if and only if a whole window has passed since the start |
| LiveWindow.WindowCovers | src/mpd/timeline.rs:180-187 | the window is the fewest segments that cover the buffer |
| LiveWindow.SegmentOfWindow | src/mpd/timeline.rs:189-209 | number, length, wall-clock and decode time of every listed segment, counted from the first segment of the stream |
| LiveWindow.UpperMedian | src/mpd/processor.rs:800-812 | half of the list is not above the chosen element and the rest not below; it has the lower median's value if and only if the length is odd or the two middle ones are equal |
| LiveWindow.NominalIsMiddle | src/mpd/processor.rs:800-812 | the nominal duration is the middle one, of two the upper, of the known durations put in order, and unknown if none is known |
| LiveWindow.LengthsCounted | src/mpd/processor.rs:1087-1115 | the lengths that depth and target duration go by are the positive ones, each as often as it occurs |
| Sorting.SortSorts | src/mpd/processor.rs:809-810 | sorting orders the list and keeps its elements |
| LiveWindow.PlaylistDepth | src/mpd/processor.rs:838-865 | the depth is at least the configured one and reaches from the start offset to the live edge with the safety margin |
| LiveWindow.DepthSmallest | src/mpd/processor.rs:838-865 | it is the smallest such depth that is not below 15, or 20 for transport streams |
| LiveWindow.LengthTaken | src/mpd/processor.rs:838-865 | the segment length it uses is the upper median, at least a tenth of a second, or 4 seconds when there is none |
| LiveWindow.TrimConstant | src/mpd/processor.rs:1087-1106 | the same number of segments is trimmed at every reload |
| LiveWindow.SequenceIsShifted | src/mpd/processor.rs:815-835 | the media sequence is the first segment's number plus a shift that depends only on settling |
| LiveWindow.SequenceNeverDecreases | src/mpd/processor.rs:815-835 | over every non-decreasing run of clock values the media sequence never decreases |
| LiveWindow.SameNumberInEveryReload | src/mpd/processor.rs:1108-1130 | a segment listed twice is described alike, and keeps its playlist number if and only if both or neither reload has settled |
| LiveWindow.SettledFromTheStart | src/mpd/processor.rs:815-835 | an explicit start number of at least 1, or a presentation offset of a segment, settles every reload |
| LiveWindow.SettledGrows | src/mpd/timeline.rs:180-187 | once settled, always settled; the first number never decreases |
| LiveWindow.ExplicitNumbersKept | src/mpd/processor.rs:820-822 | an explicit start number of at least 1 makes the media sequence the first segment's own number |
| LiveWindow.TimelineSequenceExactly | src/mpd/processor.rs:815-835 | over two reloads of a live timeline the sequence never decreases, wherever they begin, if and only if the median duration does not grow |
| LiveWindow.TimelineGoesBack | src/mpd/processor.rs:815-835 | a stream whose sequence goes from 10 to 6 |
| LiveWindow.EarlyReloadRenumbers | src/mpd/processor.rs:815-835 | an implicit-start stream whose segment 2 is numbered 2 and then 1 |
| SegmentTimeline.PreprocessTimeline | src/mpd/timeline.rs:119-160 | the nested loops equal the expansion of the elements |
| SegmentTimeline.TimelineAt | src/mpd/timeline.rs:119-160 | numbers run without a break, and repeat k of an element starts k durations after the element |
| SegmentTimeline.TimelineExtinf | src/mpd/timeline.rs:137-155 | in the playlist, repeat k of an element is as long as its duration in seconds, and starts as long after the period as its time lies behind the offset |
| SegmentTimeline.ElementOwnStart | src/mpd/timeline.rs:124-133 | an element that names its start has it |
| SegmentTimeline.SegmentsAbut | src/mpd/timeline.rs:119-160 | consecutive segments abut if and only if no element between them names another start |
| SegmentTimeline.VodCovers | src/mpd/timeline.rs:216-238 | the segments of a recording cover it, and without the last they would not |
| SegmentTimeline.VodExtinf | src/mpd/processor.rs:541-545 | without a start time the playlist length is the duration over the timescale |
| Playlist.SkipSegmentFilter.CheckAndAdvance | src/hls/skip_filter.rs:38-47 | skips exactly what overlaps a range; the clock always advances |
| Playlist.OverlapMeans | src/hls/skip_filter.rs:38-47 | a segment overlaps a range if and only if they share more than a border |
| Playlist.EmitSegments | src/mpd/processor.rs:1144-1203 | the emission loop equals writing the segments one by one |
| Playlist.PushSegment | src/mpd/processor.rs:1158-1202 | the lines of one segment, and what has then been announced |
| Playlist.BuildMediaPlaylist | src/mpd/processor.rs:1040-1209 | the lines of a whole playlist |
| Playlist.KeptExactly | src/hls/skip_filter.rs:38-47 | the kept segments are exactly, in order, those whose prefix-sum interval overlaps no skip range |
| Playlist.PlaysWhatIsKept | src/mpd/processor.rs:1144-1203 | a player of the lines plays exactly the kept segments, with one break exactly where a segment is missing or the init URL changes |
| Playlist.PlaylistPlays | src/mpd/processor.rs:1040-1209 | the same for a whole live or recorded playlist |
| Playlist.HeaderFirst | src/mpd/processor.rs:1040-1209 | a playlist begins with its header and says nothing else about itself but that it has ended |
| Playlist.EndsWhenRecorded | src/mpd/processor.rs:1138-1212 | EXT-X-PLAYLIST-TYPE:VOD and EXT-X-ENDLIST are there exactly when the playlist is not live, the latter last |
| Playlist.AnnouncedNumbers | src/mpd/processor.rs:1108-1140 | it announces exactly one version, target duration and media sequence |
| Playlist.AnnouncedStart | src/mpd/processor.rs:1050-1085 | it announces exactly the start offset that is set, or when live 30 seconds before the end |
| Playlist.RecordedNumbers | src/mpd/processor.rs:1108-1203 | in a recording without skipped segments a player that counts from the media sequence gives every segment its own number |
| Playlist.InitNamesSegment | src/mpd/processor.rs:1159-1180 | the last EXT-X-MAP names the segment's init URL if and only if that URL is not empty |
| Playlist.InitOfRun | src/mpd/processor.rs:1159-1180 | its byte range is that of the first segment of the run with that URL |
| Playlist.TargetCovers | src/mpd/processor.rs:1115-1124 | no listed segment is longer than the announced target duration |
| Playlist.TargetSmallest | src/mpd/processor.rs:1115-1124 | the target is the fewest whole seconds that do, and one more for transport streams |
| Playlist.ReloadWritten | src/mpd/processor.rs:1087-1135 | for a fixed-duration live template the playlist lists the reload's segments and announces its sequence |
| SegmentIndex.FindSidxBox | src/mpd/processor.rs:1444-1457 | finds the first sidx behind other boxes |
| SegmentIndex.ParseIndexHeader | src/mpd/processor.rs:1463-1489 | the fixed fields of both versions |
| SegmentIndex.ParseSidxFragments | src/mpd/processor.rs:1408-1517 | the whole parser equals the index reader, truncated tables included |
| SegmentIndex.IndexRoundTrip | src/mpd/processor.rs:1412-1517 | a written version 0 or 1 index, behind other boxes, yields exactly its references laid out from the end of the box plus the first offset |
| SegmentIndex.Tiling | src/mpd/processor.rs:1491-1514 | each media reference becomes one fragment in order; index references leave gaps of exactly their size |
| SegmentIndex.MediaTiling | src/mpd/processor.rs:1491-1514 | with media references only the fragments abut and sum to the total size |
| Sorting.SortedUnique | src/hls/prebuffer.rs:284-288 | there is only one way to sort the headers |
| CacheKey.KeyIgnoresOrderAndCase | src/hls/prebuffer.rs:275-299 | requests whose headers can be paired, with equal values and names equal but for ASCII case, have one key |
| CacheKey.IdentityMeans | src/hls/prebuffer.rs:280-283 | two header lists have one identity if and only if they can be paired in that way |
| CacheKey.EncodedByte | src/hls/prebuffer.rs:290-298 | percent encoding of every byte: letters, digits and four marks stay, any other becomes two upper-case digits |
| CacheKey.KeysEqual | src/hls/prebuffer.rs:275-299 | exactly when two requests share a key, for all URLs and headers |
| CacheKey.KeysApart | src/hls/prebuffer.rs:275-299 | two requests share a key if and only if they have one URL and headers that can be paired, or can be confused, which takes a newline in a URL |
| CacheKey.NewlineCollides | src/hls/prebuffer.rs:290-298 | every request with headers can be confused with one without, for a URL with a newline |
| Prefetcher.PromotionKeeps | src/hls/prebuffer.rs:89-100 | promotion loses and repeats nothing, and the other URLs keep their order |
| Prefetcher.PlaylistPrefetcher.Update | src/hls/prebuffer.rs:77-86 | queue and headers are replaced together |
| Prefetcher.PlaylistPrefetcher.Prioritize | src/hls/prebuffer.rs:89-100 | the URL is promoted, headers stay |
| Prefetcher.PlaylistPrefetcher.PopBatchWithHeaders | src/hls/prebuffer.rs:107-125 | takes the front of the queue in order, at most as many as asked |
| Prebuffer.OneWorkerPerPlaylist | src/hls/prebuffer.rs:170-239 | in every interleaving a key is in the map if and only if a worker for it is alive, and there is only one |
| Prebuffer.RemovesItsOwn | src/hls/prebuffer.rs:200-204 | a leaving worker removes its own entry and nothing else |
| Prebuffer.UrlsConserved | src/hls/prebuffer.rs:77-125 | in every interleaving each URL was popped, is queued, was replaced by an update, or was dropped on leaving |
| Prebuffer.NothingDropped | src/hls/prebuffer.rs:199-206 | a run drops none of a prefetcher's URLs if and only if its worker has not left, or what last happened to the queue from the idle test on left it empty |
| FetchHeaders.FetchedAsRegistered | src/hls/prebuffer.rs:77-125 | in every interleaving every fetch is of a URL popped for some playlist, with the headers last registered for that playlist when it was popped |
| Batches.EachUrlOnce | src/hls/prebuffer.rs:207-226 | in every interleaving each popped URL was found in the cache, or is fetched once, or is still in hand, and every success goes into the cache |
| Requests.WishesMet | src/hls/prebuffer.rs:77-100 | in every interleaving a client that has finished found the queue of its playlist to be exactly its URLs, or to begin with its segment, right after its step, and has noted the time and notified the worker |
| Prebuffer.RefreshLost | src/hls/prebuffer.rs:178-206 | a run in which a refreshed playlist is removed with all its new URLs |
| Prebuffer.IdleWithQueue | src/hls/prebuffer.rs:102-105 | a run in which a playlist nobody asks about is removed with its queue |
| Prebuffer.WakeupsNotLost | src/hls/prebuffer.rs:228-236 | in every interleaving a worker that waits with a non-empty queue has been, or is about to be, notified |
| Prebuffer.CacheAnswers | src/hls/prebuffer.rs:249-255 | in every run, the cache answers with bytes fetched for that URL with headers that can be paired with those asked for, or for a request it can be confused with |
| Prebuffer.CacheAgrees | src/hls/prebuffer.rs:249-255 | only with the former, if nothing it can be confused with was fetched |
| Prebuffer.CleanRunsAgree | src/hls/prebuffer.rs:249-255 | so in every run without newlines in URLs |
| Prebuffer.CacheConfused | src/hls/prebuffer.rs:249-255 | a run with a newline in a URL in which it does not |

## Left out

- Counter.CounterContinuity: one direction; that an unaligned map gives other bytes depends on the block function, so the exact condition is stated on the keystream indices (`Counter.IndicesConsecutive`).
- Fragment.OffsetConservation: for cleaned fragments below 4 GiB whose new offsets fit 32 bits; `SampleTables.ShiftedTrun` says what happens otherwise.
- Delivery.PlainSamplesComeOut: for track fragments with one `tfhd`, one `trun` and one `senc`, which give each sample a size of its own or a default one, and whose tracks all have a key; `SeveralRuns.RunsExactly` says what happens with several runs. Default sizes of a `trex` are not read by the program.
- InitPackage.SamplesFromInit: for one `moov` with one sample entry for each track, tracks of one scheme and one source of vectors, and fragments below 4 GiB.
- Packager.RoundTripExactly: for `cenc` and `cens` under maps in which the low half of the counter does not overflow, and samples below 2^64 bytes. A last partial block of the pattern counts as encrypted under `cens` and as clear under `cbcs`.
- Refinement.StreamingRefinesBatch: for initialization segments of whole `ftyp` and `moov` boxes; other boxes there are printed by the batch form and dropped by the stream when the init is not included.
- SegmentTimeline.PreprocessTimeline: for a timescale above zero; infinite or undefined float values are not modelled.
- LiveWindow.SameNumberInEveryReload: without skip ranges, which restart at every reload and are meant for recordings.
- The AES block function, its key schedule, and parsing keys and key identifiers from hexadecimal text.
- Rounding of floating-point seconds, floats that are not numbers, and clock values whose segment numbers pass 2^64.
- Overflow of 64-bit times and numbers in a segment timeline.
- Reading the MPD document: XML, durations and dates, base URLs, template expansion, URL joining, and the query parameters of the URLs written into playlists.
- The master playlist, segment lists, single-file representations, and choosing a profile by resolution.
- HTTP, authentication, metrics, and the request handlers around the modelled functions.
- Telegram login, clients and document lookup; blocks of a length other than the server's rule gives.
- Time to live and capacity of the cache: entries may vanish at any step, and when they do is not modelled.
- How long a prefetch worker waits, and that it is scheduled at all: no claim of progress is made.
- Map shards that share a lock: the model lets more steps interleave than the program does.
- `src/mpd/prebuffer.rs`, the acestream registry, the semaphores per host, the extractors and `m3u8` parsing.
