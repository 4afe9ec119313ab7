# immure, modelled and proved

immure is a content-addressed file store. An entry is a file named after the hash of
its content; it lies plain, compressed, or compressed and sealed in a frame of
authenticated chunks. This project models the parts of it that are hard to get right
and proves what they promise:

- the sealed-frame codec: a `Sealer` that takes any slicing of a blob and an `Opener`
  that reads from a source which may hand over any amount, be interrupted, fail, or
  hold altered bytes (`Aead`, `Frames`, `Cipher`);
- the naming codec: digests, entry names for every suffix, set-aside names, temporary
  names (`Digests`, `Layouts`, `TempNames`);
- what a stored file means, and repacking it between the three forms (`Forms`);
- any number of writers beside a conversion, as a step machine over a disk that can
  lose power (`Disks`, `Runs`, `RunProofs`, `RunTheorems`, `Counterexamples`), and a key
  change over the same disk (`KeyChange`), both said of a store as it is in `StoreRuns`;
- the store itself as the source has it, with its fields and loops: the file system's
  calls, the temporary file, the worklist walk, pruning, lookups, verification,
  quarantine, adding, converting, resealing (`FileSystems`, `TempFiles`, `Walks`,
  `Pruning`, `Stores`), each method proved against the functions of `Verdicts`,
  `Salvage`, `Lookups` and `Conversions`, and an add, a conversion and a reseal proved
  to be runs of the step machines above (`Steps`);
- the passes over a whole store, which change the directories they walk (`Passes`,
  `ConversionPasses`, `CheckPasses`, `KeyPasses`).

## How things are modelled

A byte of a file is a cell: a plain byte, or one of the bytes an encryption produced,
which remembers key, nonce, text and place. Decryption succeeds on a complete in-order
run of cells of one encryption and on nothing else, so every law of the cipher is a
theorem about a definition and nothing is assumed of it. Compressor, decoder and hash
are parameters; the only law asked of them is that decoding undoes compressing. Nothing
is assumed of the hash: where a property says that the same content comes back, that no
two of the contents at hand share a hash is a condition of that property.

A disk is the history of its directory states since the last durable one. A crash falls
back to any of them, and whatever was not flushed comes back as any bytes at all. What
an operating system, a source of randomness or a scheduler decides is in the list of
actions of a run, or an unconstrained choice in a method; a file system object says
whether it is reliable, and one that is not may refuse any call. What a method promises
whatever fails is stated for both kinds; for a reliable one the contracts of `Stores` and
of the passes also say exactly when a call succeeds.

What a function computes that several contracts share is said a second time without it:
the members called `…Exact`, `…Exactly` and `…Spelt` give names, nonces, frames, forms,
verdicts and what a call comes to in literal bytes, characters and forms, and
`Runs.AnyTrouble`, `Runs.AnyCrash` and `KeyChange.AnyTrouble` that nothing that can go wrong
is left out of a run. `StoreRuns.AnyFilesRest`, `Lookups.EmptyInOrder`,
`Lookups.InjectiveIsEnough` and `Conversions.InjectiveAgrees` say when what theorems ask of a
store or a hash is met.

A path is the list of its components below the store's root.

`dafny verify dfyconfig.toml` checks everything.

## Answers that are not a plain yes

A digest that had a good entry before a run keeps one in every state of it
(`RunTheorems.GoodStaysGood`). Of a digest whose good entry only arrives during the run
this is false: `Counterexamples.LaterGoodCanBeLost` gives the run, in which a conversion of a
damaged file looks at its free destination, a writer puts good content there, reports
New and flushes the directory, and the conversion then renames its damaged file over it.
`RunTheorems.LosesLive` says which steps lose good content from the live directories, of
everybody's steps but a crash in every reachable state: a conversion's rename of a file
that is not good over the last good one, or its unlinking of the last good one.
`RunTheorems.LosesExactly` says the same, crashes included, of everything a crash could
fall back to, from states in which all of that holds a good file. And what a caller can
check before the run settles it for the whole run (`RunTheorems.OnceKept`): if the digest
had no bad file, or a good one beside it, what is once kept stays kept.

That an answered add has good content behind it, where a lookup finds it
(`RunTheorems.AnswerIsTrue`), holds under the same condition. Where all a digest has is
bad files it is false, because a lookup goes by names:
`Counterexamples.ExistsTrustsTheName` is the add that answers Exists and writes nothing,
from any store at rest in which one of the digest's three names is taken and nothing good
of it is there, and `Counterexamples.ExampleExists` is such a store. For an add on its own
`Stores.Store.Add` has the exact condition: after an answer a good file of the digest is
there if and only if all three names were free before, or a good one was there already.

A lost race is still reported as New, as the code has it (`src/store.rs:584-586`), so
"exactly one writer says New" is not claimed.

## Model

| member | source | states |
|---|---|---|
| Aead.DecExact | src/crypt/cipher.rs:488-495 | Under one key and nonce, opening is exactly the inverse of sealing |
| Aead.DecBinds | src/crypt/cipher.rs:488-495 | A chunk that opens under one key and nonce opens under no other |
| Frames.ChunkNonceInjective | src/crypt/cipher.rs:147-153 | Blob nonce, chunk number and end flag can all be read back from a chunk's nonce, so no two chunks share one |
| Frames.ChunkNonceBytes | src/crypt/cipher.rs:147-153 | Of a chunk's 24 nonce bytes the first 19 are the blob's, the next four are its number, big-endian, and the last is 1 for the last chunk and 0 for any other |
| Frames.FrameLength | src/crypt/cipher.rs:166-173 | A frame is 24 bytes, the text, and 16 bytes for each of its floor(n / 65536) + 1 chunks |
| Frames.FrameBegins | src/crypt/cipher.rs:243-249 | Every frame begins with the letters immr, the byte 1 and the 19 bytes of the nonce |
| Frames.ChunkAt | src/crypt/cipher.rs:271-297 | The i-th piece of a frame is the i-th slice of the text under number i, and only the last, which is never a full one, carries the end flag |
| Frames.RoundTrip | src/crypt/cipher.rs:166-191 | What was sealed opens to the same text and ends cleanly |
| Frames.ExactImage | src/crypt/cipher.rs:446-508 | A stream opens cleanly to a text if and only if it is the frame of that text under that key for some nonce |
| Frames.PrefixFree | src/crypt/cipher.rs:476-483 | No stream that ends cleanly is a proper prefix of another that does: cut short or run on, a frame is refused |
| Frames.PrefixIntegrity | src/crypt/cipher.rs:446-508 | If one blob only was ever sealed under the stream's key and nonce, whatever any stream made of those and other cells hands out is a prefix of that blob, and it ends cleanly only as its frame |
| Frames.TamperedFrame | src/crypt/cipher.rs:446-508 | A frame whose bytes behind the head are swapped, dropped, repeated, cut or written over hands out a beginning of its text, and ends cleanly only if it is the frame still |
| Frames.EndingDiscipline | src/crypt/cipher.rs:369-387 | Nothing is handed out before Unsealable or Version, a whole chunk was before Damaged or TooManyChunks, and Version does not depend on the key |
| Frames.HeadDecides | src/crypt/cipher.rs:446-470 | By its first 24 bytes, under every key alike: fewer of them or other letters is Unsealable, another version byte is that Version, with nothing handed out; and nothing else is ever a Version |
| Frames.StopsExactly | src/crypt/cipher.rs:471-508 | A reading fails with a text and a reason if and only if so many full chunks of the stream open to that text, one after another, and what follows is no chunk of the next number, which is Unsealable for number 0 and Damaged otherwise, or is one of the last number there is, which is TooManyChunks |
| Frames.FirstChunk | src/store.rs:2152-2168 | A key's first chunk opens exactly when reading does not end as Unsealable or Version; no other key then opens anything of that stream |
| Cipher.Sealer.constructor | src/crypt/cipher.rs:243-261 | The header goes out first and the sealer starts having taken nothing |
| Cipher.Sealer.SealChunk | src/crypt/cipher.rs:284-297 | One chunk leaves the buffer and goes out under the next number; at the last number nothing goes out and the error says so |
| Cipher.Sealer.Write | src/crypt/cipher.rs:307-320 | A write takes a non-empty part of what it is given and says how much; on a destination that does not fail it is refused only past the counter's reach |
| Cipher.Sealer.Finish | src/crypt/cipher.rs:271-281 | What went out, from the first byte, is the frame of everything taken; it succeeds exactly when that is shorter than (2^32 - 1) chunks |
| Cipher.NoNonceTwice | src/crypt/cipher.rs:284-297 | No two chunks a sealer ever let out were sealed under one nonce, whatever failed in between |
| Cipher.OneTextPerNonce | src/crypt/cipher.rs:284-297 | Of all the sealed bytes a sealer sent out, partly written chunks included, no two of one nonce are of different texts |
| Cipher.SealPieces | src/crypt/cipher.rs:166-173 | Every slicing of a text into writes seals to the same frame, and succeeds exactly when the text fits the counter |
| Cipher.Fill | src/crypt/cipher.rs:564-575 | Short reads and interruptions are invisible: the buffer is filled, or the source is spent, or its own failure comes back |
| Cipher.Opener.NextChunk | src/crypt/cipher.rs:446-508 | Either plaintext waits or the end is reached, or the reader is spoiled; what was handed out and what is ahead stays the whole reading |
| Cipher.Opener.Read | src/crypt/cipher.rs:538-557 | Hands out the next bytes of the whole reading and nothing else, in at most two rounds; nothing handed out means a clean end; a failure writes nothing and is repeated for ever |
| Cipher.ReadInSizes | src/crypt/cipher.rs:538-575 | For every list of caller buffer sizes and every behaviour of the source, what is handed out is a prefix of the one blob sealed under the stream's key and nonce, and the whole of it after a clean end |
| Cipher.OpenWhole | src/crypt/cipher.rs:185-191 | Reading whole, with any buffer size and any pattern of short reads and interruptions, comes to the reading of the stream; a read that came back is proof that the first chunk opened |
| Cipher.OpensWith | src/store.rs:2152-2168 | One byte settles whether a key opens a file: true exactly when the first chunk opens, false only when it is Unsealable |
| Digests.ParseCanonical | src/digest.rs:214-220 | Parsing leaves a string as it is exactly when it is a canonical digest |
| Digests.ParseExact | src/digest.rs:214-220 | A string parses exactly if it is hex of even length, and then to the one lower-case string that stands, character by character, for the same values |
| Digests.ShardsOfPrefix | src/digest.rs:245-255 | A prefix that reaches the shard names the same shard as the whole digest |
| Digests.ToHex | src/digest.rs:176-183 | The loop writes the hex of the hash |
| Digests.HexOfHash | src/digest.rs:176-183 | Hex of any hash is a canonical digest of twice its length |
| Digests.HexInjective | src/digest.rs:176-183 | Different hashes of one length never get one name |
| Digests.HexAt | src/digest.rs:176-183 | Each byte is two lower-case hex characters at its place, the upper half first |
| Layouts.NormalisedSuffix | src/layout.rs:242-252 | Whatever suffix is asked for becomes none or a dotted one, and normalising again changes nothing |
| Layouts.NormalisedExactly | src/layout.rs:242-252 | Leaving out the white space in front and behind, a suffix becomes nothing if nothing or a lone dot is left, itself if it begins with a dot, and a dot and itself otherwise |
| Layouts.ParseNameExact | src/layout.rs:183-192 | A name reads as an entry of a digest and form if and only if it is hex that parses to the digest followed by the form's tail |
| Layouts.NameRoundTrip | src/layout.rs:162-192 | For every suffix, digest and form, the printed name reads back as them |
| Layouts.NameCanonical | src/layout.rs:183-192 | Printing what a name was read as gives that name exactly when its hex is lower-case |
| Layouts.QuarantineRoundTrip | src/layout.rs:206-229 | For every serial the set-aside name reads back as the digest and form |
| Layouts.ParseQuarantinedExact | src/layout.rs:206-220 | A name reads as set aside if and only if it is an entry's name, .corrupt, and nothing or a dot and digits |
| Layouts.QuarantineInjective | src/layout.rs:222-229 | No two of digest, form and serial share a set-aside name |
| Layouts.EntryOrQuarantined | src/layout.rs:183-220 | No string is both an entry's name and a set-aside one, whatever the suffix |
| TempNames.TempNameRoundTrip | src/temp.rs:45-50 | Every name a writer makes is recognised as one, and no two of them are the same |
| TempNames.TempNameExact | src/temp.rs:237-250 | A name is a temporary one if and only if it is digits, a dash, digits and .tmp |
| TempNames.TempIsNoEntry | src/temp.rs:237-250 | A temporary name is neither an entry's nor a set-aside one, whatever the suffix |
| Forms.EncodeDecode | src/store.rs:1893-1922 | What is written decodes to what was given, in every form |
| Forms.PayloadExact | src/store.rs:2067-2085 | A sealed file has a payload if and only if it is that payload's frame under the key; otherwise the error is the way its reading ends, one for one, or that there is no key |
| Forms.DecodeExact | src/store.rs:829-856 | A plain file is its content; a compressed one decodes exactly to what the decoder makes of it, a sealed one to what it makes of the payload of a whole frame, and the decoder's refusal is the error exactly where it refuses |
| Forms.RepackMeaning | src/store.rs:2090-2125 | The rewritten file decodes in its new form to what the old one decoded to in its own, refusal included; between two compressed forms the compressed stream passes through unchanged |
| Forms.RepackExact | src/store.rs:2090-2125 | For each way a pass converts, which bytes it writes: sealing a compressed file frames its bytes as they are, unsealing gives the payload as it is, and only between plain and compressed does the compressor or the decoder run |
| Forms.RepackSucceeds | src/store.rs:2067-2125 | A decodable file can be repacked exactly when the target needs no key or the key is there and the payload fits the counter |
| Runs.ConfigIsSound | src/store.rs:1929-1944 | Every law the step machine relies on holds of the real names, forms and frames |
| RunProofs.WriterStep | src/store.rs:578-639 | Every step of a writer keeps its own state right and leaves every good entry where it is |
| RunProofs.ConvStep | src/store.rs:2014-2062 | Every step of a conversion keeps its own state right and leaves the entries of every other digest where they are |
| RunTheorems.EveryEntryGood | src/temp.rs:150-218 | In every reachable state and in everything a crash could fall back to, each file under an entry's name was flushed and hashes to that name, unless its digest had a bad file from the start |
| RunTheorems.AnswerIsTrue | src/store.rs:578-639 | An add that answered, New or Exists, has a good entry of its content behind it, where a lookup by digest goes, if the digest had no bad file at the start or a good one in its place beside it |
| RunTheorems.GoodStaysGood | src/store.rs:2014-2062 | A digest with a good entry at the start, anywhere the walk goes or where a lookup goes, has one there in every state of any run of passes, cut off anywhere and started again, beside any writers |
| RunTheorems.FlushedAnswerLasts | src/temp.rs:212-217 | Once the directory flush behind an add took effect, the content is where a lookup finds it through every further run and every crash in it |
| RunTheorems.LosesLive | src/store.rs:2055-2061 | In every reachable state a step of anybody's, crashes apart, takes a digest's last good entry off the live directories if and only if it is a conversion's rename of a bad file over it or its unlinking as a source |
| RunTheorems.LosesExactly | src/store.rs:2055-2061 | Where everything a crash could fall back to holds a good file of a digest, a step of anybody's, a crash included, ends that if and only if it is a conversion's rename of a bad file over the last one or its unlinking as a source |
| RunTheorems.OnceKept | src/temp.rs:83-97 | For a digest with no bad file at the start, or a good one beside it: from the moment everything a crash could fall back to holds a good file of it, it does so for ever |
| StoreRuns.EntriesAreGood | src/temp.rs:150-218 | For every store, and every run from files that lie there flushed: in everything a crash could fall back to each entry is flushed and is the content of its name, unless an entry of that digest was not before |
| StoreRuns.GoodEntriesStay | src/store.rs:2014-2062 | And a digest with a good entry, anywhere or where a lookup goes, has one there in all of it |
| StoreRuns.AnswersHold | src/store.rs:578-639 | And an answered add has good content where a lookup finds it, if no entry of the digest was bad before or one in place was good |
| Counterexamples.LaterGoodCanBeLost | src/store.rs:2055-2061 | The run in which a digest that came good mid-run is lost after a durable New |
| Counterexamples.ExistsTrustsTheName | src/store.rs:578-583 | From every store at rest in which one of a digest's three names is taken and nothing good of it is there, an add of the true content answers Exists and the disk stays as it was |
| Counterexamples.ExampleExists | src/store.rs:578-583 | A concrete store, hash and damaged file from which the add answers Exists with nothing good behind it |
| Counterexamples.ExampleStaged | src/store.rs:2014-2062 | The conditions of that run are met by a concrete store, hash and pair of files |
| KeyChange.RekeyIsSound | src/store.rs:1600-1633 | The laws a key change relies on hold of real names, frames and any two different keys |
| KeyChange.KeysApart | src/store.rs:2152-2168 | What the new key's probe accepts the old key never opens whole, and what the new key opens whole its probe accepts |
| KeyChange.ResealedExactly | src/store.rs:1600-1633 | A file is moved if and only if the probe says false and the old key opens it whole, of any length; it stays exactly if the new key opens its first chunk; every other file fails, with the version it names or the old key's own error, and recoverably exactly for another version or too many chunks |
| KeyChange.ProbeExact | src/store.rs:2152-2168 | The probe says true exactly if the first chunk opens, names another version exactly where the first bytes have one, and says false otherwise |
| KeyChange.WholeExact | src/crypt/cipher.rs:185-191 | A key opens a file whole exactly if it is a frame of that key |
| KeyChange.NothingIsLost | src/store.rs:1577-1633 | In every state of any number of key changes, cut off anywhere, every sealed file one of the keys opened whole is under the same name and opens whole under one of them with the same payload |
| KeyChange.CleanExactly | src/store.rs:1974-2005 | A pass counts as clean from its beginning until the first thing that goes wrong and a later run may mend, and exactly until then; and no file has its turn in it twice |
| KeyChange.FinishedMeansMoved | src/store.rs:184-193 | When a pass is finished the old key opens whole nothing the walk yielded, and the new one opens all that either did, with the same payload |
| KeyChange.MovedStays | src/store.rs:1600-1604 | What the old key no longer opens keeps its bytes through every further pass that no crash cuts off |
| KeyChange.MovedForGood | src/store.rs:1600-1633 | And through every further pass and crash, once everything a crash could fall back to holds them flushed |
| StoreRuns.PayloadsStay | src/store.rs:1577-1633 | For any layout and two different keys, every run of key changes from sealed files that lie there flushed keeps each file one of them opened whole, under its name, with its payload, whole under one of them |
| TempFiles.TempFile.CreateIn | src/temp.rs:45-67 | The first free number is taken, no existing file is written to, and the loop ends |
| TempFiles.TempFile.Persist | src/temp.rs:117-119 | The calls made are, one for one, steps of the step machine: flush, look, rename, flush the directory; and it says whether the name was won; on a file system that fails nothing the directory flush takes |
| TempFiles.TempFile.Replace | src/temp.rs:136-138 | The file goes onto the taken name flushed, or nothing but the temporary file changes |
| TempFiles.TempFile.RenameTo | src/temp.rs:150-218 | Both of the above, and on a file system that fails nothing it loses exactly when it may and the name is taken |
| Walks.WalksPartition | src/store.rs:2320-2334 | The walk over entries and the one over set-aside files share out what the combined walk yields, each file as the same thing |
| Disks.PlaceSpelt | src/layout.rs:140-176 | An entry lies depth directories down, each named by the next two characters of its digest, under its own name |
| Walks.Entries.Next | src/store.rs:2344-2352 | Each call yields a file not yet yielded and still owed, or reports what was lost; whatever is still owed shrinks by exactly that |
| Walks.Entries.Load | src/store.rs:2268-2338 | Reading one directory neither loses nor invents anything wanted under it, and the pile owes strictly less |
| Walks.Collect | src/store.rs:2251-2353 | The walk ends and yields every wanted file outside the temporary directory exactly once and nothing else; a walk that covers less says so |
| Pruning.CollectDirs | src/store.rs:2196-2215 | Every directory below, each once, without the temporary directory |
| Pruning.ByDepthSorts | src/store.rs:1736-1737 | The order is deepest first and loses nothing |
| Pruning.PruneEmptyDirs | src/store.rs:1733-1747 | A directory goes if and only if it is below the root, not the temporary one, and no file lies anywhere under it; no file is touched and the count is right |
| Verdicts.TrueMeansGood | src/store.rs:1102-1118 | A file verifies exactly when it decodes to content hashing to its digest, whatever was proven before |
| Verdicts.UnprovenVerdict | src/store.rs:1102-1118 | Before the key is proven the answer is the proven one, or Unsealable in place of false; exactly for a sealed file whose first chunk does not open and is no other version's |
| Verdicts.VersionNeverFalse | src/store.rs:1102-1118 | A stream of at least 24 bytes that begins with immr and a version byte other than 1 is an error that names that byte, under every key, proven or not |
| Verdicts.OrderIndependent | src/store.rs:1163-1186 | With the key proven a file gets the same verdict wherever in whatever pass; unproven it differs exactly where it is Unsealable and nothing before it proved the key |
| Salvage.FreeSerial | src/store.rs:1217-1229 | The smallest free of a hundred numbers, or none because all are taken |
| Salvage.NothingOverwritten | src/store.rs:1215-1374 | After any run of quarantine, restore and discard every file is one that was there, byte for byte, and no two are the same one; without a discard none is missing |
| Salvage.RestoredIsGood | src/store.rs:1319-1351 | A name is only given back, onto a free place, to bytes that verify under it |
| Salvage.AsideReadsBack | src/store.rs:1215-1248 | A set-aside entry reads back with its digest and form, in its directory, and as no entry |
| Salvage.RestoreUndoesQuarantine | src/store.rs:1319-1351 | Restoring puts back exactly what quarantine took if and only if the entry is good, of this store's algorithm and canonically named |
| Lookups.HintNeverHides | src/store.rs:661-682 | For every remembered form a lookup finds something exactly when one of the three names is there, and opening agrees where no directory has one |
| Lookups.ReadExact | src/store.rs:1811-1826 | Of the three names in the order of the hint the first that can be opened is read, and its content or its error is the answer; if none can, there is no entry |
| Lookups.HintNeverChangesContent | src/store.rs:780-820 | Where every form that is there is good, a read through any remembered form hands back the same content, of that hash, or nothing exactly if no form is there |
| Lookups.SortedOnce | src/store.rs:764-766 | Sorting and dropping repeats gives the strictly sorted list of the same digests |
| Lookups.LessExact | src/store.rs:764-766 | The order is the dictionary's: by the first character that differs, a string before what it begins |
| Lookups.ShardIsEnough | src/store.rs:741-763 | In a well-placed tree one shard's listing names exactly the digests with the prefix that the whole walk finds |
| Stores.Store.Locate | src/store.rs:661-682 | Another length than the algorithm's is a mismatch and one too short for the shards is too short, each exactly then; otherwise the answer is the first name in the remembered order that a file has, and that form is remembered |
| Stores.Store.OpenEntry | src/store.rs:1811-1826 | As a lookup, by what can be opened, with the same two refusals exactly |
| Stores.Store.Read | src/store.rs:780-820 | Refuses the same digests as a lookup and no others; what comes back is the decoded content of what the lookup order opens first; the key is proven afterwards only if it was or that file's first chunk opened, and then for sure unless the read failed |
| Stores.Store.ReadContent | src/store.rs:829-856 | The decoded content, with the key proven exactly when its first chunk opened |
| Stores.Store.ContentMatches | src/store.rs:1102-1118 | The verdict, under what was proven before the call and after it alike; the key is proven afterwards exactly if it was or the file's first chunk opened |
| Stores.Store.Verify | src/store.rs:1094-1097 | Another algorithm's digest is refused; any other answer is the verdict, and the key is proven afterwards exactly if it was or the entry's first chunk opened |
| Stores.Store.ProveKey | src/store.rs:1163-1186 | True exactly with a proven key, which then some entry's first chunk proves; false on a file system that fails nothing means no entry can |
| Stores.Store.Quarantine | src/store.rs:1215-1248 | The file is renamed to the smallest free name, or nothing changes and it says why; on a file system that fails nothing it is renamed exactly if one of the hundred names is free |
| Stores.Store.Restore | src/store.rs:1319-1351 | The file is renamed back if its bytes verify and the name is free; otherwise nothing changes and the answer says which; of the key it learns what a verify of the file does |
| Stores.Store.Discard | src/store.rs:1369-1374 | That one file is removed, or nothing is |
| Stores.Store.Matching | src/store.rs:728-768 | Refuses what is no prefix or shorter than two characters more than the shards; otherwise the strictly sorted digests that begin, in hex value, with what was given, in a well-placed tree all of those that have an entry anywhere |
| Stores.Store.Add | src/store.rs:578-587 | Refuses a hash of another length; says Exists exactly when one of the three names was taken before, of the form the lookup order finds first, and then writes nothing; New has a good file of the content under its name; no other entry was touched; an answer has a good file behind it exactly if the names were free or one was good already; on a file system that fails nothing a hash of this store's is answered exactly when a name is taken or no file is in the way, no directory has the name and what is sealed fits the counter, and the error says which; a well-placed store stays well placed; it learns nothing of the key; and its disk operations are a run of a writer of the step machine, answer included |
| Stores.Store.PlaceFile | src/store.rs:1929-1944 | The finished file is under its name, or another's that was held against the digest is, or nothing was placed; on a file system that fails nothing, exactly by whether the shard can be reached and what has the name is the content; of the key it learns only from what had the name |
| Stores.Store.Repacked | src/store.rs:2067-2125 | The bytes written decode to what the source decodes to; a pass reading them proves nothing about the key |
| Stores.Store.Convert | src/store.rs:2014-2062 | The entry is under its new name saying the same and gone from the old one, or still where it was; written out plain it is what the decoder makes of its payload, and where the decoder refuses the entry stays; on a file system that fails nothing the answer, its error included, is what the bytes, the new name and the room for temporary files come to; of the key it learns only from what had the new name; and its disk operations are a run of the step machine's conversion |
| Conversions.ComesExactly | src/store.rs:2014-2062 | What a conversion to a free name comes to where no call fails, for each of the five ways: it goes through exactly with room for a temporary file and the name, and a decoder that accepts, a key and a payload that fits, or a whole frame of the key, as the way needs; what cannot be repacked fails with that error |
| Conversions.ComesTaken | src/store.rs:2024-2047 | And to a taken name: exactly when what has it is good content of the digest, and it is obstructed otherwise |
| Stores.Store.Reseal | src/store.rs:1600-1633 | The file is under the new key with the payload the old one opened, or untouched; a failure no later run can mend means neither key opens it whole; on a file system that fails nothing the answer is what the file's bytes come to; and its disk operations are the steps of the key-change machine from the probe to the next file |
| Steps.CallIsRun | src/store.rs:578-639 | The steps of one call by itself are a run of the machine beside whatever else is under way, from any state, so what is proved of all runs holds of it |
| Steps.ConversionIsRun | src/store.rs:2014-2062 | The same for the steps of a conversion |
| Steps.StreamIsNew | src/store.rs:609-639 | A streaming call for content that no name has is a run of the machine: it fills its file, looks at the names, flushes, renames and flushes the directory, and says New |
| Steps.StreamExists | src/store.rs:609-639 | One for content that some name has looks once its file is written, removes it and says Exists |
| Stores.Store.AddIsRun | src/store.rs:578-587 | The steps of an add as the store makes them are a run of the machine from any state with room for a call |
| ConversionPasses.GoodKept | src/store.rs:1952-2005 | However far a conversion pass got, every digest that had a good entry has one |
| ConversionPasses.NothingInScope | src/store.rs:1952-2005 | A pass that handled everything and failed at nothing leaves nothing it would convert |
| ConversionPasses.PassByForms | src/store.rs:1428-1523 | The four passes, each by the forms it takes, makes and leaves: tallies, places and what is left at the end |
| ConversionPasses.PlannedExactly | src/store.rs:1428-1523 | The conversions of the step machine are exactly those that one of the four passes makes |
| ConversionPasses.PassSaysTheSame | src/store.rs:1952-2005 | However far a pass got and whatever failed, a digest whose entries were all good, without a collision among them, decodes to exactly what it decoded to before |
| ConversionPasses.GoesAsSure | src/store.rs:2024-2058 | When an entry's turn comes it goes through if that was sure from the store as the pass found it, and where no other entry of its digest can interfere only then |
| ConversionPasses.PassOutcome | src/store.rs:1974-2005 | What one pass promises, among it that as many are counted as converted as left their old names and that none is counted as failed twice, and that the store stays well placed for the next |
| ConversionPasses.ConvertAll | src/store.rs:1428-1523 | On a file system that fails nothing the pass comes to an end; over a well-placed store, changed while it is walked, told by forms: compressing takes the plain entries and skips the sealed, decompressing takes the compressed and skips the sealed, encrypting takes all but the sealed, decrypting takes the sealed and skips the plain; each starting entry is counted once and where its form says, each taken one lies in the new form or failed and stayed, none of them twice, and if none failed none lies in a form that is taken; good entries are kept; of the key it learns only from a file that has its target's form and opens; on a file system that fails nothing those that fail are those that could not go through, with the error that says why, and an entry that alone of its digest is taken fails exactly if converting it, the store being as it was, comes to an error |
| CheckPasses.AnsweredExactly | src/store.rs:1094-1118 | Exactly which entries a verify answers for: this store's algorithm, and plain, or sealed with a first chunk that opens, or with the key proven and first bytes that are no other version's; of those the answer names the version byte |
| CheckPasses.VerifyPass | src/store.rs:1067-1092 | Verifying every entry and setting aside what is false keeps every byte and takes no good entry's name; if every verify answered, every entry that remains is good; on a file system that fails nothing it ends unless an entry has no name left to go to, what is called false at once is gone, nothing is gone but what is false under a proven key, the rest was counted, and the key is proven exactly if it was or an entry's first chunk opened |
| CheckPasses.VerifyEach | src/store.rs:1067-1097 | Verifying entries one after another with one handle: each answer is its verdict under what the entries before it proved of the key, and the key is proven afterwards exactly if it was or one of them proves it |
| CheckPasses.EachIsPass | src/store.rs:1067-1097 | The answers that came of reading a file are those of a pass over these files, threading what is proven from one to the next |
| CheckPasses.EachInAnyOrder | src/store.rs:1163-1186 | With the key proven an entry gets the same answer wherever in whatever list it is verified; unproven it differs exactly where it is Unsealable and nothing before it proved the key, and then a false is withheld |
| CheckPasses.RoomStays | src/store.rs:1217-1229 | Whatever else was set aside since, an entry under its canonical name that had a free name to go to at the start still has it |
| CheckPasses.SettledSweep | src/store.rs:1067-1092 | With the key proven, or no entry whose first chunk fails to open, what is gone is exactly what is false and what was counted exactly what gets no answer; so the count is 0 exactly when every entry can be answered for |
| KeyPasses.ChangeKey | src/store.rs:1577-1592 | Every file the walk yields is counted once, the failed ones by name and as they were, the others by whether the new key opened them at the start; payloads are kept whatever fails; what is not counted as left over, and so everything once the tally is finished, the old key no longer opens and the new one does if either did; on a file system that fails nothing, with room for temporary files and two different keys, everything one of the keys opened whole the new one opens, the files that fail are exactly those of another version and those whose first chunk the new key does not open and the old one not whole, and it is finished exactly if none is of another version or too long to count: a file whose first chunk neither key opens does not keep it unfinished |
| KeyPasses.FinishedExactly | src/store.rs:184-193 | On a file system that fails nothing a pass is finished exactly when no sealed file failed at anything a later run could mend |
| KeyPasses.ChangeByBytes | src/store.rs:1577-1592 | What failed, what is left over and whether the change is finished, told from the bytes the files had |

## Left out

- Library internals: the hash functions, zstd, XChaCha20-Poly1305 and the source of randomness are parameters, symbolic cells or free choices; that two drawn nonces differ is a condition of `Frames.PrefixIntegrity`, not a theorem.
- Streaming through zstd: a file is decoded whole, so how much of a damaged compressed entry comes out before its error is not modelled.
- Frames.PrefixIntegrity: speaks of streams over one key and nonce under which one blob was sealed; drawing nonces is outside it.
- Cipher.Opener.Read: with an empty buffer it answers 0 even when spoiled, as the code does; proving a key is stated for non-empty reads only.
- The counter: the code writes at most 2^32 - 1 chunks, one fewer than its comments say; the model follows the code.
- Stores.Store.NewTemp: the number a temporary file's name carries is this handle's here and the process's in the code; either way the name is the first free one.
- Stores.Store.Add: the imperative model writes the encoded file in one go; writing in pieces, crashes between the pieces, and `add_reader` are in the step machine of `Runs`. An add, a conversion or a reseal of bytes that cannot be encoded, repacked or moved has no run there; what is stated of it instead is that it made a temporary file and gave it up.
- FileSystems.FileSystem: looking whether a name is taken always answers truly; the code takes a `stat` that failed for "not there".
- Crash model: flushing one directory makes every directory operation so far durable, or nothing; a shard's parent is not flushed separately, and a file flushed after a directory state was current still counts as unflushed in it.
- RunTheorems.GoodStaysGood: one conversion pass at a time beside any number of writers; opposite passes at once, and two key changes at once, are not promised by the code.
- Lookups.HintNeverHides: the three names are looked at in one state; a lookup between which a conversion runs is not promised to find anything.
- ConversionPasses.ConvertAll: what it promises, bar its end, is stated for a well-placed store; in any other an entry can be met again in the shard it was converted into. Which of several entries of one digest fails, where all are to be converted and not all are good, and with which error, depends on the order a directory lists them in and is not said.
- CheckPasses.VerifyPass: the pass is the one the documentation of `verify` gives to callers; the crate itself has no method for it.
- The pass over entries is written out per pass rather than over a closure, and warnings and log lines have no counterpart.
- Salvage.RestoreUndoesQuarantine: a name in upper-case hex is given back in lower case, as the code does.
- `Hasher`: that hashing in pieces is hashing at once is the hash libraries' own property; the hash is one function here.
- Names that are not valid Unicode, symbolic links, permissions, write protection and its lifting, two-step replacement on network shares, and the telling apart of a missing root: file-system quirks, not modelled.
- `prune_temp_files`, `remove`, builders, setters and format of messages: wall-clock sweeps and thin seams with easy members only.
- The out-of-memory message of the decoder: a decoder failure is damage to `verify` here, always.
