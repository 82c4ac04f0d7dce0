# SlothBox: a verified model

SlothBox passes one file from a sender to a receiver through servers that never see its key. The browser cuts the
file into chunks and seals each under a key that travels only in the link; a gateway keeps the share's row, an ingest
service stores and serves the sealed chunks, and a reaper removes what has expired, been revoked or been read. This
project models those parts in Dafny and proves what they promise each other. `dafny verify dfyconfig.toml` checks it.

## How the model is laid out

- **Bytes, text and links.** `Bytes`, `Base64Url`, `Codecs` (three base64url implementations over one meaning, the
  bit stream of section 5 of RFC 4648), `Framing` (associated data and chunk tokens), `BlobKeys`, `ShareLink`,
  `PasswordGenerator` and `PasswordRange` (the passwords it can give are exactly the promised ones, and the shuffle
  favours none).
- **The sealed pipeline.** `Slicing`, `Crypto`, `Upload`, `Download`, `GatewayCreate`, `EndToEnd`. The primitives are an
  argument: any functions at all. Safety is a reduction: a download is right, or one of the very messages this server
  returned to this receiver opens under the receiver's key though the sender never sealed it (or two inputs with one
  hash are on the table). The honest round trip asks the primitives to be lawful, runs over the machine below from an
  empty share to the stored rows and blobs, and honest services are shown to forge nothing, so both theorems speak of
  the same primitives. `PasswordKeys` is the password's part: both the link and the password are needed.
- **One share, everybody at once.** `ShareModel` holds the rows and the atomic SQL statements, `ShareStore` the same
  as a class updated in place, `UploadEndpoint`, `DownloadEndpoint` and `GatewayShares` the handlers as step functions
  that can be stopped between any two calls, and the handler methods, each equal to its undisturbed run.
  `ShareSystem` is the machine: any number of PUT, GET, `/downloaded` and `/destroy` handlers, a reaper and a clock,
  interleaved arbitrarily, where every call may succeed, fail, or take effect and look failed. `UploadProofs`,
  `LifecycleProofs`, `BurnProofs` and `BurnRaces` prove what every run keeps; `UploadConditions`,
  `OrphanConditions` and `FinalityConditions` say, if and only if, when the properties hold that the unguarded writes
  and the split steps break. `AccessGates` (who is sent a chunk, whose PUT is taken, who may destroy), `DownloadCounts`
  (what a download does to its share, burns and caps) and `Retention` (what the sweep must find, which reason is left)
  state what each operation does without the step functions: as tables for a request alone and as laws of every run.
- **The sweep.** `Reaper` is the daemon over all shares, its `reapOne` shown to be a run of the machine above;
  `ReaperProgress` is what failing shares do to the others.
- **The limiters.** `Valkey` (sorted sets with deadlines), `RateLog` (what a sliding window means), `IngestLimiter`,
  `GatewayLimiter`, `GatewayRules` (all rules, all identities) and `GatewayRaces` (commands of different requests
  interleaved).

## Where the code and its comments differ

The model follows the code.

- The comment in the `/destroy` handler (apps/api-gateway/src/routes/shares.ts:824-832) speaks of a conditional WHERE on
  the state; the UPDATE has none. `FinalityConditions.SecondRevokeMovesTheDate` is a run in which the date of destruction
  moves; `DateIsFinalExactly` says when it cannot, and `DateIsFinalExactlyWithUploads` the same with PUTs in flight.
- The PUT handler's comment (services/ingest/Endpoints/UploadEndpoint.cs:314-317) leaves the blob of a failed upsert to the
  reaper; the reaper deletes only what a chunk row names. `LifecycleProofs.LostUpsertIsNeverCollected`.
- The reaper lists a share's keys outside the transaction that deletes its rows. A PUT that passed its checks before
  expiry and stores blob and row in between is answered 201 and then left without its row
  (`OrphanConditions.LatePutIsOrphaned`). So orphans come from failed upserts and from PUTs that race the reaper;
  `OrphanConditions.OrphansStayExactly` says when none can appear.
- The state write of the PUT handler has no guard. `ready` can slip back to `uploading`
  (`UploadProofs.ReadySlipsBack`; exactly when in `UploadConditions.ReadyStaysExactly`). A failed last write strands a
  complete share (`UploadProofs.LostPromotionStrands`; exactly when in `UploadConditions.StrandedExactly`; one more PUT
  repairs it, `OnePutRepairs`). A PUT in flight can reopen a destroyed share (`LifecycleProofs.StalePutReopens`; exactly
  when, over every reachable state, in `FinalityConditions.DestroyedIsFinalExactly`).
- The reaper writes the reason of destruction anew without a word for a revocation, so a revoked share ends as burnt, at
  its cap or expired (`Retention.ReasonIsKeptExactlyForBurns`).
- Blob and row of a chunk are two writes, so two different PUTs of one index can leave one's nonce beside the other's
  ciphertext in a share that says `ready` (`UploadConditions.RowBesideAnothersBlob`; exactly when not in
  `PairsStayExactly`; never when a PUT is only repeated unchanged, `CopiesArePaired`).
- The gateway's cap counts whole chunks, so with 5 MiB chunks a file between 1020 and 1024 MiB passes the browser's own
  limit and is refused by the gateway (`Slicing.DefaultLimits`).
- The empty byte string encodes to the empty text, which the gateway and the ingest service refuse to decode; the
  gateway alone accepts texts whose length is one more than a multiple of four (`Codecs.DecodersAgreeExactly`).
- The gateway limiter's pipeline is not atomic. `GatewayRaces.LimitSurvivesInterleaving` gives three conditions under
  which the bound holds, and `LateTrimAdmitsTwo`, `LapsedKeyAdmitsTwo` and `EqualMembersAdmitTwo` a run without each.

## Model

| member | source | states |
|---|---|---|
| Codecs.BytesToBase64Url | packages/crypto-core/src/utils.ts:3-9 | the loop, `btoa` and three replacements give unpadded base64url |
| Codecs.Base64UrlToBytes | packages/crypto-core/src/utils.ts:11-19 | the padded, translated `atob` decoding, including where it throws |
| Codecs.TryDecodeBase64Url | services/ingest/Endpoints/UploadEndpoint.cs:369-402 | accepts exactly what its decoding function accepts; empty output on refusal |
| Codecs.GatewayEncode | apps/api-gateway/src/routes/shares.ts:113-119 | equals the browser's encoder on every byte string |
| Codecs.IngestEncode | services/ingest/Endpoints/DownloadEndpoint.cs:366-370 | equals the browser's encoder on every byte string, trimming first notwithstanding |
| Base64Url.DigitsAreTheBitStream | packages/crypto-core/src/utils.ts:3-9 | the digits carry the input's bits in order, filled with zero bits, as section 5 of RFC 4648 asks |
| Base64Url.UndigitsDigits | packages/crypto-core/src/utils.ts:3-19 | the digit arithmetic loses no byte |
| Codecs.RoundTrip | packages/crypto-core/src/utils.ts:3-19 | every decoder undoes every encoder; gateway and ingest refuse only the empty string's encoding |
| Codecs.EncodedLength | packages/crypto-core/src/utils.ts:3-9 | no padding or non-url character, length ceil(4n/3), never one more than a multiple of four |
| Codecs.UrlEncodeInjective | packages/crypto-core/src/utils.ts:3-9 | different byte strings have different texts |
| Codecs.DecodersAgreeExactly | apps/api-gateway/src/routes/shares.ts:98-110 | the texts all three decoders accept and agree on, if and only if; where the gateway alone accepts |
| Bytes.ConcatBytes | packages/crypto-core/src/utils.ts:21-30 | copying at a running offset concatenates |
| Bytes.Uint32ToBytesBE | packages/crypto-core/src/utils.ts:32-39 | four bytes that read back as the number modulo 2^32 |
| Bytes.Utf8Injective | packages/crypto-core/src/utils.ts:41-43 | UTF-8 loses nothing |
| Framing.BuildChunkAadBytes | packages/crypto-core/src/symmetric.ts:52-61 | the buffer-writing form gives the framed bytes, refusing ids over 65535 bytes |
| Framing.AadInjective | packages/crypto-core/src/symmetric.ts:41-61 | associated data collide exactly for one id and indexes equal modulo 2^32 |
| Framing.AadPrefixFree | packages/crypto-core/src/symmetric.ts:45-61 | the framing stays readable with anything behind it |
| Framing.MetaAadIsApart | apps/web/src/lib/upload.ts:231-253 | the metadata's associated data is no chunk's of a 12-character id |
| Framing.TokenPreimageInjective | packages/crypto-core/src/symmetric.ts:169-229 | the token preimage determines key, id and index |
| Framing.BearerHeaderIsRead | services/ingest/Endpoints/DownloadEndpoint.cs:390-424 | the header the receiver sends is parsed back to the hash of its token |
| Framing.CommitmentAdmitsOnlyItsChunk | services/ingest/Endpoints/DownloadEndpoint.cs:204-216 | a stored commitment admits its own chunk's token and, without a hash collision, no other |
| BlobKeys.BlobKeyInjective | services/ingest/Endpoints/UploadEndpoint.cs:359-364 | two chunks share an object key only if they are one |
| ShareLink.LinkCarriesTheKey | apps/web/src/lib/download.ts:131-146 | the receiver extracts exactly the sender's 32-byte key from the printed link |
| ShareLink.LinksShowTheirKeys | apps/web/src/lib/upload.ts:375-377 | links with one front are equal exactly when their keys are |
| PasswordGenerator.GeneratePassword | apps/web/src/components/UploadDrop.tsx:143-160 | filling and shuffling in place gives the password its draws determine |
| PasswordGenerator.Shuffle | apps/web/src/components/UploadDrop.tsx:155-158 | the in-place Fisher-Yates loop equals its recursive form |
| PasswordGenerator.ShuffleIsAPermutation | apps/web/src/components/UploadDrop.tsx:155-158 | shuffling keeps the multiset of characters |
| PasswordGenerator.GeneratedHasEveryClass | apps/web/src/components/UploadDrop.tsx:133-160 | for all draws and lengths from 4: exact length, every class, only alphabet characters |
| PasswordGenerator.ScorePassword | apps/web/src/components/UploadDrop.tsx:115-123 | the meter's increments sum two length tiers and a class tier, at most 3 |
| PasswordGenerator.GeneratedIsStrong | apps/web/src/components/UploadDrop.tsx:131-141 | every generated password of 14 or more characters scores 3 |
| PasswordRange.ShuffleDetermines | apps/web/src/components/UploadDrop.tsx:154-158 | two runs of the shuffle on different characters give one arrangement only if every pick is the same: no arrangement is favoured |
| PasswordRange.GeneratedExactly | apps/web/src/components/UploadDrop.tsx:132-160 | a text can be generated if and only if it has the length, every class, and only alphabet characters |
| Slicing.ChunkCountIsLeast | apps/web/src/lib/upload.ts:218-219 | the chunk count is the least that holds the file |
| Slicing.SlicesAreAPrefix | apps/web/src/lib/upload.ts:323-332 | the first k slices concatenate to the file up to the k-th cut, all of them to the file |
| Slicing.SliceLengths | apps/web/src/lib/upload.ts:328-332 | every slice but the last is full, the last is not empty |
| Slicing.AcceptedExactlyBelowWholeChunks | apps/api-gateway/src/routes/shares.ts:378-405 | the gateway's totals accept a cut file if and only if its size is at most floor(M/C)*C |
| Slicing.DefaultLimits | apps/api-gateway/src/routes/shares.ts:261-277 | with the shipped constants the accepted sizes end at 1020 MiB |
| Crypto.HashChunks | packages/crypto-core/src/symmetric.ts:146-154 | for any incremental hash state that streams, one update a chunk gives the hash of the concatenation |
| Upload.UploadFile | apps/web/src/lib/upload.ts:150-378 | succeeds if and only if the file fits, nothing throws, the gateway answers with as many urls as chunks, and every PUT is made before a cancellation and accepted; then one PUT per chunk in order and progress rising to exactly bytesTotal |
| Upload.UploadedBytes | apps/web/src/lib/upload.ts:315-369 | ciphertext bytes after k PUTs are the plaintext up to the k-th cut and a tag each |
| Upload.SealedUnderItsAad | apps/web/src/lib/upload.ts:231-340 | what the sender sealed under a chunk's associated data is that chunk's slice, under the metadata's the metadata |
| Download.DownloadFile | apps/web/src/lib/download.ts:170-340 | the loop returns the first failure or the assembled file, with progress after every chunk |
| Download.OpenedMetaIsTheSenders | apps/web/src/lib/download.ts:379-440 | metadata that opens is the sender's, unless that very blob is forged |
| Download.OpenedChunkIsTheSlice | apps/web/src/lib/download.ts:247-287 | a chunk that opens at index i is the sender's i-th slice, unless that very answer is forged |
| Download.DownloadIsExactOrForged | apps/web/src/lib/download.ts:221-333 | against any server, with any primitives: a message this server returned is forged under the receiver's key, or names right and blob the file when the count or the hash is sealed, and a chunk-aligned prefix in any case |
| PasswordKeys.AeadKeyDeterminesBoth | packages/crypto-core/src/derivation.ts:200-261 | two pairs of link key and password key lead to one AEAD key if and only if they are one pair or an explicit meeting of keyed hashes is on the table |
| PasswordKeys.PasswordTakesPart | packages/crypto-core/src/derivation.ts:200-261 | under one link key, two password keys give one AEAD key only if they are equal or two different messages collide; the no-password key only if the keyed hash returns the link key |
| PasswordKeys.WrongReceiverGetsNothing | apps/web/src/lib/download.ts:197-219 | against any server, with any primitives: a receiver with another link key or another Argon2id output gets no file, unless a message is forged or the keys meet |
| PasswordKeys.WrongReceiverIsTold | apps/web/src/lib/download.ts:379-420 | against a server that shows the share's own password fields it is told: password required, wrong password, or on a share without one that the metadata is wrong |
| GatewayCreate.EncodedIsField | apps/api-gateway/src/routes/shares.ts:246-262 | an encoded byte string passes the gateway's field check at exactly its length |
| GatewayCreate.EncodedSurvivesTheColumn | apps/api-gateway/src/routes/shares.ts:676-699 | decoded into a column and encoded again, an encoder's text is unchanged |
| GatewayCreate.AcceptedIsWellFormed | apps/api-gateway/src/routes/shares.ts:232-440 | whatever a client sends, what is accepted covers the file within the caps, has columns of their exact lengths, and reads back so that the receiver can decode every field |
| EndToEnd.MemLimitSurvives | apps/web/src/lib/upload.ts:178-186 | the Argon2 memory limit survives the KiB column if and only if it is a whole number of KiB |
| EndToEnd.KeysAgree | apps/web/src/lib/download.ts:197-219 | receiver and sender reach one AEAD key, at the receiver's memory limit, with or without a password |
| EndToEnd.CreateIsAccepted | apps/api-gateway/src/routes/shares.ts:232-440 | the sender's create body passes the schema, and the descriptor gives back its fields |
| EndToEnd.CreatedShareIsBounded | apps/api-gateway/src/routes/shares.ts:263-277 | what can be created can be stored: a full chunk fits the body cap, the blobs the file cap and one tag a chunk |
| EndToEnd.PutIsAccepted | services/ingest/Endpoints/UploadEndpoint.cs:123-255 | every PUT the sender makes passes the ingest checks, at any moment the share takes uploads |
| EndToEnd.EverySenderSends | apps/web/src/lib/upload.ts:161-345 | no step of the sender throws: every admissible sender has a key, sealed metadata and a PUT for each chunk |
| EndToEnd.AnswerIsTheHandlers | services/ingest/Endpoints/DownloadEndpoint.cs:152-232 | the answers used below are what the GET handler sends undisturbed, and its statuses otherwise |
| EndToEnd.StoredChunkIsServed | services/ingest/Endpoints/DownloadEndpoint.cs:186-232 | a stored, unserved chunk passes the token gate for the honest receiver and comes with its nonce |
| EndToEnd.MarksLeaveTheRest | db/migrations/0004_burn_after_read_server_side.sql:137-203 | marking the chunks before it changes nothing of a chunk not served yet, nor of the share |
| EndToEnd.ReadyShareDelivers | services/ingest/Endpoints/UploadEndpoint.cs:258-342 | any run of the sender's PUTs that ends ready has stored what the services then deliver, chunk for chunk |
| EndToEnd.ChunksOpen | apps/web/src/lib/download.ts:238-290 | what a delivering server serves opens to exactly the slices |
| EndToEnd.HonestRoundTrip | apps/web/src/lib/upload.ts:150-378 | for every admissible sender: create accepted, every PUT accepted, and after any interleaved run of those PUTs that ends ready the download from the stored rows and blobs is exactly the file, its name and type |
| EndToEnd.UploadedFileArrives | apps/web/src/lib/upload.ts:150-378 | when no call fails and the sender's PUTs are answered, a 201 for every chunk, the download is exactly the file, with nothing assumed of the state |
| EndToEnd.HonestServicesForgeNothing | apps/web/src/lib/download.ts:221-333 | nothing such services return is forged, so on lawful primitives the safety theorem's other alternative is met |
| EndToEnd.NextReceiverGetsNothing | apps/api-gateway/src/routes/shares.ts:645-662 | the invited receiver of a share that is gone is told that there is none, of a burn share already begun that it was used, and gets nothing |
| ShareStore.Store.UpsertChunkAsync | services/ingest/Services/PostgresShareRepository.cs:69-131 | insert or overwrite of one row, delivery accounting reset |
| ShareStore.Store.UpdateShareStateAsync | services/ingest/Services/PostgresShareRepository.cs:194-210 | an unguarded state write |
| ShareStore.Store.CountUploadedChunksAsync | services/ingest/Services/PostgresShareRepository.cs:178-191 | the number of uploaded rows |
| ShareStore.Store.MarkChunkServedAsync | db/migrations/0004_burn_after_read_server_side.sql:99-207 | stamp, count and flip as one transaction |
| ShareStore.Store.FinalizeDestroyTx | services/reaper/internal/reaper/db.go:292-383 | rows deleted, share flipped and audited together or not at all |
| ShareModel.CountMeansFull | services/ingest/Endpoints/UploadEndpoint.cs:331-336 | with the row key and the index check, count reaches chunkCount if and only if every index has its one row |
| UploadEndpoint.HandleAsync | services/ingest/Endpoints/UploadEndpoint.cs:89-353 | the handler alone is the six-call run of its step function, for every outcome of every call |
| DownloadEndpoint.HandleAsync | services/ingest/Endpoints/DownloadEndpoint.cs:119-363 | the handler alone is the four-call run of its step function |
| ShareStore.Store.IncrementDownloadRpc | db/migrations/0001_init.sql:160-195 | the guarded update in place: count, burn or cap, or raise |
| ShareStore.Store.RevokeAsync | apps/api-gateway/src/routes/shares.ts:833-841 | the unguarded update of `/destroy` |
| GatewayShares.HandleDownloaded | apps/api-gateway/src/routes/shares.ts:909-1006 | the handler alone is the three-call run of its step function |
| GatewayShares.HandleDestroy | apps/api-gateway/src/routes/shares.ts:750-872 | the handler alone is the three-call run of its step function |
| UploadProofs.SoloRunIsAMachineRun | services/ingest/Endpoints/UploadEndpoint.cs:89-353 | the handler alone is one of the machine's runs |
| UploadProofs.RefusalLetsThrough | services/ingest/Endpoints/UploadEndpoint.cs:139-194 | what the checks let through: index in range, a full chunk exactly chunkSize+16, the last at most that |
| UploadProofs.PutStepKeeps | services/ingest/Endpoints/UploadEndpoint.cs:258-349 | one call of one handler keeps blob before row before count, and hands on the duty to promote |
| UploadProofs.UploadConverges | services/ingest/Endpoints/UploadEndpoint.cs:123-349 | any interleaving, any failures: all answered and every row stored means ready, or some handler was stopped by an error after storing its row |
| UploadProofs.CleanUploadIsReady | services/ingest/Endpoints/UploadEndpoint.cs:320-342 | with no failing call a complete upload always ends ready, though ready may slip back on the way |
| UploadConditions.AnsweredHasItsRow | services/ingest/Endpoints/UploadEndpoint.cs:296-353 | a 201 is kept: at every later moment of the upload, whatever fails, the chunk has its row |
| UploadConditions.StoredUploadIsReady | services/ingest/Endpoints/UploadEndpoint.cs:320-353 | with no failing call, all answered and a 201 for every index means ready |
| UploadProofs.ReadyIsComplete | services/ingest/Endpoints/UploadEndpoint.cs:261-342 | at every moment, ready means exactly one row and a stored blob for each index |
| UploadProofs.StorageIsBounded | services/ingest/Endpoints/UploadEndpoint.cs:155-194 | whatever is put and put again, stored ciphertext stays within the file cap and one tag a chunk |
| UploadProofs.OnePutRepairs | services/ingest/Endpoints/UploadEndpoint.cs:343-349 | one undisturbed PUT makes a complete but stranded share ready |
| UploadProofs.ReadySlipsBack | services/ingest/Endpoints/UploadEndpoint.cs:325-342 | a run in which the share is ready, uploading, ready |
| UploadConditions.ReadyStaysExactly | services/ingest/Endpoints/UploadEndpoint.cs:325-342 | a ready share stays ready over every continuation if and only if no handler that saw it pending is still to write uploading |
| UploadProofs.LostPromotionStrands | services/ingest/Endpoints/UploadEndpoint.cs:337-349 | a failed promotion leaves a complete share uploading with every handler answered 201 |
| UploadConditions.StrandedExactly | services/ingest/Endpoints/UploadEndpoint.cs:320-349 | handlers past their first call can still make a complete share ready if and only if one of them is in flight with its body whole |
| UploadConditions.RowBesideAnothersBlob | services/ingest/Endpoints/UploadEndpoint.cs:261-310 | a run that ends ready with one PUT's nonce beside another's ciphertext |
| UploadConditions.PairsStayExactly | services/ingest/Endpoints/UploadEndpoint.cs:261-310 | a share ready for good keeps every row beside its own blob, over every continuation, if and only if no handler is about to write anything but what is stored |
| UploadConditions.CopiesArePaired | services/ingest/Endpoints/UploadEndpoint.cs:258-342 | when PUTs are only repeated unchanged, a ready share has every row beside its own blob, in every interleaving |
| AccessGates.AcceptedExactly | services/ingest/Endpoints/UploadEndpoint.cs:123-255 | which PUTs ingest takes, if and only if, down to the bytes the headers decode to |
| AccessGates.RefusedWith | services/ingest/Endpoints/UploadEndpoint.cs:123-255 | the status of every other PUT: closed, too large, or malformed |
| AccessGates.PutAnswers | services/ingest/Endpoints/UploadEndpoint.cs:258-342 | an undisturbed PUT: refused, it changes nothing; taken, its blob and a fresh unserved row are stored, nothing else moves, and the share is ready exactly when every index has a row |
| AccessGates.StoredRowsAreWellFormed | services/ingest/Endpoints/UploadEndpoint.cs:215-255 | in every state any run reaches, every row has a nonce of 24 bytes and a commitment of 32 or none |
| AccessGates.OnlyTheTokenGetsTheChunk | services/ingest/Endpoints/DownloadEndpoint.cs:204-216 | over every run with no upload in flight, a chunk with a commitment is sent to nobody whose token does not hash to it |
| AccessGates.GetAnswers | services/ingest/Endpoints/DownloadEndpoint.cs:152-232 | an undisturbed GET, case by case: 410, 400, 404, 410, 401, 403, 502, or the chunk |
| AccessGates.HandlerSendsExactlyWhenAdmitted | services/ingest/Endpoints/DownloadEndpoint.cs:204-216 | on a servable chunk the handler sends if and only if the header is admitted, and answers 401 or 403 otherwise |
| AccessGates.HandlerServesOnlyItsChunk | services/ingest/Endpoints/DownloadEndpoint.cs:204-216 | it sends for the token of its own key, share and index, and for another only along with a SHA-256 collision |
| AccessGates.OnlyTheTokenRevokes | apps/api-gateway/src/routes/shares.ts:814-841 | over every run a `/destroy` that is past its checks has presented the hash stored with the share |
| AccessGates.NobodyRevokesWithoutTheToken | apps/api-gateway/src/routes/shares.ts:794-847 | from creation: when every `/destroy` carries another hash or none, nothing manual is ever written or recorded and the run is for everybody else the run without them |
| AccessGates.RevokeAnswers | apps/api-gateway/src/routes/shares.ts:794-872 | an undisturbed `/destroy`, case by case: 401, 200, 410, 403, or destroyed now, by hand, with its entry |
| LifecycleProofs.PutIsRefused | services/ingest/Endpoints/UploadEndpoint.cs:131-137 | after upload, or past expiry, no PUT touches the rows |
| LifecycleProofs.GetAdvances | services/ingest/Endpoints/DownloadEndpoint.cs:119-363 | a GET call moves states forward, keeps every key, blob and mark |
| LifecycleProofs.AckAdvances | apps/api-gateway/src/routes/shares.ts:909-1006 | so does a `/downloaded` call |
| LifecycleProofs.RevokeAdvances | apps/api-gateway/src/routes/shares.ts:794-847 | so does a `/destroy` call |
| LifecycleProofs.ReaperNeverPartsBlobFromRow | services/reaper/internal/reaper/reaper.go:178-225 | with no PUT in flight and the reaper's key list fresh, any run with failures, rollbacks, cancellations and crashes keeps the set of blobs without a row, so rows gone means blobs gone unless orphans were there before |
| OrphanConditions.OrphansStayExactly | services/reaper/internal/reaper/reaper.go:186-203 | with no PUT in flight, no run changes which blobs have no row if and only if the key list is fresh: the rows' blobs still to go are on it and no orphan is |
| OrphanConditions.LatePutIsOrphaned | services/reaper/internal/reaper/db.go:292-383 | a run in which a PUT answered 201 between the key query and the transaction loses its row and keeps its blob |
| LifecycleProofs.LifecycleIsForward | apps/api-gateway/src/routes/shares.ts:794-841 | with no PUT in flight, wherever the reaper is, every run moves a share only from ready to expired to destroyed, which is final |
| LifecycleProofs.DateChangesOnlyByRevoke | services/reaper/internal/reaper/db.go:205-215 | on a destroyed share a step changes destroyed_at if and only if it is a stale `/destroy` UPDATE at another time |
| LifecycleProofs.DestroyedAtIsWrittenOnce | services/reaper/internal/reaper/db.go:209-215 | with `/destroy` not stale, destroyed_at is set exactly when the share is destroyed and never again |
| FinalityConditions.SecondRevokeMovesTheDate | apps/api-gateway/src/routes/shares.ts:794-841 | a run of two `/destroy` handlers after which the share is destroyed at a later date than it was |
| FinalityConditions.DateIsFinalExactly | apps/api-gateway/src/routes/shares.ts:794-841 | on a destroyed share with no PUT in flight no continuation changes destroyed_at if and only if no `/destroy` stands between read and write |
| FinalityConditions.DateIsFinalExactlyWithUploads | services/reaper/internal/reaper/db.go:205-215 | for every destroyed state any run reaches on a share with a revoke token: if and only if, besides, no PUT in flight can reopen it |
| LifecycleProofs.LostUpsertIsNeverCollected | services/ingest/Endpoints/UploadEndpoint.cs:296-318 | the blob of a failed upsert survives every run of everybody |
| LifecycleProofs.StalePutReopens | services/ingest/Services/PostgresShareRepository.cs:194-210 | a PUT in flight over a destroy makes the share ready again |
| FinalityConditions.DestroyedIsFinalExactly | services/ingest/Services/PostgresShareRepository.cs:194-210 | for every state any run of anybody reaches: destroyed is final if and only if no PUT in flight is still to overwrite the state, and none is still to count or some index has neither row nor writer |
| FinalityConditions.CompleteShareIsReopenedByAnyPut | services/ingest/Endpoints/UploadEndpoint.cs:320-342 | while every row is there, that means: if and only if no PUT is in flight with its body whole |
| BurnProofs.MarkKeeps | db/migrations/0004_burn_after_read_server_side.sql:137-203 | a mark fires exactly on a ready share whose last unserved chunk it stamps, writing its one entry |
| BurnProofs.IncrementKeeps | db/migrations/0001_init.sql:160-195 | increment_download acts only on a ready share and keeps its rows and entries |
| DownloadCounts.IncrementBurnsOrCounts | db/migrations/0001_init.sql:160-195 | raises exactly on a share not available; burns a burn share now; else counts one, and expires the share exactly at its cap |
| DownloadCounts.MarkBurnsOrStamps | db/migrations/0004_burn_after_read_server_side.sql:137-203 | fires exactly on the last unserved chunk of a ready burn share, which it burns now; else only stamps that one row |
| DownloadCounts.DownloadedAnswers | apps/api-gateway/src/routes/shares.ts:909-1006 | an undisturbed `/downloaded`, case by case, with what it leaves, records and reports |
| DownloadCounts.EveryDownloadOfABurnShareBurns | apps/api-gateway/src/routes/shares.ts:950-1006 | over every run of anybody on a burn share, a `/downloaded` past its call has seen the burn, and no caller is told that the share is still there |
| DownloadCounts.CapIsKept | db/migrations/0001_init.sql:168-178 | over every run after an upload: ready means below the cap, the count never passes it, and no more downloads are reported or recorded than were counted |
| BurnProofs.BurnIsOnce | services/ingest/Endpoints/DownloadEndpoint.cs:152-360 | over every run after an upload: at most one caller sees the burn, at most one burn entry, every chunk has left if ingest fired it, a ready burn share has an unserved chunk, one reaper entry exactly when the rows are gone |
| BurnProofs.FinalisedForGood | services/reaper/internal/reaper/db.go:165-186 | a finalised share is never a candidate again and gets no second entry, in any continuation |
| BurnRaces.ExactlyOneFires | apps/api-gateway/src/routes/shares.ts:909-1006 | marks racing split `/downloaded` handlers: a destroyed share has exactly one handler that saw itself destroy it, and one burn entry once all have answered |
| BurnRaces.NoAcknowledgeGets404 | apps/api-gateway/src/routes/shares.ts:950-988 | no `/downloaded` caller on an existing share is told 404, in any run |
| BurnRaces.LateGetsSendNothing | services/ingest/Endpoints/DownloadEndpoint.cs:152-216 | a GET whose share read follows the burn, or whose chunk read follows that chunk's mark, never sends a byte |
| BurnRaces.MarkCloses | services/ingest/Endpoints/DownloadEndpoint.cs:197-201 | a mark that took effect makes every GET of a burn chunk yet to read it too late |
| Reaper.ReapedIsAMachineRun | services/reaper/internal/reaper/reaper.go:186-225 | the daemon's reaping of a share is a run of the share's machine, in any weather |
| Reaper.ReapedWhenWorking | services/reaper/internal/reaper/reaper.go:186-225 | with everything working a reaped share has no row, none of their blobs, and one more entry |
| Reaper.ReapedKeepsOrphans | services/reaper/internal/reaper/storage.go:76-99 | whatever fails, reaping makes no orphan |
| Reaper.FinalisedIsDone | services/reaper/internal/reaper/db.go:165-186 | a finalised share is no candidate at any later time |
| Reaper.Daemon.FetchReapable | services/reaper/internal/reaper/db.go:235-254 | the first `limit` candidates in the order destroyed_at NULLS LAST, expires_at, each once |
| Retention.CandidateExactly | services/reaper/internal/reaper/db.go:165-186 | a share is a candidate if and only if it is due and something of it is left |
| Retention.DueIsSwept | services/reaper/internal/reaper/db.go:165-186 | in every state any run reaches from creation: burnt, revoked, used up, at its cap or past its date with rows left means candidate now and at every later time; a live share inside both limits is none |
| Retention.FinalReason | services/reaper/internal/reaper/db.go:402-427 | the reason left and recorded: burn, max_downloads or expiry, each if and only if |
| Retention.ReasonIsKeptExactlyForBurns | services/reaper/internal/reaper/db.go:209-215 | over every run after an upload, finalising keeps the recorded reason if and only if it is a burn |
| Reaper.NotAfterIsAnOrder | services/reaper/internal/reaper/db.go:184-185 | the order of the query is total and transitive, and ties are equal dates |
| Reaper.DatedDrainFirst | services/reaper/internal/reaper/db.go:163-185 | who is picked over another is dated if that one is, no later, and among equal dates expired no later |
| Reaper.Daemon.FetchChunkKeys | services/reaper/internal/reaper/db.go:259-278 | every chunk row of the share, each once |
| Reaper.Daemon.RemoveBlob | services/reaper/internal/reaper/storage.go:58-74 | idempotent removal: an absent object is no error |
| Reaper.Daemon.RemoveBlobs | services/reaper/internal/reaper/storage.go:76-99 | removes in order, stopping at the first error or cancellation |
| Reaper.Daemon.ReapOne | services/reaper/internal/reaper/reaper.go:178-225 | keys, blobs, transaction; earlier failure leaves the rows for the next sweep |
| Reaper.Daemon.SweepOnce | services/reaper/internal/reaper/reaper.go:119-176 | working: exactly the picked shares finalised; in any weather no other share touched, no orphan made, each share finalised or its rows kept |
| Reaper.Daemon.Run | services/reaper/internal/reaper/reaper.go:86-115 | the backlog shrinks by a batch a sweep; every share that was destroyed, used up, at its cap or past its date is erased if and only if there were ceil(N/B) sweeps, with one entry each; others untouched |
| Reaper.SweepRemovesABatch | services/reaper/internal/reaper/db.go:165-186 | a sweep takes exactly min(B, N) out of the candidates |
| Reaper.BacklogIsEmpty | services/reaper/internal/reaper/reaper.go:86-115 | ceil(N/B) sweeps are enough and no fewer |
| Reaper.ReapedIsDoneOrKept | services/reaper/internal/reaper/reaper.go:178-225 | whatever fails, a share is finalised or keeps its row, its chunk rows and its entries |
| Reaper.ReportIsTrue | services/reaper/internal/reaper/reaper.go:186-225 | reported processed means done; a locked share, or one whose every call is lost, is left with its rows |
| Reaper.OwnersView | services/reaper/internal/reaper/reaper.go:86-115 | an empty backlog means exactly that every due share is erased, with every blob a row was there for |
| ReaperProgress.FewFailuresOnlyDelay | services/reaper/internal/reaper/reaper.go:148-166 | while fewer shares fail again and again than a batch holds, all others are finalised after ceil of their number over the batch less the failing |
| ReaperProgress.FailingHeadStarvesTheRest | services/reaper/internal/reaper/db.go:165-186 | when a whole batch at the head of the order fails at every sweep, no other share is ever touched |
| IngestLimiter.ValkeyRateLimiter.TryAcquireAsync | services/ingest/Services/ValkeyRateLimiter.cs:69-111 | the four commands equal the script's effect; a limit or window not positive admits |
| IngestLimiter.FindsTheLog | services/ingest/Services/ValkeyRateLimiter.cs:35-48 | eviction and expiry hide nothing of the window |
| IngestLimiter.IngestRefinesTheLog | services/ingest/Services/ValkeyRateLimiter.cs:35-100 | admits exactly the requests that find fewer than `limit` earlier admissions in the last window; no window ever holds more |
| RateLog.LogBoundsEveryWindow | services/ingest/Services/ValkeyRateLimiter.cs:3-16 | the plain log admits at most `limit` in every window |
| GatewayLimiter.KeyInjective | apps/api-gateway/src/middleware/rateLimit.ts:89 | keys of different buckets or identities never meet |
| GatewayLimiter.RunPipeline | apps/api-gateway/src/middleware/rateLimit.ts:93-115 | trim, add, count, expire on one key |
| GatewayLimiter.Evaluate | apps/api-gateway/src/middleware/rateLimit.ts:80-134 | the rules in order up to the first that trips |
| GatewayLimiter.AttemptCounts | apps/api-gateway/src/middleware/rateLimit.ts:93-115 | one attempt is counted against exactly the attempts of the last window |
| GatewayLimiter.GatewayIsStricter | apps/api-gateway/src/middleware/rateLimit.ts:88-116 | on one stream and rule, whatever the gateway admits the ingest limiter admits |
| GatewayRules.RuleSummary | apps/api-gateway/src/middleware/rateLimit.ts:88-119 | each rule's key gets one attempt, or none when an earlier rule trips; admission means every rule was within |
| GatewayRules.EveryRuleBoundsItsWindows | apps/api-gateway/src/middleware/rateLimit.ts:80-134 | for every rule and identity at once, at most `max` admitted requests in every window of the rule's length |
| GatewayRaces.EvaluateIsAMachineRun | apps/api-gateway/src/middleware/rateLimit.ts:80-134 | `evaluate` undisturbed is one run of the interleaved machine |
| GatewayRaces.LimitSurvivesInterleaving | apps/api-gateway/src/middleware/rateLimit.ts:93-116 | the bound holds for every interleaving, given distinct members and, from the group's first add to its last count, an unexpired key and no trim for a later request |
| GatewayRaces.LateTrimAdmitsTwo | apps/api-gateway/src/middleware/rateLimit.ts:93-109 | with a late trim, two are admitted in a window of one |
| GatewayRaces.LapsedKeyAdmitsTwo | apps/api-gateway/src/middleware/rateLimit.ts:93-109 | so they are when the key lapses between the two |
| GatewayRaces.EqualMembersAdmitTwo | apps/api-gateway/src/middleware/rateLimit.ts:90-104 | and when both requests have one stamp and one id |

## Left out

- The ciphers and hashes, JSON and percent-decoding are arguments of the model; so are random draws and what the other parties answer.
- HTTP, MinIO, Postgres, Valkey, NATS and WebSocket transport, logging, metrics, configuration and shutdown: each database, blob or script call is one atomic step with its three outcomes.
- The fail-open branches of both limiters, and the limiter call at the head of each handler: their guarantees need a store that answers.
- One database clock; the gateway's own `new Date()` in `/destroy` is read from it.
- One reaper: its lock query filters on the id only.
- The missing-share branches (404) of the handlers: the machine is about one existing share.
- The internal chunk DELETE endpoint, which removes blobs without touching rows.
- The exception of a cancelled request is folded into the 502 of a failed blob write: nothing is stored after either.
- Bytes.Utf8Injective: texts are Unicode scalar values; a JavaScript string with a lone surrogate, which `TextEncoder` replaces by U+FFFD, is outside it.
- `expiresAt`, `maxDownloads`, the revoke token and the metadata's unused `fileSize` in the create request: further fields with bounds of their own that the round trip does not use.
- The audit hash chain: the audit is an append-only sequence, and the gateway's fire-and-forget insert is a step of its own that may be lost.
- The WebSocket per-IP counter, the receipt service, the verify CLI, zip packing, the local share list, the React components.
- ShareStore.Store.PutAsync: the stream and its content type are not modelled, only the bytes stored under the index.
- FinalityConditions.DateIsFinalExactlyWithUploads: on a share without a revoke token, which the web client never makes, the condition is only sufficient; whether a reopened share can then still burn depends on its GETs and its clock.
- EndToEnd.HonestRoundTrip: the sealed metadata must fit the gateway's 8192 characters, which a very long file name does not, and other readers' marks and the clock's last moments are the subject of the burn and lifecycle theorems.
- Codecs.TryDecodeBase64Url: white space is the four characters .NET's converter skips; culture plays no part.
- UploadProofs.UploadConverges: liveness is stated at the moment all handlers have answered; that a handler answers at all is not modelled.
