/** `PUT /chunk/{shortId}/{chunkIndex}`: services/ingest/Endpoints/UploadEndpoint.cs. */
module UploadEndpoint {
  import opened Wrappers
  import opened Bytes
  import opened Codecs
  import opened ShareModel
  import opened ShareStore

  const MAX_CHUNK_BYTES: int := 10 * 1024 * 1024
  const NONCE_BYTES: int := 24
  const AEAD_TAG_BYTES: int := 16

  /** A PUT: its declared length, its headers, and the body that arrives. */
  datatype Request = Request(
    index: int, contentLength: Option<int>, nonceHeader: Option<string>, tokenHashHeader: Option<string>, body: ByteString)

  /** The checks between reading the share and the first write: the status of the refusal, or None. */
  function Refusal(s: ShareRow, now: int, q: Request): (status: Option<int>)
  {
    if !s.CanAcceptUploads() || s.IsExpired(now) then Some(410)
    else if q.index < 0 || q.index >= s.chunkCount then Some(400)
    else if q.contentLength.None? || q.contentLength.value < 0 then Some(400)
    else if q.contentLength.value > MAX_CHUNK_BYTES then Some(413)
    else if q.index != s.chunkCount - 1 && q.contentLength.value != s.chunkSize + AEAD_TAG_BYTES then Some(400)
    else if q.index == s.chunkCount - 1 && q.contentLength.value > s.chunkSize + AEAD_TAG_BYTES then Some(400)
    else if q.contentLength.value == 0 then Some(400)
    else if q.nonceHeader.None? || q.nonceHeader.value == "" then Some(400)
    else if IngestDecode(q.nonceHeader.value).None? || |IngestDecode(q.nonceHeader.value).value| != NONCE_BYTES then Some(400)
    else if q.tokenHashHeader.Some?
         && (IngestDecode(q.tokenHashHeader.value).None? || |IngestDecode(q.tokenHashHeader.value).value| != 32) then Some(400)
    else None
  }

  function Nonce(q: Request): (r: ByteString)
  {
    if q.nonceHeader.None? || IngestDecode(q.nonceHeader.value).None? then [] else IngestDecode(q.nonceHeader.value).value
  }

  function TokenHash(q: Request): (r: Option<ByteString>)
  {
    if q.tokenHashHeader.None? then None else IngestDecode(q.tokenHashHeader.value)
  }

  function Size(q: Request): (r: int)
  {
    if q.contentLength.Some? then q.contentLength.value else 0
  }

  /** The body arrives at its declared length; the server reports any other as a bad request. */
  predicate IsWhole(q: Request)
  {
    |q.body| == Size(q)
  }

  /** The request passes every check, its body included. */
  predicate Accepts(s: ShareRow, now: int, q: Request)
  {
    Refusal(s, now, q).None? && IsWhole(q)
  }

  // ---- The handler as a sequence of calls that others can run between ----

  datatype Pc =
    | ReadShare
    | StoreBlob(seen: ShareRow)
    | UpsertRow(seen: ShareRow)
    | MarkUploading(seen: ShareRow)
    | Count(seen: ShareRow)
    | MarkReady
    | Finished(status: int)

  /**
   * One handler; `gaveUp` records that an error stopped it with its row stored: the catch around the state
   * promotion swallowed it, or the upsert took effect but looked failed.
   */
  datatype Put = Put(req: Request, pc: Pc, gaveUp: bool)
  {
    function To(pc: Pc): (p: Put)
    {
      this.(pc := pc)
    }

    function GiveUp(status: int): (p: Put)
    {
      this.(pc := Finished(status), gaveUp := true)
    }

    /** The handler has passed its checks and not yet answered. */
    predicate InFlight()
    {
      !pc.ReadShare? && !pc.Finished?
    }
  }

  /** The next call of the handler, with the given outcome. */
  function PutStep(db: Db, now: int, p: Put, o: Outcome): (r: (Db, Put))
  {
    match p.pc
    case ReadShare =>
      if !o.Applied? then (db, p.To(Finished(500)))
      else (db, match Refusal(db.share, now, p.req)
                case Some(status) => p.To(Finished(status))
                case None => p.To(StoreBlob(db.share)))
    case StoreBlob(seen) =>
      if !IsWhole(p.req) then (db, p.To(Finished(400)))
      else (Effect(o, db, PutBlob(db, p.req.index, p.req.body)), if o.Applied? then p.To(UpsertRow(seen)) else p.To(Finished(502)))
    case UpsertRow(seen) =>
      (Effect(o, db, UpsertChunk(db, p.req.index, Nonce(p.req), Size(p.req), now, TokenHash(p.req))),
       if o.Lost? then p.To(Finished(502))
       else if o.AppliedLost? then p.GiveUp(502)
       else if seen.state == Pending then p.To(MarkUploading(seen)) else p.To(Count(seen)))
    case MarkUploading(seen) =>
      (Effect(o, db, SetState(db, Uploading)), if o.Applied? then p.To(Count(seen)) else p.GiveUp(201))
    case Count(seen) =>
      (db, if !o.Applied? then p.GiveUp(201)
           else if CountUploadedChunks(db) >= seen.chunkCount then p.To(MarkReady) else p.To(Finished(201)))
    case MarkReady =>
      (Effect(o, db, SetState(db, Ready)), if o.Applied? then p.To(Finished(201)) else p.GiveUp(201))
    case Finished(_) => (db, p)
  }

  /** The handler run alone, each call taking the next outcome. */
  function Run(db: Db, now: int, p: Put, outcomes: seq<Outcome>): (r: (Db, Put))
    decreases |outcomes|
  {
    if outcomes == [] || p.pc.Finished? then (db, p)
    else
      var (db', p') := PutStep(db, now, p, outcomes[0]);
      Run(db', now, p', outcomes[1..])
  }

  /** Six calls are enough for every handler. */
  const CALLS: nat := 6

  /** `HandleAsync`: alone, it is the six-call run of the step function. */
  method HandleAsync(store: Store, now: int, req: Request, outcomes: seq<Outcome>) returns (status: int)
    requires |outcomes| == CALLS
    modifies store
    ensures var (db, p) := Run(old(store.Snapshot()), now, Put(req, ReadShare, false), outcomes);
            store.Snapshot() == db && p.pc == Finished(status)
  {
    hide Run, Refusal, IsWhole, Nonce, Size, TokenHash;
    ghost var p0 := Put(req, ReadShare, false);
    UnfoldRun(store.Snapshot(), now, p0, outcomes);
    if !outcomes[0].Applied? {
      return 500;
    }
    var share := store.share;
    var refused := Refusal(share, now, req);
    if refused.Some? {
      return refused.value;
    }
    if !IsWhole(req) {
      return 400;
    }
    var stored := store.PutAsync(outcomes[1], req.index, req.body);
    if !stored {
      return 502;
    }
    var upserted := store.UpsertChunkAsync(outcomes[2], req.index, Nonce(req), Size(req), now, TokenHash(req));
    if !upserted {
      return 502;
    }
    var rest := outcomes[3..];
    if share.state == Pending {
      var marked := store.UpdateShareStateAsync(rest[0], Uploading);
      if !marked {
        return 201;
      }
      rest := rest[1..];
    }
    if !rest[0].Applied? {
      return 201;
    }
    var uploaded := store.CountUploadedChunksAsync();
    if uploaded >= share.chunkCount {
      var promoted := store.UpdateShareStateAsync(rest[1], Ready);
    }
    return 201;
  }

  /** The calls of a run, one after the other. */
  lemma UnfoldRun(db: Db, now: int, p: Put, outcomes: seq<Outcome>)
    requires |outcomes| == CALLS
    ensures
      var r1 := PutStep(db, now, p, outcomes[0]);
      var r2 := PutStep(r1.0, now, r1.1, outcomes[1]);
      var r3 := PutStep(r2.0, now, r2.1, outcomes[2]);
      var r4 := PutStep(r3.0, now, r3.1, outcomes[3]);
      var r5 := PutStep(r4.0, now, r4.1, outcomes[4]);
      var r6 := PutStep(r5.0, now, r5.1, outcomes[5]);
      Run(db, now, p, outcomes) == r6
  {
    hide PutStep;
    var o := outcomes;
    var r1 := PutStep(db, now, p, o[0]);
    var r2 := PutStep(r1.0, now, r1.1, o[1]);
    var r3 := PutStep(r2.0, now, r2.1, o[2]);
    var r4 := PutStep(r3.0, now, r3.1, o[3]);
    var r5 := PutStep(r4.0, now, r4.1, o[4]);
    RunOnce(db, now, p, o);
    RunOnce(r1.0, now, r1.1, o[1..]);
    RunOnce(r2.0, now, r2.1, o[2..]);
    RunOnce(r3.0, now, r3.1, o[3..]);
    RunOnce(r4.0, now, r4.1, o[4..]);
    RunOnce(r5.0, now, r5.1, o[5..]);
    assert o[1..][1..] == o[2..] && o[2..][1..] == o[3..] && o[3..][1..] == o[4..] && o[4..][1..] == o[5..];
  }

  lemma RunOnce(db: Db, now: int, p: Put, outcomes: seq<Outcome>)
    requires outcomes != []
    ensures var r := PutStep(db, now, p, outcomes[0]);
            Run(db, now, p, outcomes) == Run(r.0, now, r.1, outcomes[1..])
  {
    if p.pc.Finished? {
      assert PutStep(db, now, p, outcomes[0]) == (db, p);
    }
  }
}
