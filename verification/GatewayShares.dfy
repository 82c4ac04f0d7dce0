/** The `/downloaded` and `/destroy` handlers of apps/api-gateway/src/routes/shares.ts on an existing share. */
module GatewayShares {
  import opened Wrappers
  import opened Bytes
  import opened ShareModel
  import opened ShareStore

  // ---- POST /api/shares/:shortId/downloaded ----

  datatype DownloadedPc =
    | ReadState
    | CallRpc
    | RecordAudit(state: ShareState)
    | Answered(status: int, reported: Option<ShareState>)

  /** One handler; `sawBurn` is its `becameDestroyed`. */
  datatype Acknowledge = Acknowledge(pc: DownloadedPc, sawBurn: bool)

  /** What the `increment_download` call gives back: an exception, or the rows of its result. */
  datatype RpcResult = Raised | Rows(rows: seq<ShareRow>, db: Db)

  function IncrementDownloadRpc(db: Db, now: int): (r: RpcResult)
  {
    match IncrementDownload(db, now)
    case None => Raised
    case Some(db') => Rows([db'.share], db')
  }

  function AcknowledgeStep(db: Db, now: int, a: Acknowledge, o: Outcome): (r: (Db, Acknowledge))
  {
    match a.pc
    case ReadState =>
      (db, a.(pc :=
        if !o.Applied? then Answered(500, None)
        else if db.share.Terminal() then Answered(200, Some(db.share.state))
        else CallRpc))
    case CallRpc =>
      (match IncrementDownloadRpc(db, now)
       case Raised => (db, a.(pc := if o.Applied? then Answered(200, Some(Destroyed)) else Answered(500, None)))
       case Rows(rows, db') =>
         if !o.Applied? then (Effect(o, db, db'), a.(pc := Answered(500, None)))
         else if rows == [] then (db', a.(pc := Answered(404, None)))
         else (db', Acknowledge(RecordAudit(rows[0].state), rows[0].state == Destroyed)))
    case RecordAudit(state) =>
      var entry := if a.sawBurn then ShareDestroyed(GatewayDownloaded, Burn, None) else ShareDownloaded;
      (Effect(o, db, AppendAudit(db, entry)), a.(pc := Answered(200, Some(state))))
    case Answered(_, _) => (db, a)
  }

  /** The `/downloaded` handler run alone: its answer, and the rows it leaves. */
  method HandleDownloaded(store: Store, now: int, outcomes: seq<Outcome>)
    returns (status: int, reported: Option<ShareState>, becameDestroyed: bool)
    requires |outcomes| == 3
    modifies store
    ensures
      var (db1, a1) := AcknowledgeStep(old(store.Snapshot()), now, Acknowledge(ReadState, false), outcomes[0]);
      var (db2, a2) := AcknowledgeStep(db1, now, a1, outcomes[1]);
      var (db3, a3) := AcknowledgeStep(db2, now, a2, outcomes[2]);
      store.Snapshot() == db3 && a3 == Acknowledge(Answered(status, reported), becameDestroyed)
  {
    hide IncrementDownload;
    if !outcomes[0].Applied? {
      return 500, None, false;
    }
    var state := store.share.state;
    if state == Destroyed || state == Expired {
      return 200, Some(state), false;
    }
    var ok, row := store.IncrementDownloadRpc(outcomes[1], now);
    if !ok {
      return 500, None, false;
    }
    if row.None? {
      return 200, Some(Destroyed), false;
    }
    becameDestroyed := row.value.state == Destroyed;
    store.AppendAuditEntry(outcomes[2], if becameDestroyed then ShareDestroyed(GatewayDownloaded, Burn, None) else ShareDownloaded);
    return 200, Some(row.value.state), becameDestroyed;
  }

  // ---- POST /api/shares/:shortId/destroy ----

  datatype RevokePc = ReadRow | UpdateRow | RecordRevoke | Done(status: int)

  /** One handler, with the hash of the bearer token it was sent. */
  datatype Revoke = Revoke(tokenHash: Option<ByteString>, pc: RevokePc)

  function RevokeStep(db: Db, now: int, r: Revoke, o: Outcome): (res: (Db, Revoke))
  {
    match r.pc
    case ReadRow =>
      (db, r.(pc :=
        if r.tokenHash.None? then Done(401)
        else if !o.Applied? then Done(500)
        else if db.share.Terminal() then Done(200)
        else if db.share.revokeTokenHash.None? then Done(410)
        else if db.share.revokeTokenHash != r.tokenHash then Done(403)
        else UpdateRow))
    case UpdateRow =>
      (Effect(o, db, RevokeUpdate(db, now)), r.(pc := if o.Applied? then RecordRevoke else Done(500)))
    case RecordRevoke =>
      (Effect(o, db, AppendAudit(db, ShareDestroyed(SenderRevoke, Manual, None))), r.(pc := Done(200)))
    case Done(_) => (db, r)
  }

  /** The `/destroy` handler run alone. */
  method HandleDestroy(store: Store, now: int, tokenHash: Option<ByteString>, outcomes: seq<Outcome>) returns (status: int)
    requires |outcomes| == 3
    modifies store
    ensures
      var (db1, r1) := RevokeStep(old(store.Snapshot()), now, Revoke(tokenHash, ReadRow), outcomes[0]);
      var (db2, r2) := RevokeStep(db1, now, r1, outcomes[1]);
      var (db3, r3) := RevokeStep(db2, now, r2, outcomes[2]);
      store.Snapshot() == db3 && r3 == Revoke(tokenHash, Done(status))
  {
    if tokenHash.None? {
      return 401;
    }
    if !outcomes[0].Applied? {
      return 500;
    }
    var existing := store.share;
    if existing.state == Destroyed || existing.state == Expired {
      return 200;
    }
    if existing.revokeTokenHash.None? {
      return 410;
    }
    if existing.revokeTokenHash.value != tokenHash.value {
      return 403;
    }
    var updated := store.RevokeAsync(outcomes[1], now);
    if !updated {
      return 500;
    }
    store.AppendAuditEntry(outcomes[2], ShareDestroyed(SenderRevoke, Manual, None));
    return 200;
  }
}
