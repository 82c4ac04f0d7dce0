/**
 * Everybody who touches one share, at once: any number of PUT, GET, `/downloaded` and `/destroy` handlers,
 * each stopped between any two of its calls, one reaper, and a clock. A run is any sequence of steps.
 */
module ShareSystem {
  import opened Wrappers
  import opened Bytes
  import opened ShareModel
  import opened ShareStore
  import U = UploadEndpoint
  import D = DownloadEndpoint
  import G = GatewayShares

  /** Where the reaper is with this share (services/reaper/internal/reaper/reaper.go, `reapOne`). */
  datatype ReaperPc =
    | Idle
    | Candidate                                   // returned by fetchReapable
    | Removing(keys: seq<int>, chunkCount: int)   // inside removeBlobs, these keys still to go
    | Finalizing(chunkCount: int)                 // before the transaction

  datatype ReaperAction =
    | Select
    | FetchKeys(keys: seq<int>)                   // the rows in the order the query returned them
    | RemoveNext(o: Outcome)
    | Finalize(o: Outcome)
    | GiveUp                                      // a failed query, a skipped lock, a cancellation or a crash

  /** The database, the clock, every handler ever started, the reaper, and the chunks a byte of which has left. */
  datatype Sys = Sys(
    db: Db,
    now: int,
    puts: map<int, U.Put>,
    gets: map<int, D.Get>,
    acks: map<int, G.Acknowledge>,
    revokes: map<int, G.Revoke>,
    reaper: ReaperPc,
    left: set<int>)

  datatype Step =
    | NewPut(id: int, req: U.Request)
    | PutCall(id: int, o: Outcome)
    | NewGet(id: int, index: int, tokenHash: Option<ByteString>)
    | GetCall(id: int, o: Outcome)
    | NewAck(id: int)
    | AckCall(id: int, o: Outcome)
    | NewRevoke(id: int, tokenHash: Option<ByteString>)
    | RevokeCall(id: int, o: Outcome)
    | Reap(action: ReaperAction)
    | Tick(d: nat)

  function StepPut(s: Sys, id: int, o: Outcome): (r: Sys)
  {
    if id !in s.puts then s
    else
      var (db, p) := U.PutStep(s.db, s.now, s.puts[id], o);
      s.(db := db, puts := s.puts[id := p])
  }

  function StepGet(s: Sys, id: int, o: Outcome): (r: Sys)
  {
    if id !in s.gets then s
    else
      var (db, g) := D.GetStep(s.db, s.now, s.gets[id], o);
      s.(db := db, gets := s.gets[id := g], left := if g.sent then s.left + {g.index} else s.left)
  }

  function StepAck(s: Sys, id: int, o: Outcome): (r: Sys)
  {
    if id !in s.acks then s
    else
      var (db, a) := G.AcknowledgeStep(s.db, s.now, s.acks[id], o);
      s.(db := db, acks := s.acks[id := a])
  }

  function StepRevoke(s: Sys, id: int, o: Outcome): (r: Sys)
  {
    if id !in s.revokes then s
    else
      var (db, v) := G.RevokeStep(s.db, s.now, s.revokes[id], o);
      s.(db := db, revokes := s.revokes[id := v])
  }

  /** The keys are those of the chunk rows, each once. */
  predicate ListsRows(keys: seq<int>, db: Db)
  {
    |keys| == |db.chunks| && (set k | k in keys) == db.chunks.Keys
  }

  function StepReaper(s: Sys, a: ReaperAction): (r: Sys)
  {
    match (s.reaper, a)
    case (_, GiveUp) => s.(reaper := Idle)
    case (Idle, Select) => if Reapable(s.db, s.now) then s.(reaper := Candidate) else s
    case (Candidate, FetchKeys(keys)) =>
      if ListsRows(keys, s.db) then s.(reaper := Removing(keys, |keys|)) else s
    case (Removing(keys, n), RemoveNext(o)) =>
      if keys == [] then s.(reaper := Finalizing(n))
      else s.(db := Effect(o, s.db, RemoveBlob(s.db, keys[0])),
              reaper := if o.Applied? then Removing(keys[1..], n) else Idle)
    case (Finalizing(n), Finalize(o)) =>
      s.(db := Effect(o, s.db, FinalizeDestroy(s.db, s.now, n)), reaper := Idle)
    case _ => s
  }

  function Next(s: Sys, step: Step): (r: Sys)
  {
    match step
    case NewPut(id, req) => if id in s.puts then s else s.(puts := s.puts[id := U.Put(req, U.ReadShare, false)])
    case PutCall(id, o) => StepPut(s, id, o)
    case NewGet(id, index, hash) =>
      if id in s.gets then s else s.(gets := s.gets[id := D.Get(index, hash, D.ReadShare, false, false)])
    case GetCall(id, o) => StepGet(s, id, o)
    case NewAck(id) => if id in s.acks then s else s.(acks := s.acks[id := G.Acknowledge(G.ReadState, false)])
    case AckCall(id, o) => StepAck(s, id, o)
    case NewRevoke(id, hash) => if id in s.revokes then s else s.(revokes := s.revokes[id := G.Revoke(hash, G.ReadRow)])
    case RevokeCall(id, o) => StepRevoke(s, id, o)
    case Reap(action) => StepReaper(s, action)
    case Tick(d) => s.(now := s.now + d)
  }

  /** The state a run ends in. */
  function Exec(s: Sys, run: seq<Step>): (r: Sys)
    decreases |run|
  {
    if run == [] then s else Exec(Next(s, run[0]), run[1..])
  }

  lemma {:induction false} ExecAppend(s: Sys, a: seq<Step>, b: seq<Step>)
    ensures Exec(s, a + b) == Exec(Exec(s, a), b)
    decreases |a|
  {
    hide Next;
    if a == [] {
      assert a + b == b;
    } else {
      assert (a + b)[1..] == a[1..] + b;
      ExecAppend(Next(s, a[0]), a[1..], b);
    }
  }

  /** A share just created by `POST /api/shares`: pending, nothing stored, nobody at work. */
  ghost predicate Created(s: Sys)
  {
    && s.db.share.state == Pending && s.db.share.chunkCount > 0
    && s.db.share.destroyedAt.None? && s.db.share.destroyedReason.None? && s.db.share.downloadCount == 0
    && s.db.chunks == map[] && s.db.blobs == map[] && s.db.audit == []
    && s.puts == map[] && s.gets == map[] && s.acks == map[] && s.revokes == map[]
    && s.reaper == Idle && s.left == {}
  }
}
