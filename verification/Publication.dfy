/** The disk of a publication root and one `publish` call on it, atomic step by atomic step.

    A `Run` lists the disk before the call and after each atomic write, `mkdir` and `os.replace`
    of it: a crash leaves one of those disks. Hashes are functions of what they hash. */
module Publication {
  import opened Wrappers
  import opened Reals
  import opened Json
  import opened CaptureRows
  import opened CapturePayload

  datatype ShardState = Staging | Complete | Verified | Available | Quarantined

  datatype PayloadDigest = PayloadDigest(path: string, bytes: nat, sha: string, rows: nat, tokens: nat)

  datatype Manifest = Manifest(
    shardId: string,
    transactionId: string,
    state: ShardState,
    planSha: string,
    previous: Option<string>,
    rowCount: nat,
    tokenCount: nat,
    payloads: seq<PayloadDigest>)

  /** A manifest file: the canonical bytes of a valid manifest, or anything else. */
  datatype ManifestFile = Intact(manifest: Manifest) | Damaged

  datatype Dir = Dir(payload: Option<string>, manifests: map<ShardState, ManifestFile>)

  /** Everything below the publication root: `plan.json`, `.transactions/`, `shards/`, `quarantine/`. */
  datatype Root = Root(
    plan: Option<string>,
    transactions: map<string, Dir>,
    shards: map<string, Dir>,
    quarantine: map<string, Dir>)

  datatype Place = InTransaction(id: string) | InShard(id: string) | InQuarantine(id: string)

  /** What a call takes from elsewhere. A plan is known by its canonical JSON text. Given a plan,
      `payload` is `_capture_payload` and `semantics` is the check that reads a payload back;
      the rest are the SHA-256 digests. */
  datatype Env = Env(
    payload: (string, seq<StoredToken>) -> Result<string, ScanError>,
    semantics: (string, string, nat, nat) -> bool,
    planSha: string -> string,
    payloadSha: string -> string,
    manifestSha: Manifest -> string)

  /** The payloads of capture rows, for plans whose row limits are `limits`. */
  function CaptureEnv(fl: Floats, m: Math, limits: string -> Limits<string>, planSha: string -> string,
                      payloadSha: string -> string, manifestSha: Manifest -> string): Env
  {
    Env((plan: string, rows: seq<StoredToken>) => Payload(limits(plan), rows),
        (plan: string, payload: string, rows: nat, tokens: nat) =>
          Semantics(fl, m, limits(plan), payload, rows, tokens),
        planSha, payloadSha, manifestSha)
  }

  /** A payload built from storable rows passes the semantic check, and determines its rows. */
  ghost predicate Sound(env: Env, fl: Floats, m: Math) {
    && (forall plan, rows :: AllStorable(fl, m, rows) && env.payload(plan, rows).Ok? ==>
          env.semantics(plan, env.payload(plan, rows).value, |rows|, |rows|))
    && forall plan, rows, other ::
         && AllStorable(fl, m, rows) && AllStorable(fl, m, other)
         && env.payload(plan, rows).Ok? && env.payload(plan, other) == env.payload(plan, rows)
         ==> other == rows
  }

  lemma CaptureEnvIsSound(fl: Floats, m: Math, limits: string -> Limits<string>, planSha: string -> string,
                          payloadSha: string -> string, manifestSha: Manifest -> string)
    ensures Sound(CaptureEnv(fl, m, limits, planSha, payloadSha, manifestSha), fl, m)
  {
    forall plan, rows | AllStorable(fl, m, rows) && Payload(limits(plan), rows).Ok?
      ensures Semantics(fl, m, limits(plan), Payload(limits(plan), rows).value, |rows|, |rows|)
      ensures forall other :: AllStorable(fl, m, other) && Payload(limits(plan), other) == Payload(limits(plan), rows)
                ==> other == rows
    {
      WrittenPayloadVerifies(fl, m, limits(plan), rows);
    }
  }

  datatype Publisher = Publisher(plan: string, shardId: string, transactionId: string)

  datatype ResumeDecision = ResumeStaging | VerifyThenPublish | PublishIt | Reuse | QuarantineIt | RefuseIt

  datatype PublishError =
    | BadRows(scan: ScanError)
    | DuplicateDirectories
    | InvalidManifest
    | NoCommittedManifest
    | StatesNotContiguous
    | StateDisagrees
    | IdentityMismatch
    | ChainBroken
    | CommitmentsChanged
    | CorruptOrMismatched
    | QuarantineOccupied
    | DifferentPlan
    | TransactionAppeared
    | ShardExists
    | ManifestExists
    | SemanticsFailed
    | UnknownStop

  /** `disks[0]` is the disk a call finds, each later one the disk after one more atomic step. */
  datatype Run = Run(disks: seq<Root>, result: Result<Manifest, PublishError>)

  /** A manifest file that was read, with the state its name says. */
  datatype Entry = Entry(state: ShardState, manifest: Manifest)

  /** The directory a call resumes, with its last committed manifest. */
  datatype Found = Found(place: Place, manifest: Manifest)

  const PAYLOAD_NAME := "capture.jsonl"

  const STATES: seq<ShardState> := [Staging, Complete, Verified, Available]

  const EMPTY_DIR := Dir(None, map[])

  const EMPTY_ROOT := Root(None, map[], map[], map[])

  // ----- state machine tables -----

  function ShardTransitions(state: ShardState): set<ShardState> {
    match state
    case Staging => {Complete, Quarantined}
    case Complete => {Verified, Quarantined}
    case Verified => {Available, Quarantined}
    case Available => {Quarantined}
    case Quarantined => {}
  }

  function DecideResume(state: ShardState, payloadsValid: bool, fingerprintsMatch: bool): ResumeDecision {
    if state.Quarantined? then RefuseIt
    else if !payloadsValid || !fingerprintsMatch then QuarantineIt
    else
      match state
      case Staging => ResumeStaging
      case Complete => VerifyThenPublish
      case Verified => PublishIt
      case _ => Reuse
  }

  // ----- the disk -----

  function DirAt(root: Root, place: Place): Option<Dir> {
    match place
    case InTransaction(id) => if id in root.transactions then Some(root.transactions[id]) else None
    case InShard(id) => if id in root.shards then Some(root.shards[id]) else None
    case InQuarantine(id) => if id in root.quarantine then Some(root.quarantine[id]) else None
  }

  function Put(root: Root, place: Place, dir: Dir): Root {
    match place
    case InTransaction(id) => root.(transactions := root.transactions[id := dir])
    case InShard(id) => root.(shards := root.shards[id := dir])
    case InQuarantine(id) => root.(quarantine := root.quarantine[id := dir])
  }

  function Remove(root: Root, place: Place): Root {
    match place
    case InTransaction(id) => root.(transactions := root.transactions - {id})
    case InShard(id) => root.(shards := root.shards - {id})
    case InQuarantine(id) => root.(quarantine := root.quarantine - {id})
  }

  /** `os.replace` of a directory. */
  function Move(root: Root, from: Place, to: Place): Root
    requires DirAt(root, from).Some?
  {
    Put(Remove(root, from), to, DirAt(root, from).value)
  }

  function WithManifest(dir: Dir, manifest: Manifest): Dir {
    dir.(manifests := dir.manifests[manifest.state := Intact(manifest)])
  }

  function TransactionPlace(pub: Publisher): Place { InTransaction(pub.transactionId) }

  function ShardPlace(pub: Publisher): Place { InShard(pub.shardId) }

  function QuarantinePlace(pub: Publisher): Place { InQuarantine(pub.shardId + "." + pub.transactionId) }

  // ----- runs -----

  function Done(root: Root, manifest: Manifest): Run { Run([root], Ok(manifest)) }

  function Refused(root: Root, error: PublishError): Run { Run([root], Err(error)) }

  /** One atomic step away from `root`, then `rest`. */
  function After(root: Root, rest: Run): Run { Run([root] + rest.disks, rest.result) }

  function Last(run: Run): Root
    requires run.disks != []
  {
    run.disks[|run.disks| - 1]
  }

  /** `second` goes on where `first` ended. */
  function Then(first: Run, second: Run): Run
    requires first.disks != []
  {
    Run(first.disks[..|first.disks| - 1] + second.disks, second.result)
  }

  // ----- manifests -----

  /** `model_copy` with the next state and the digest of the manifest before. */
  function Next(env: Env, previous: Manifest, state: ShardState): Manifest {
    previous.(state := state, previous := Some(env.manifestSha(previous)))
  }

  function StagingManifest(env: Env, pub: Publisher, payload: string, rows: nat): Manifest {
    Manifest(pub.shardId, pub.transactionId, Staging, env.planSha(pub.plan), None, rows, rows,
             [PayloadDigest(PAYLOAD_NAME, |payload|, env.payloadSha(payload), rows, rows)])
  }

  /** `verify_payload_bytes` for the one payload a capture shard has; payload paths are unique. */
  predicate PayloadMatches(env: Env, manifest: Manifest, payload: string) {
    && |manifest.payloads| == 1
    && var entry := manifest.payloads[0];
       entry.path == PAYLOAD_NAME && entry.bytes == |payload| && entry.sha == env.payloadSha(payload)
  }

  /** The first `n` manifest files that exist, in state order, each read and validated. */
  function ReadManifests(dir: Dir, n: nat): Result<seq<Entry>, PublishError>
    requires n <= |STATES|
  {
    if n == 0 then Ok([])
    else
      var found :- ReadManifests(dir, n - 1);
      var state := STATES[n - 1];
      if state !in dir.manifests then Ok(found)
      else if dir.manifests[state].Damaged? then Err(InvalidManifest)
      else Ok(found + [Entry(state, dir.manifests[state].manifest)])
  }

  function EntryError(env: Env, pub: Publisher, entries: seq<Entry>, i: nat): Option<PublishError>
    requires i < |entries|
  {
    var Entry(state, manifest) := entries[i];
    var expected := if i == 0 then None else Some(env.manifestSha(entries[i - 1].manifest));
    if manifest.state != state then Some(StateDisagrees)
    else if manifest.shardId != pub.shardId || manifest.transactionId != pub.transactionId then Some(IdentityMismatch)
    else if manifest.previous != expected then Some(ChainBroken)
    else if i > 0 && manifest.payloads != entries[i - 1].manifest.payloads then Some(CommitmentsChanged)
    else None
  }

  /** The first error among the first `n` entries. */
  function ChainError(env: Env, pub: Publisher, entries: seq<Entry>, n: nat): Option<PublishError>
    requires n <= |entries|
  {
    if n == 0 then None
    else
      var earlier := ChainError(env, pub, entries, n - 1);
      if earlier.Some? then earlier else EntryError(env, pub, entries, n - 1)
  }

  predicate Contiguous(entries: seq<Entry>) {
    && |entries| <= |STATES|
    && forall i :: 0 <= i < |entries| ==> entries[i].state == STATES[i]
  }

  /** `_verify_manifest_chain`. */
  function VerifyChain(env: Env, pub: Publisher, entries: seq<Entry>): Option<PublishError> {
    if !Contiguous(entries) then Some(StatesNotContiguous) else ChainError(env, pub, entries, |entries|)
  }

  /** The last committed manifest of a directory, after its whole chain is verified. */
  function LastManifest(env: Env, pub: Publisher, dir: Dir): Result<Manifest, PublishError> {
    var entries :- ReadManifests(dir, |STATES|);
    if entries == [] then Err(NoCommittedManifest)
    else
      match VerifyChain(env, pub, entries)
      case Some(error) => Err(error)
      case None => Ok(entries[|entries| - 1].manifest)
  }

  /** `_inspect_existing`. */
  function Inspect(env: Env, pub: Publisher, root: Root): (r: Result<Option<Found>, PublishError>)
    ensures r.Ok? && r.value.Some? ==> DirAt(root, r.value.value.place).Some?
  {
    var shard, transaction := DirAt(root, ShardPlace(pub)), DirAt(root, TransactionPlace(pub));
    if shard.Some? && transaction.Some? then Err(DuplicateDirectories)
    else if shard.None? && transaction.None? then Ok(None)
    else
      var place := if shard.Some? then ShardPlace(pub) else TransactionPlace(pub);
      var manifest :- LastManifest(env, pub, if shard.Some? then shard.value else transaction.value);
      Ok(Some(Found(place, manifest)))
  }

  // ----- the checks on a payload -----

  /** `_verify_semantics`. */
  predicate SemanticsHold(env: Env, plan: string, dir: Dir, manifest: Manifest) {
    && dir.payload.Some?
    && env.semantics(plan, dir.payload.value, manifest.rowCount, manifest.tokenCount)
    && PayloadMatches(env, manifest, dir.payload.value)
  }

  /** `_integrity_matches`. */
  predicate IntegrityMatches(env: Env, pub: Publisher, root: Root, dir: Dir, manifest: Manifest, expected: string) {
    && manifest.planSha == env.planSha(pub.plan)
    && root.plan == Some(pub.plan)
    && dir.payload.Some?
    && PayloadMatches(env, manifest, dir.payload.value)
    && dir.payload.value == expected
    && SemanticsHold(env, pub.plan, dir, manifest)
  }

  // ----- the steps of a call -----

  /** `_write_manifest`: never over a different committed manifest. */
  function WriteManifest(root: Root, place: Place, manifest: Manifest): (r: Run)
    requires DirAt(root, place).Some?
    ensures r.disks != [] && r.disks[0] == root && DirAt(Last(r), place).Some?
  {
    var dir := DirAt(root, place).value;
    if manifest.state in dir.manifests then
      if dir.manifests[manifest.state] == Intact(manifest) then Done(root, manifest)
      else Refused(root, ManifestExists)
    else After(root, Done(Put(root, place, WithManifest(dir, manifest)), manifest))
  }

  /** `_make_available`. */
  function MakeAvailable(env: Env, pub: Publisher, root: Root, place: Place, previous: Manifest): (r: Run)
    requires DirAt(root, place).Some?
    ensures r.disks != [] && r.disks[0] == root
  {
    var manifest := Next(env, previous, Available);
    if !place.InTransaction? then WriteManifest(root, place, manifest)
    else if DirAt(root, ShardPlace(pub)).Some? then Refused(root, ShardExists)
    else After(root, WriteManifest(Move(root, place, ShardPlace(pub)), ShardPlace(pub), manifest))
  }

  function FromVerified(env: Env, pub: Publisher, root: Root, place: Place, manifest: Manifest): (r: Run)
    requires DirAt(root, place).Some?
    ensures r.disks != [] && r.disks[0] == root
  {
    if manifest.state.Verified? then MakeAvailable(env, pub, root, place, manifest) else Done(root, manifest)
  }

  function FromComplete(env: Env, pub: Publisher, root: Root, place: Place, manifest: Manifest,
                        stop: Option<ShardState>): (r: Run)
    requires DirAt(root, place).Some?
    ensures r.disks != [] && r.disks[0] == root
  {
    if !manifest.state.Complete? then FromVerified(env, pub, root, place, manifest)
    else if !SemanticsHold(env, pub.plan, DirAt(root, place).value, manifest) then Refused(root, SemanticsFailed)
    else
      var written := WriteManifest(root, place, Next(env, manifest, Verified));
      if written.result.Err? || stop == Some(Verified) then written
      else Then(written, FromVerified(env, pub, Last(written), place, written.result.value))
  }

  /** `publish` once it has a directory and its last committed manifest. */
  function Resume(env: Env, pub: Publisher, root: Root, place: Place, manifest: Manifest,
                  stop: Option<ShardState>): (r: Run)
    requires DirAt(root, place).Some?
    ensures r.disks != [] && r.disks[0] == root
  {
    if stop == Some(manifest.state) then Done(root, manifest)
    else if !manifest.state.Staging? then FromComplete(env, pub, root, place, manifest, stop)
    else
      var written := WriteManifest(root, place, Next(env, manifest, Complete));
      if written.result.Err? || stop == Some(Complete) then written
      else Then(written, FromComplete(env, pub, Last(written), place, written.result.value, stop))
  }

  /** `_stage` once the plan is on disk. */
  function Fill(env: Env, pub: Publisher, root: Root, payload: string, rows: nat): (r: Run)
    ensures r.disks != [] && r.disks[0] == root && DirAt(Last(r), TransactionPlace(pub)).Some?
  {
    var place := TransactionPlace(pub);
    var made := Put(root, place, EMPTY_DIR);
    var filled := Put(made, place, Dir(Some(payload), map[]));
    After(root, After(made, WriteManifest(filled, place, StagingManifest(env, pub, payload, rows))))
  }

  /** `_stage`. */
  function Stage(env: Env, pub: Publisher, root: Root, payload: string, rows: nat): (r: Run)
    ensures r.disks != [] && r.disks[0] == root
    ensures r.result.Ok? ==> DirAt(Last(r), TransactionPlace(pub)).Some?
  {
    if DirAt(root, TransactionPlace(pub)).Some? || DirAt(root, ShardPlace(pub)).Some? then
      Refused(root, TransactionAppeared)
    else if root.plan.None? then
      After(root, Fill(env, pub, root.(plan := Some(pub.plan)), payload, rows))
    else if root.plan != Some(pub.plan) then Refused(root, DifferentPlan)
    else Fill(env, pub, root, payload, rows)
  }

  /** `_quarantine`, and the error `publish` raises after it. */
  function SetAside(env: Env, pub: Publisher, root: Root, place: Place, previous: Manifest): (r: Run)
    requires DirAt(root, place).Some?
    ensures r.disks != [] && r.disks[0] == root
  {
    var target := QuarantinePlace(pub);
    if DirAt(root, target).Some? then Refused(root, QuarantineOccupied)
    else
      var written := WriteManifest(Move(root, place, target), target, Next(env, previous, Quarantined));
      var error := if written.result.Err? then written.result.error else CorruptOrMismatched;
      After(root, Run(written.disks, Err(error)))
  }

  /** `publish` where neither directory exists. */
  function StartNew(env: Env, pub: Publisher, root: Root, payload: string, rows: nat,
                    stop: Option<ShardState>): (r: Run)
    ensures r.disks != [] && r.disks[0] == root
  {
    var staged := Stage(env, pub, root, payload, rows);
    if staged.result.Err? then staged
    else Then(staged, Resume(env, pub, Last(staged), TransactionPlace(pub), staged.result.value, stop))
  }

  /** `publish` where a directory with a verified manifest chain exists. */
  function GoOn(env: Env, pub: Publisher, root: Root, found: Found, payload: string, stop: Option<ShardState>): (r: Run)
    requires DirAt(root, found.place).Some?
    ensures r.disks != [] && r.disks[0] == root
  {
    if !IntegrityMatches(env, pub, root, DirAt(root, found.place).value, found.manifest, payload) then
      SetAside(env, pub, root, found.place, found.manifest)
    else if DecideResume(found.manifest.state, true, true).Reuse? then Done(root, found.manifest)
    else Resume(env, pub, root, found.place, found.manifest, stop)
  }

  /** `publish` once the payload is built. */
  function PublishPayload(env: Env, pub: Publisher, root: Root, payload: string, rows: nat,
                          stop: Option<ShardState>): (r: Run)
    ensures r.disks != [] && r.disks[0] == root
  {
    match Inspect(env, pub, root)
    case Err(error) => Refused(root, error)
    case Ok(None) => StartNew(env, pub, root, payload, rows, stop)
    case Ok(Some(found)) => GoOn(env, pub, root, found, payload, stop)
  }

  /** `publish`. */
  function Publish(env: Env, pub: Publisher, root: Root, captures: seq<StoredToken>,
                   stop: Option<ShardState>): (r: Run)
    ensures r.disks != [] && r.disks[0] == root
  {
    if stop == Some(Quarantined) then Refused(root, UnknownStop)
    else
      match env.payload(pub.plan, captures)
      case Err(error) => Refused(root, BadRows(error))
      case Ok(payload) => PublishPayload(env, pub, root, payload, |captures|, stop)
  }

  /** The disk after `publish`, or after a crash once `fuse` atomic steps are done. */
  function DiskAfter(run: Run, fuse: nat): Root
    requires run.disks != []
  {
    if fuse < |run.disks| then run.disks[fuse] else Last(run)
  }
}
