/** Crash recovery: every disk a call can leave behind is a rung of one ladder, and a re-run
    climbs on from where the crash stopped. */
module PublicationLadder {
  import opened Wrappers
  import opened Publication
  import opened PublicationChain

  /** A payload to publish, as the capture rows determine it. */
  datatype Job = Job(pub: Publisher, payload: string, rows: nat)

  /** The payload passes semantic verification, as every payload built from capture rows does. */
  predicate Genuine(env: Env, job: Job) {
    env.semantics(job.pub.plan, job.payload, job.rows, job.rows)
  }

  /** No directory of the job's shard or transaction, and no other plan. */
  predicate Fresh(job: Job, root: Root) {
    && DirAt(root, TransactionPlace(job.pub)).None?
    && DirAt(root, ShardPlace(job.pub)).None?
    && (root.plan.None? || root.plan == Some(job.pub.plan))
  }

  // ----- the manifests and directories of a job -----

  /** The committed manifests of a job: staging, complete, verified, available. */
  function ManifestOf(env: Env, job: Job, k: nat): (r: Manifest)
    requires k < |STATES|
    ensures r.state == STATES[k]
    ensures r.shardId == job.pub.shardId && r.transactionId == job.pub.transactionId
    ensures r.payloads == StagingManifest(env, job.pub, job.payload, job.rows).payloads
    ensures r.planSha == env.planSha(job.pub.plan) && r.rowCount == r.tokenCount == job.rows
    ensures r.previous == if k == 0 then None else Some(env.manifestSha(ManifestOf(env, job, k - 1)))
  {
    if k == 0 then StagingManifest(env, job.pub, job.payload, job.rows)
    else Next(env, ManifestOf(env, job, k - 1), STATES[k])
  }

  /** The payload with the first `n` manifests. */
  function CommittedDir(env: Env, job: Job, n: nat): Dir
    requires n <= |STATES|
  {
    if n == 0 then Dir(Some(job.payload), map[])
    else WithManifest(CommittedDir(env, job, n - 1), ManifestOf(env, job, n - 1))
  }

  lemma {:induction false} CommittedManifests(env: Env, job: Job, n: nat)
    requires n <= |STATES|
    ensures CommittedDir(env, job, n).payload == Some(job.payload)
    ensures forall i :: 0 <= i < n ==>
              && STATES[i] in CommittedDir(env, job, n).manifests
              && CommittedDir(env, job, n).manifests[STATES[i]] == Intact(ManifestOf(env, job, i))
    ensures forall i :: n <= i < |STATES| ==> STATES[i] !in CommittedDir(env, job, n).manifests
    ensures Quarantined !in CommittedDir(env, job, n).manifests
  {
    if n > 0 {
      CommittedManifests(env, job, n - 1);
    }
  }

  /** A job's manifests are a contiguous, hash-chained prefix, and the last one is current. */
  lemma CommittedIsAccepted(env: Env, job: Job, n: nat)
    requires 0 < n <= |STATES|
    ensures ChainOf(env, job.pub, CommittedDir(env, job, n), n)
    ensures LastManifest(env, job.pub, CommittedDir(env, job, n)) == Ok(ManifestOf(env, job, n - 1))
  {
    hide LastManifest;
    var dir := CommittedDir(env, job, n);
    CommittedManifests(env, job, n);
    forall i | 0 <= i < n ensures ManifestIn(dir, i).Some? && Linked(env, job.pub, dir, i) {
      assert ManifestIn(dir, i) == Some(ManifestOf(env, job, i));
      assert i > 0 ==> ManifestIn(dir, i - 1) == Some(ManifestOf(env, job, i - 1));
    }
    ChainAccepted(env, job.pub, dir, n);
  }

  lemma CommittedIsGenuine(env: Env, job: Job, n: nat, i: nat)
    requires n <= |STATES| && i < |STATES| && Genuine(env, job)
    ensures SemanticsHold(env, job.pub.plan, CommittedDir(env, job, n), ManifestOf(env, job, i))
  {}

  // ----- the rungs -----

  const TOP := 8

  /** 0 nothing of the job, 1 the plan, 2 the transaction directory, 3 its payload,
      4 staging, 5 complete, 6 verified, 7 renamed into place, 8 available. */
  function Rung(env: Env, job: Job, root: Root, k: nat): Root
    requires k <= TOP
  {
    var bound := root.(plan := Some(job.pub.plan));
    if k == 0 then root
    else if k == 1 then bound
    else if k == 2 then Put(bound, TransactionPlace(job.pub), EMPTY_DIR)
    else if k <= 6 then Put(bound, TransactionPlace(job.pub), CommittedDir(env, job, k - 3))
    else Put(bound, ShardPlace(job.pub), CommittedDir(env, job, k - 4))
  }

  function PlaceOf(job: Job, k: nat): Place {
    if k <= 6 then TransactionPlace(job.pub) else ShardPlace(job.pub)
  }

  /** The number of manifests on rung `k`. */
  function ManifestsOn(k: nat): (n: nat)
    ensures n <= |STATES|
  {
    if k <= 3 then 0 else if k <= 6 then k - 3 else if k == 7 then 3 else 4
  }

  function Current(env: Env, job: Job, k: nat): Manifest
    requires 4 <= k
  {
    ManifestOf(env, job, ManifestsOn(k) - 1)
  }

  function Disks(env: Env, job: Job, root: Root): (r: seq<Root>)
    ensures |r| == TOP + 1 && forall k :: 0 <= k <= TOP ==> r[k] == Rung(env, job, root, k)
  {
    seq(TOP + 1, k requires 0 <= k <= TOP => Rung(env, job, root, k))
  }

  function StopRung(stop: Option<ShardState>): (r: nat)
    ensures 4 <= r <= TOP
  {
    match stop
    case Some(Staging) => 4
    case Some(Complete) => 5
    case Some(Verified) => 6
    case _ => TOP
  }

  /** Where a call that finds rung `k` ends. A stop before the current state is passed over. */
  function Target(k: nat, stop: Option<ShardState>): (r: nat)
    requires k <= TOP
    ensures 4 <= r <= TOP && k <= r
  {
    if k == 7 && stop == Some(Verified) then 7
    else if k <= StopRung(stop) then StopRung(stop)
    else TOP
  }

  /** Committed after `b` on the way to `available`. */
  predicate Later(a: ShardState, b: ShardState) {
    match b
    case Staging => a in {Complete, Verified, Available}
    case Complete => a in {Verified, Available}
    case Verified => a == Available
    case _ => false
  }

  // ----- climbing any ladder -----

  /** One manifest commit leads from `a` to `b`. */
  ghost predicate Rises(env: Env, a: Root, place: Place, manifest: Manifest, state: ShardState, b: Root) {
    && DirAt(a, place).Some?
    && var next := Next(env, manifest, state);
       WriteManifest(a, place, next) == Run([a, b], Ok(next))
  }

  /** Each disk is one atomic step above the one before; `ms[k]` is the current manifest on disk `k`. */
  ghost predicate Ladder(env: Env, pub: Publisher, disks: seq<Root>, ms: seq<Manifest>) {
    && |disks| == |ms| == TOP + 1
    && ms[4].state == Staging
    && ms[5] == Next(env, ms[4], Complete) && ms[6] == Next(env, ms[5], Verified)
    && ms[7] == ms[6] && ms[8] == Next(env, ms[7], Available)
    && Rises(env, disks[4], TransactionPlace(pub), ms[4], Complete, disks[5])
    && Rises(env, disks[5], TransactionPlace(pub), ms[5], Verified, disks[6])
    && SemanticsHold(env, pub.plan, DirAt(disks[5], TransactionPlace(pub)).value, ms[5])
    && DirAt(disks[6], TransactionPlace(pub)).Some? && DirAt(disks[6], ShardPlace(pub)).None?
    && Move(disks[6], TransactionPlace(pub), ShardPlace(pub)) == disks[7]
    && Rises(env, disks[7], ShardPlace(pub), ms[7], Available, disks[8])
  }

  function PlaceOn(pub: Publisher, k: nat): Place {
    if k <= 6 then TransactionPlace(pub) else ShardPlace(pub)
  }

  /** A run up the disks `low` to `high`. */
  function Up(disks: seq<Root>, ms: seq<Manifest>, low: nat, high: nat): Run
    requires low <= high < |disks| == |ms|
  {
    Run(disks[low..high + 1], Ok(ms[high]))
  }

  lemma UpOne(disks: seq<Root>, ms: seq<Manifest>, low: nat, high: nat)
    requires low < high < |disks| == |ms|
    ensures After(disks[low], Up(disks, ms, low + 1, high)) == Up(disks, ms, low, high)
    ensures Up(disks, ms, low, low + 1) == Run([disks[low], disks[low + 1]], Ok(ms[low + 1]))
    ensures Then(Up(disks, ms, low, low + 1), Up(disks, ms, low + 1, high)) == Up(disks, ms, low, high)
  {}

  lemma UpJoin(disks: seq<Root>, ms: seq<Manifest>, low: nat, mid: nat, high: nat)
    requires low <= mid <= high < |disks| == |ms|
    ensures Then(Up(disks, ms, low, mid), Up(disks, ms, mid, high)) == Up(disks, ms, low, high)
  {}

  lemma FromSix(env: Env, pub: Publisher, disks: seq<Root>, ms: seq<Manifest>, k: nat)
    requires Ladder(env, pub, disks, ms) && k in {6, 7}
    ensures FromVerified(env, pub, disks[k], PlaceOn(pub, k), ms[k]) == Up(disks, ms, k, TOP)
  {
    UpOne(disks, ms, 7, TOP);
    UpOne(disks, ms, 6, TOP);
  }

  lemma CompleteRises(env: Env, pub: Publisher, a: Root, place: Place, m: Manifest, b: Root, stop: Option<ShardState>)
    requires m.state.Complete? && Rises(env, a, place, m, Verified, b)
    requires SemanticsHold(env, pub.plan, DirAt(a, place).value, m)
    ensures DirAt(b, place).Some?
    ensures FromComplete(env, pub, a, place, m, stop)
         == if stop == Some(Verified) then Run([a, b], Ok(Next(env, m, Verified)))
            else After(a, FromVerified(env, pub, b, place, Next(env, m, Verified)))
  {}

  lemma StagingRises(env: Env, pub: Publisher, a: Root, place: Place, m: Manifest, b: Root, stop: Option<ShardState>)
    requires m.state.Staging? && Rises(env, a, place, m, Complete, b) && stop != Some(Staging)
    ensures DirAt(b, place).Some?
    ensures Resume(env, pub, a, place, m, stop)
         == if stop == Some(Complete) then Run([a, b], Ok(Next(env, m, Complete)))
            else After(a, FromComplete(env, pub, b, place, Next(env, m, Complete), stop))
  {}

  lemma FromFive(env: Env, pub: Publisher, disks: seq<Root>, ms: seq<Manifest>, stop: Option<ShardState>)
    requires Ladder(env, pub, disks, ms)
    ensures DirAt(disks[5], TransactionPlace(pub)).Some?
    ensures FromComplete(env, pub, disks[5], TransactionPlace(pub), ms[5], stop)
         == Up(disks, ms, 5, if stop == Some(Verified) then 6 else TOP)
  {
    CompleteRises(env, pub, disks[5], TransactionPlace(pub), ms[5], disks[6], stop);
    if stop != Some(Verified) {
      FromSix(env, pub, disks, ms, 6);
    }
    UpOne(disks, ms, 5, TOP);
  }

  lemma FromFour(env: Env, pub: Publisher, disks: seq<Root>, ms: seq<Manifest>, stop: Option<ShardState>)
    requires Ladder(env, pub, disks, ms) && stop != Some(Staging)
    ensures DirAt(disks[4], TransactionPlace(pub)).Some?
    ensures Resume(env, pub, disks[4], TransactionPlace(pub), ms[4], stop)
         == Up(disks, ms, 4, if stop == Some(Complete) then 5 else if stop == Some(Verified) then 6 else TOP)
  {
    StagingRises(env, pub, disks[4], TransactionPlace(pub), ms[4], disks[5], stop);
    if stop != Some(Complete) {
      FromFive(env, pub, disks, ms, stop);
    }
    UpOne(disks, ms, 4, if stop == Some(Verified) then 6 else TOP);
  }

  lemma ResumeCases(env: Env, pub: Publisher, root: Root, place: Place, m: Manifest, stop: Option<ShardState>)
    requires DirAt(root, place).Some?
    ensures stop == Some(m.state) ==> Resume(env, pub, root, place, m, stop) == Done(root, m)
    ensures stop != Some(m.state) && m.state.Complete? ==>
              Resume(env, pub, root, place, m, stop) == FromComplete(env, pub, root, place, m, stop)
    ensures stop != Some(m.state) && m.state.Verified? ==>
              Resume(env, pub, root, place, m, stop) == FromVerified(env, pub, root, place, m)
  {}

  lemma ResumeAbove(env: Env, pub: Publisher, disks: seq<Root>, ms: seq<Manifest>, k: nat, stop: Option<ShardState>)
    requires Ladder(env, pub, disks, ms) && 5 <= k <= 7 && stop != Some(ms[k].state)
    ensures DirAt(disks[k], PlaceOn(pub, k)).Some?
    ensures Resume(env, pub, disks[k], PlaceOn(pub, k), ms[k], stop)
         == Up(disks, ms, k, if k == 5 && stop == Some(Verified) then 6 else TOP)
  {
    ResumeCases(env, pub, disks[k], PlaceOn(pub, k), ms[k], stop);
    if k == 5 {
      FromFive(env, pub, disks, ms, stop);
    } else {
      FromSix(env, pub, disks, ms, k);
    }
  }

  lemma ResumeClimbs(env: Env, pub: Publisher, disks: seq<Root>, ms: seq<Manifest>, k: nat, stop: Option<ShardState>)
    requires Ladder(env, pub, disks, ms) && 4 <= k <= 7 && stop != Some(Quarantined)
    ensures DirAt(disks[k], PlaceOn(pub, k)).Some?
    ensures Resume(env, pub, disks[k], PlaceOn(pub, k), ms[k], stop) == Up(disks, ms, k, Target(k, stop))
  {
    hide Resume, WriteManifest, SemanticsHold, Move;
    if stop == Some(ms[k].state) {
      ResumeCases(env, pub, disks[k], PlaceOn(pub, k), ms[k], stop);
      assert Up(disks, ms, k, k) == Done(disks[k], ms[k]);
    } else if k == 4 {
      FromFour(env, pub, disks, ms, stop);
    } else {
      ResumeAbove(env, pub, disks, ms, k, stop);
    }
  }

  // ----- the disks of a job are a ladder -----

  lemma DirOnRung(env: Env, job: Job, root: Root, k: nat)
    requires 3 <= k <= TOP && Fresh(job, root)
    ensures DirAt(Rung(env, job, root, k), PlaceOf(job, k)) == Some(CommittedDir(env, job, ManifestsOn(k)))
    ensures DirAt(Rung(env, job, root, k), if k <= 6 then ShardPlace(job.pub) else TransactionPlace(job.pub)).None?
    ensures Rung(env, job, root, k).plan == Some(job.pub.plan)
  {}

  lemma PutAgain(root: Root, place: Place, first: Dir, second: Dir)
    ensures Put(Put(root, place, first), place, second) == Put(root, place, second)
  {}

  lemma MoveOut(root: Root, from: Place, to: Place, dir: Dir)
    requires DirAt(root, from).None? && from != to
    ensures DirAt(Put(root, from, dir), from) == Some(dir)
    ensures Move(Put(root, from, dir), from, to) == Put(root, to, dir)
  {
    assert Remove(Put(root, from, dir), from) == root;
  }

  lemma CommitNext(env: Env, job: Job, root: Root, k: nat)
    requires Fresh(job, root) && k in {4, 5, 7}
    ensures Rises(env, Rung(env, job, root, k), PlaceOf(job, k), Current(env, job, k), STATES[ManifestsOn(k)],
                  Rung(env, job, root, k + 1))
    ensures Current(env, job, k + 1) == Next(env, Current(env, job, k), STATES[ManifestsOn(k)])
  {
    var n := ManifestsOn(k);
    DirOnRung(env, job, root, k);
    CommittedManifests(env, job, n);
    var bound := root.(plan := Some(job.pub.plan));
    PutAgain(bound, PlaceOf(job, k), CommittedDir(env, job, n), CommittedDir(env, job, n + 1));
    assert STATES[n] !in CommittedDir(env, job, n).manifests;
  }

  lemma Promote(env: Env, job: Job, root: Root)
    requires Fresh(job, root)
    ensures var below := Rung(env, job, root, 6);
            && DirAt(below, TransactionPlace(job.pub)).Some?
            && DirAt(below, ShardPlace(job.pub)).None?
            && Move(below, TransactionPlace(job.pub), ShardPlace(job.pub)) == Rung(env, job, root, 7)
  {
    DirOnRung(env, job, root, 6);
    MoveOut(root.(plan := Some(job.pub.plan)), TransactionPlace(job.pub), ShardPlace(job.pub),
            CommittedDir(env, job, 3));
  }

  function Currents(env: Env, job: Job): (r: seq<Manifest>)
    ensures |r| == TOP + 1 && forall k :: 4 <= k <= TOP ==> r[k] == Current(env, job, k)
  {
    seq(TOP + 1, k requires 0 <= k <= TOP => if k < 4 then ManifestOf(env, job, 0) else Current(env, job, k))
  }

  lemma RungsAreALadder(env: Env, job: Job, root: Root)
    requires Fresh(job, root) && Genuine(env, job)
    ensures Ladder(env, job.pub, Disks(env, job, root), Currents(env, job))
  {
    hide Rises, CommittedDir, Rung, Move, SemanticsHold;
    CommitNext(env, job, root, 4);
    CommitNext(env, job, root, 5);
    CommitNext(env, job, root, 7);
    Promote(env, job, root);
    DirOnRung(env, job, root, 5);
    CommittedIsGenuine(env, job, 2, 1);
  }

  // ----- below the first manifest -----

  lemma FillClimbs(env: Env, job: Job, root: Root)
    requires Fresh(job, root)
    ensures Fill(env, job.pub, Rung(env, job, root, 1), job.payload, job.rows)
         == Up(Disks(env, job, root), Currents(env, job), 1, 4)
  {
    var bound, place := Rung(env, job, root, 1), TransactionPlace(job.pub);
    var bare := Dir(Some(job.payload), map[]);
    PutAgain(bound, place, EMPTY_DIR, bare);
    PutAgain(bound, place, bare, WithManifest(bare, ManifestOf(env, job, 0)));
    var disks, ms := Disks(env, job, root), Currents(env, job);
    assert CommittedDir(env, job, 0) == bare;
    assert CommittedDir(env, job, 1) == WithManifest(bare, ManifestOf(env, job, 0));
    assert WriteManifest(disks[3], place, ManifestOf(env, job, 0)) == After(disks[3], Done(disks[4], ms[4]));
    FillSlices(disks, ms);
  }

  lemma FillSlices(disks: seq<Root>, ms: seq<Manifest>)
    requires |disks| == |ms| == TOP + 1
    ensures After(disks[1], After(disks[2], After(disks[3], Done(disks[4], ms[4])))) == Up(disks, ms, 1, 4)
  {}

  /** The rung a call on a fresh disk starts from. */
  function Start(root: Root): nat { if root.plan.None? then 0 else 1 }

  lemma StageClimbs(env: Env, job: Job, root: Root, k: nat)
    requires Fresh(job, root) && Start(root) <= k <= 1
    ensures Stage(env, job.pub, Rung(env, job, root, k), job.payload, job.rows)
         == Up(Disks(env, job, root), Currents(env, job), k, 4)
  {
    FillClimbs(env, job, root);
    UpOne(Disks(env, job, root), Currents(env, job), 0, 4);
  }

  lemma {:induction false} NoManifests(env: Env, pub: Publisher, dir: Dir, n: nat)
    requires dir.manifests == map[] && n <= |STATES|
    ensures ReadManifests(dir, n) == Ok([])
  {
    if n > 0 {
      NoManifests(env, pub, dir, n - 1);
    }
  }

  lemma InspectRung(env: Env, job: Job, root: Root, k: nat)
    requires Fresh(job, root) && k <= TOP
    ensures k <= 1 ==> Inspect(env, job.pub, Rung(env, job, root, k)) == Ok(None)
    ensures k in {2, 3} ==> Inspect(env, job.pub, Rung(env, job, root, k)) == Err(NoCommittedManifest)
    ensures 4 <= k ==>
              Inspect(env, job.pub, Rung(env, job, root, k)) == Ok(Some(Found(PlaceOf(job, k), Current(env, job, k))))
  {
    if k >= 4 {
      DirOnRung(env, job, root, k);
      CommittedIsAccepted(env, job, ManifestsOn(k));
    } else if k >= 2 {
      NoManifests(env, job.pub, if k == 2 then EMPTY_DIR else CommittedDir(env, job, 0), |STATES|);
    }
  }

  lemma IntegrityOnRung(env: Env, job: Job, root: Root, k: nat)
    requires Fresh(job, root) && Genuine(env, job) && 4 <= k <= TOP
    ensures var here := Rung(env, job, root, k);
            && DirAt(here, PlaceOf(job, k)).Some?
            && IntegrityMatches(env, job.pub, here, DirAt(here, PlaceOf(job, k)).value, Current(env, job, k),
                job.payload)
  {
    DirOnRung(env, job, root, k);
    CommittedManifests(env, job, ManifestsOn(k));
    CommittedIsGenuine(env, job, ManifestsOn(k), ManifestsOn(k) - 1);
  }

  // ----- every call climbs -----

  function Outcome(env: Env, job: Job, root: Root, k: nat, stop: Option<ShardState>): Run
    requires k <= TOP
  {
    if k in {2, 3} then Refused(Rung(env, job, root, k), NoCommittedManifest)
    else Up(Disks(env, job, root), Currents(env, job), k, Target(k, stop))
  }

  lemma GoOnCases(env: Env, pub: Publisher, root: Root, found: Found, payload: string, stop: Option<ShardState>)
    requires DirAt(root, found.place).Some?
    requires IntegrityMatches(env, pub, root, DirAt(root, found.place).value, found.manifest, payload)
    requires !found.manifest.state.Quarantined?
    ensures GoOn(env, pub, root, found, payload, stop)
         == if found.manifest.state.Available? then Done(root, found.manifest)
            else Resume(env, pub, root, found.place, found.manifest, stop)
  {}

  lemma StartNewIs(env: Env, pub: Publisher, root: Root, payload: string, rows: nat, stop: Option<ShardState>,
                   staged: Run)
    requires staged == Stage(env, pub, root, payload, rows) && staged.result.Ok?
    ensures staged.disks != [] && DirAt(Last(staged), TransactionPlace(pub)).Some?
    ensures StartNew(env, pub, root, payload, rows, stop)
         == Then(staged, Resume(env, pub, Last(staged), TransactionPlace(pub), staged.result.value, stop))
  {}

  lemma ClimbOn(env: Env, job: Job, root: Root, k: nat, stop: Option<ShardState>)
    requires Fresh(job, root) && Genuine(env, job) && 4 <= k <= TOP
    requires stop != Some(Quarantined)
    ensures DirAt(Rung(env, job, root, k), PlaceOf(job, k)).Some?
    ensures GoOn(env, job.pub, Rung(env, job, root, k), Found(PlaceOf(job, k), Current(env, job, k)), job.payload, stop)
         == Outcome(env, job, root, k, stop)
  {
    hide GoOn, Resume, Ladder, Rung, CommittedDir, IntegrityMatches;
    IntegrityOnRung(env, job, root, k);
    GoOnCases(env, job.pub, Rung(env, job, root, k), Found(PlaceOf(job, k), Current(env, job, k)), job.payload, stop);
    RungsAreALadder(env, job, root);
    if k < TOP {
      ResumeClimbs(env, job.pub, Disks(env, job, root), Currents(env, job), k, stop);
    } else {
      assert Disks(env, job, root)[8..9] == [Rung(env, job, root, 8)];
    }
  }

  lemma ClimbFromStart(env: Env, job: Job, root: Root, k: nat, stop: Option<ShardState>)
    requires Fresh(job, root) && Genuine(env, job) && Start(root) <= k <= 1
    requires stop != Some(Quarantined)
    ensures StartNew(env, job.pub, Rung(env, job, root, k), job.payload, job.rows, stop)
         == Outcome(env, job, root, k, stop)
  {
    hide Stage, StartNew, Resume, Ladder, Rung, ManifestOf, CommittedDir;
    StageClimbs(env, job, root, k);
    RungsAreALadder(env, job, root);
    ResumeClimbs(env, job.pub, Disks(env, job, root), Currents(env, job), 4, stop);
    UpJoin(Disks(env, job, root), Currents(env, job), k, 4, Target(4, stop));
    StartNewIs(env, job.pub, Rung(env, job, root, k), job.payload, job.rows, stop,
               Up(Disks(env, job, root), Currents(env, job), k, 4));
  }

  /** A call on a rung other than 2 and 3 climbs every rung up to its target and returns the
      manifest committed there; on rungs 2 and 3 it refuses and writes nothing. */
  lemma Climb(env: Env, job: Job, root: Root, k: nat, stop: Option<ShardState>)
    requires Fresh(job, root) && Genuine(env, job) && Start(root) <= k <= TOP
    requires stop != Some(Quarantined)
    ensures PublishPayload(env, job.pub, Rung(env, job, root, k), job.payload, job.rows, stop)
            == Outcome(env, job, root, k, stop)
  {
    InspectRung(env, job, root, k);
    if k <= 1 {
      ClimbFromStart(env, job, root, k, stop);
    } else if 4 <= k {
      ClimbOn(env, job, root, k, stop);
    }
  }

  /** A requested stop is where the call ends exactly when no later manifest is committed yet. */
  lemma StopOnRungIff(env: Env, job: Job, root: Root, k: nat, stop: ShardState)
    requires Fresh(job, root) && Genuine(env, job) && Start(root) <= k <= TOP && k !in {2, 3}
    requires stop != Quarantined
    ensures var r := PublishPayload(env, job.pub, Rung(env, job, root, k), job.payload, job.rows, Some(stop));
            r.result.Ok? && (r.result.value.state == stop <==>
                               forall i :: 0 <= i < ManifestsOn(k) ==> !Later(STATES[i], stop))
  {
    hide PublishPayload, Rung;
    Climb(env, job, root, k, Some(stop));
    var high := Target(k, Some(stop));
    assert Outcome(env, job, root, k, Some(stop)).result == Ok(Current(env, job, high));
    assert Current(env, job, high).state == STATES[ManifestsOn(high) - 1];
    assert ManifestsOn(k) > 0 ==> (Later(STATES[ManifestsOn(k) - 1], stop) <==> high == TOP && stop != Available);
  }
}
