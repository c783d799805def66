/** Every disk that calls and crashes can reach from an empty root. */
module PublicationReach {
  import opened Wrappers
  import opened Reals
  import opened Json
  import opened CapturePayload
  import opened Publication
  import opened PublicationChain
  import opened PublicationSteps
  import opened PublicationLadder
  import opened PublicationRecovery

  /** A job's directory after `c` files: the payload, then the manifests; a quarantined one may
      also hold the manifest that says so. */
  function DirOf(env: Env, job: Job, c: nat, marked: bool): Dir
    requires c <= |STATES| + 1
  {
    if c == 0 then EMPTY_DIR
    else if c == 1 || !marked then CommittedDir(env, job, c - 1)
    else WithManifest(CommittedDir(env, job, c - 1), Next(env, ManifestOf(env, job, c - 2), Quarantined))
  }

  /** How a directory in `place` came about: a transaction holds at most the verified manifest, a
      shard at least that one, a quarantined directory at least the staging manifest. */
  ghost predicate Explains(env: Env, plan: Option<string>, place: Place, dir: Dir, job: Job, c: nat, marked: bool) {
    && Genuine(env, job) && plan == Some(job.pub.plan)
    && c <= |STATES| + 1 && dir == DirOf(env, job, c, marked)
    && match place
       case InTransaction(_) => place == TransactionPlace(job.pub) && c <= 4 && !marked
       case InShard(_) => place == ShardPlace(job.pub) && 4 <= c && !marked
       case InQuarantine(_) => place == QuarantinePlace(job.pub) && 2 <= c
  }

  ghost predicate Explained(env: Env, plan: Option<string>, place: Place, dir: Dir) {
    exists job, c, marked :: Explains(env, plan, place, dir, job, c, marked)
  }

  ghost predicate Reached(env: Env, root: Root) {
    forall place :: DirAt(root, place).Some? ==> Explained(env, root.plan, place, DirAt(root, place).value)
  }

  // ----- what keeps a disk explained -----

  lemma PutReached(env: Env, root: Root, place: Place, dir: Dir)
    requires Reached(env, root) && Explained(env, root.plan, place, dir)
    ensures Reached(env, Put(root, place, dir))
  {
    hide Explained;
    var after := Put(root, place, dir);
    forall p | DirAt(after, p).Some? ensures Explained(env, after.plan, p, DirAt(after, p).value) {
      assert DirAt(after, p) == if p == place then Some(dir) else DirAt(root, p);
    }
  }

  lemma RemoveReached(env: Env, root: Root, place: Place)
    requires Reached(env, root)
    ensures Reached(env, Remove(root, place))
  {
    hide Explained;
    var after := Remove(root, place);
    forall p | DirAt(after, p).Some? ensures Explained(env, after.plan, p, DirAt(after, p).value) {
      assert DirAt(after, p) == DirAt(root, p);
    }
  }

  lemma BindReached(env: Env, root: Root, plan: string)
    requires Reached(env, root) && (root.plan.None? || root.plan == Some(plan))
    ensures Reached(env, root.(plan := Some(plan)))
  {
    var after := root.(plan := Some(plan));
    forall p | DirAt(after, p).Some? ensures Explained(env, after.plan, p, DirAt(after, p).value) {
      assert DirAt(after, p) == DirAt(root, p);
      assert Explained(env, root.plan, p, DirAt(root, p).value);
    }
  }

  lemma RungReached(env: Env, job: Job, root: Root, k: nat)
    requires Reached(env, root) && Genuine(env, job) && Fresh(job, root) && k <= TOP
    ensures Reached(env, Rung(env, job, root, k))
  {
    hide Reached, Explained, Genuine;
    var bound := root.(plan := Some(job.pub.plan));
    BindReached(env, root, job.pub.plan);
    if 2 <= k {
      RungExplained(env, job, bound.plan, k);
      PutReached(env, bound, PlaceOf(job, k), DirOf(env, job, if k <= 6 then k - 2 else k - 3, false));
    }
  }

  lemma RungExplained(env: Env, job: Job, plan: Option<string>, k: nat)
    requires Genuine(env, job) && plan == Some(job.pub.plan) && 2 <= k <= TOP
    ensures Explained(env, plan, PlaceOf(job, k), DirOf(env, job, if k <= 6 then k - 2 else k - 3, false))
  {
    hide Genuine;
    var c := if k <= 6 then k - 2 else k - 3;
    assert Explains(env, plan, PlaceOf(job, k), DirOf(env, job, c, false), job, c, false);
  }

  // ----- a directory that is found is a rung of its own job -----

  lemma ExplainedCount(env: Env, pub: Publisher, job: Job, c: nat)
    requires c <= |STATES| + 1 && LastManifest(env, pub, DirOf(env, job, c, false)).Ok?
    ensures 2 <= c && pub.shardId == job.pub.shardId && pub.transactionId == job.pub.transactionId
    ensures LastManifest(env, pub, DirOf(env, job, c, false)) == Ok(ManifestOf(env, job, c - 2))
  {
    hide LastManifest;
    var dir := DirOf(env, job, c, false);
    var n := AcceptedIsChain(env, pub, dir);
    if c >= 1 {
      CommittedManifests(env, job, c - 1);
    }
    assert ManifestIn(dir, 0).Some? && Linked(env, pub, dir, 0);
    assert c >= 2;
    assert ManifestIn(dir, 0) == Some(ManifestOf(env, job, 0));
    CountIsUnique(dir, n, c - 1);
  }

  lemma CountIsUnique(dir: Dir, n: nat, k: nat)
    requires n <= |STATES| && k <= |STATES|
    requires forall i :: 0 <= i < |STATES| ==> (ManifestIn(dir, i).Some? <==> i < n)
    requires forall i :: 0 <= i < |STATES| ==> (ManifestIn(dir, i).Some? <==> i < k)
    ensures n == k
  {
    var i := if n < k then n else k;
    assert i < |STATES| ==> (ManifestIn(dir, i).Some? <==> i < n);
  }

  lemma TakeOut(root: Root, place: Place)
    requires DirAt(root, place).Some?
    ensures Put(Remove(root, place), place, DirAt(root, place).value) == root
    ensures Remove(root, place).plan == root.plan && DirAt(Remove(root, place), place).None?
    ensures forall other :: other != place ==> DirAt(Remove(root, place), other) == DirAt(root, other)
  {}

  function RungOf(place: Place, c: nat): nat { if place.InTransaction? then c + 2 else c + 3 }

  lemma ExplainedIsARung(env: Env, root: Root, place: Place, job: Job, c: nat)
    requires DirAt(root, place).Some? && Own(job.pub, place) && 2 <= c
    requires Explains(env, root.plan, place, DirAt(root, place).value, job, c, false)
    requires DirAt(root, if place.InShard? then TransactionPlace(job.pub) else ShardPlace(job.pub)).None?
    ensures 4 <= RungOf(place, c) <= TOP && place == PlaceOf(job, RungOf(place, c))
    ensures c - 1 == ManifestsOn(RungOf(place, c))
    ensures Fresh(job, Remove(root, place))
    ensures Rung(env, job, Remove(root, place), RungOf(place, c)) == root
  {
    hide Genuine, CommittedDir, Put, Remove, DirAt;
    TakeOut(root, place);
  }

  /** The disk without the directory that a call found. */
  lemma FoundIsARung(env: Env, pub: Publisher, root: Root, found: Found) returns (job: Job, k: nat)
    requires Reached(env, root) && Inspect(env, pub, root) == Ok(Some(found))
    ensures Own(pub, found.place) && Genuine(env, job) && root.plan == Some(job.pub.plan)
    ensures pub.shardId == job.pub.shardId && pub.transactionId == job.pub.transactionId
    ensures 4 <= k <= TOP && found == Found(PlaceOf(job, k), Current(env, job, k))
    ensures Fresh(job, Remove(root, found.place))
    ensures Rung(env, job, Remove(root, found.place), k) == root
    ensures DirAt(root, found.place) == Some(CommittedDir(env, job, ManifestsOn(k)))
  {
    hide LastManifest, Genuine, CommittedDir, Remove, Rung, Fresh;
    FoundIsCommitted(env, pub, root);
    var dir := DirAt(root, found.place).value;
    assert Explained(env, root.plan, found.place, dir);
    var origin: Job, c: nat, marked: bool :| Explains(env, root.plan, found.place, dir, origin, c, marked);
    ExplainedCount(env, pub, origin, c);
    job, k := origin, RungOf(found.place, c);
    ExplainedIsARung(env, root, found.place, job, c);
  }

  // ----- every call keeps it -----

  ghost predicate AllReached(env: Env, disks: seq<Root>) {
    forall i :: 0 <= i < |disks| ==> Reached(env, disks[i])
  }

  lemma OutcomeReached(env: Env, job: Job, root: Root, k: nat, stop: Option<ShardState>)
    requires Reached(env, root) && Genuine(env, job) && Fresh(job, root) && k <= TOP
    ensures AllReached(env, Outcome(env, job, root, k, stop).disks)
  {
    hide Reached, Genuine, Fresh, Rung;
    var disks := Outcome(env, job, root, k, stop).disks;
    forall i | 0 <= i < |disks| ensures Reached(env, disks[i]) {
      assert disks[i] == Rung(env, job, root, k + i);
      RungReached(env, job, root, k + i);
    }
  }

  lemma StartReached(env: Env, job: Job, root: Root, stop: Option<ShardState>)
    requires Reached(env, root) && Genuine(env, job) && stop != Some(Quarantined)
    ensures AllReached(env, StartNew(env, job.pub, root, job.payload, job.rows, stop).disks)
  {
    hide Reached, Genuine, Rung, Outcome, Resume;
    if Fresh(job, root) {
      StartIsRoot(env, job, root);
      ClimbFromStart(env, job, root, Start(root), stop);
      OutcomeReached(env, job, root, Start(root), stop);
    }
  }

  lemma MarkedExplained(env: Env, job: Job, plan: Option<string>, c: nat, marked: bool)
    requires Genuine(env, job) && plan == Some(job.pub.plan) && 2 <= c <= |STATES| + 1
    ensures Explained(env, plan, QuarantinePlace(job.pub), DirOf(env, job, c, marked))
  {
    hide Genuine;
    assert Explains(env, plan, QuarantinePlace(job.pub), DirOf(env, job, c, marked), job, c, marked);
  }

  /** Setting a directory aside renames it and then marks it. */
  lemma SetAsideDisks(env: Env, pub: Publisher, root: Root, place: Place, manifest: Manifest, dir: Dir)
    requires DirAt(root, place) == Some(dir) && !place.InQuarantine? && Quarantined !in dir.manifests
    requires DirAt(root, QuarantinePlace(pub)).None?
    ensures SetAside(env, pub, root, place, manifest).disks
         == [root, Put(Remove(root, place), QuarantinePlace(pub), dir),
             Put(Remove(root, place), QuarantinePlace(pub), WithManifest(dir, Next(env, manifest, Quarantined)))]
  {
    hide Remove, WithManifest;
    var target, base := QuarantinePlace(pub), Remove(root, place);
    PutAgain(base, target, dir, WithManifest(dir, Next(env, manifest, Quarantined)));
  }

  lemma SetAsideReached(env: Env, pub: Publisher, root: Root, found: Found)
    requires Reached(env, root) && Inspect(env, pub, root) == Ok(Some(found))
    ensures AllReached(env, SetAside(env, pub, root, found.place, found.manifest).disks)
  {
    hide Reached, Explained, Genuine, Rung, Inspect, CommittedDir, Fresh, Put, WithManifest;
    var target := QuarantinePlace(pub);
    if DirAt(root, target).None? {
      var job, k := FoundIsARung(env, pub, root, found);
      var c, base := ManifestsOn(k) + 1, Remove(root, found.place);
      var dir, marked := DirOf(env, job, c, false), DirOf(env, job, c, true);
      CommittedManifests(env, job, ManifestsOn(k));
      RemoveReached(env, root, found.place);
      MarkedExplained(env, job, base.plan, c, false);
      MarkedExplained(env, job, base.plan, c, true);
      PutReached(env, base, target, dir);
      PutReached(env, base, target, marked);
      SetAsideDisks(env, pub, root, found.place, found.manifest, dir);
    }
  }

  lemma GoOnReached(env: Env, job: Job, root: Root, found: Found, stop: Option<ShardState>)
    requires Reached(env, root) && stop != Some(Quarantined)
    requires Inspect(env, job.pub, root) == Ok(Some(found))
    ensures AllReached(env, GoOn(env, job.pub, root, found, job.payload, stop).disks)
  {
    hide Reached, Genuine, Rung, Inspect, SetAside, Resume, Outcome, Fresh, CommittedDir, SemanticsHold, PayloadMatches;
    if IntegrityMatches(env, job.pub, root, DirAt(root, found.place).value, found.manifest, job.payload) {
      var own, k := FoundIsARung(env, job.pub, root, found);
      CommittedManifests(env, own, ManifestsOn(k));
      assert own.pub == job.pub && own.payload == job.payload;
      var base := Remove(root, found.place);
      RemoveReached(env, root, found.place);
      ClimbOn(env, own, base, k, stop);
      OutcomeReached(env, own, base, k, stop);
    } else {
      SetAsideReached(env, job.pub, root, found);
    }
  }

  lemma CallReached(env: Env, fl: Floats, m: Math, root: Root, call: Call)
    requires Reached(env, root) && Sound(env, fl, m) && AllStorable(fl, m, call.captures)
    ensures Reached(env, AfterCall(env, root, call))
  {
    hide Reached, Sound, AllStorable, StartNew, GoOn, Inspect, Genuine;
    var pub, captures, stop := call.pub, call.captures, call.stop;
    if env.payload(pub.plan, captures).Ok? && stop != Some(Quarantined) {
      var job := JobOf(env, pub, captures);
      JobIsGenuine(env, fl, m, pub, captures);
      match Inspect(env, pub, root)
      case Err(_) =>
      case Ok(None) => StartReached(env, job, root, stop);
      case Ok(Some(found)) => GoOnReached(env, job, root, found, stop);
    }
  }

  lemma {:induction false} CallsReached(env: Env, fl: Floats, m: Math, calls: seq<Call>)
    requires Sound(env, fl, m) && forall i :: 0 <= i < |calls| ==> AllStorable(fl, m, calls[i].captures)
    ensures Reached(env, AfterCalls(env, EMPTY_ROOT, calls))
  {
    hide AfterCall, Sound, AllStorable;
    if calls != [] {
      CallsReached(env, fl, m, calls[..|calls| - 1]);
      CallReached(env, fl, m, AfterCalls(env, EMPTY_ROOT, calls[..|calls| - 1]), calls[|calls| - 1]);
    }
  }

  // ----- what a reader of a reachable disk can rely on -----

  /** The chain is accepted for some publisher of the plan on disk, and the payload passes every check. */
  ghost predicate Sealed(env: Env, root: Root, dir: Dir, pub: Publisher, m: Manifest) {
    && root.plan == Some(pub.plan)
    && LastManifest(env, pub, dir) == Ok(m)
    && SemanticsHold(env, pub.plan, dir, m)
  }

  lemma ExplainedIsSealed(env: Env, root: Root, place: Place, dir: Dir, job: Job, c: nat)
    requires Explains(env, root.plan, place, dir, job, c, false) && 2 <= c
    ensures Sealed(env, root, dir, job.pub, ManifestOf(env, job, c - 2))
  {
    hide LastManifest;
    CommittedIsAccepted(env, job, c - 1);
    CommittedIsGenuine(env, job, c - 1, c - 2);
  }

  /** On every disk that any calls and crashes of any publishers can reach: a shard directory
      already holds the verified manifest, an unbroken chain and a payload that passes every check;
      a transaction directory either holds no manifest at all or such a chain, not yet available. */
  lemma ReachableDisk(env: Env, fl: Floats, m: Math, calls: seq<Call>)
    requires Sound(env, fl, m) && forall i :: 0 <= i < |calls| ==> AllStorable(fl, m, calls[i].captures)
    ensures var root := AfterCalls(env, EMPTY_ROOT, calls);
            && (forall s :: s in root.shards ==> exists pub, last ::
                  && Sealed(env, root, root.shards[s], pub, last)
                  && pub.shardId == s && last.state in {Verified, Available})
            && (forall t :: t in root.transactions ==>
                  || root.transactions[t].manifests == map[]
                  || exists pub, last ::
                       && Sealed(env, root, root.transactions[t], pub, last)
                       && pub.transactionId == t && last.state in {Staging, Complete, Verified})
  {
    hide AfterCalls, Sound, AllStorable, Sealed, Genuine, CommittedDir;
    var root := AfterCalls(env, EMPTY_ROOT, calls);
    CallsReached(env, fl, m, calls);
    forall s | s in root.shards
      ensures exists pub, last :: Sealed(env, root, root.shards[s], pub, last)
                && pub.shardId == s && last.state in {Verified, Available}
    {
      assert Explained(env, root.plan, InShard(s), DirAt(root, InShard(s)).value);
      var job, c, marked :| Explains(env, root.plan, InShard(s), root.shards[s], job, c, marked);
      ExplainedIsSealed(env, root, InShard(s), root.shards[s], job, c);
    }
    forall t | t in root.transactions && root.transactions[t].manifests != map[]
      ensures exists pub, last :: Sealed(env, root, root.transactions[t], pub, last)
                && pub.transactionId == t && last.state in {Staging, Complete, Verified}
    {
      assert Explained(env, root.plan, InTransaction(t), DirAt(root, InTransaction(t)).value);
      var job, c, marked :| Explains(env, root.plan, InTransaction(t), root.transactions[t], job, c, marked);
      NoFilesNoManifests(env, job, c);
      ExplainedIsSealed(env, root, InTransaction(t), root.transactions[t], job, c);
    }
  }

  lemma NoFilesNoManifests(env: Env, job: Job, c: nat)
    requires c <= |STATES| + 1
    ensures c < 2 ==> DirOf(env, job, c, false).manifests == map[]
  {}
}
