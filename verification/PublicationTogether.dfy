/** Recovery while other publishers are at work on the same root, their calls coming in between. */
module PublicationTogether {
  import opened Wrappers
  import opened Reals
  import opened Json
  import opened CapturePayload
  import opened Publication
  import opened PublicationSteps
  import opened PublicationLadder
  import opened PublicationRecovery

  // ----- a call leaves the directories of others alone -----

  /** What a publisher's own calls depend on: its two directories are the same, and so is the plan,
      unless it was written just now. */
  ghost predicate SameView(pub: Publisher, a: Root, b: Root) {
    && DirAt(a, TransactionPlace(pub)) == DirAt(b, TransactionPlace(pub))
    && DirAt(a, ShardPlace(pub)) == DirAt(b, ShardPlace(pub))
    && (a.plan == b.plan || (a.plan.None? && b.plan == Some(pub.plan)))
  }

  /** Neither the shard nor the transaction is shared. */
  predicate Apart(p: Publisher, q: Publisher) {
    p.plan == q.plan && p.shardId != q.shardId && p.transactionId != q.transactionId
  }

  lemma StepKeepsView(env: Env, p: Publisher, q: Publisher, a: Root, step: Step, b: Root)
    requires Apart(p, q) && Makes(env, q, a, step, b)
    ensures SameView(p, a, b)
  {}

  lemma {:induction false} RunKeepsView(env: Env, p: Publisher, q: Publisher, disks: seq<Root>, i: nat)
    requires Apart(p, q) && Stepwise(env, q, disks) && i < |disks|
    ensures SameView(p, disks[0], disks[i])
  {
    if i > 0 {
      RunKeepsView(env, p, q, disks, i - 1);
      assert AtomicStep(env, q, disks[i - 1], disks[i]);
      var step :| Makes(env, q, disks[i - 1], step, disks[i]);
      StepKeepsView(env, p, q, disks[i - 1], step, disks[i]);
    }
  }

  /** Whatever it publishes and wherever it crashes, a call of another publisher changes nothing a
      publisher looks at, except that it may write the plan they share. */
  lemma CallKeepsView(env: Env, p: Publisher, root: Root, call: Call)
    requires Apart(p, call.pub)
    ensures SameView(p, root, AfterCall(env, root, call))
  {
    hide Publish, Stepwise, SameView;
    var run := Publish(env, call.pub, root, call.captures, call.stop);
    PublishIsStepwise(env, call.pub, root, call.captures, call.stop);
    RunKeepsView(env, p, call.pub, run.disks, if call.fuse < |run.disks| then call.fuse else |run.disks| - 1);
  }

  // ----- the rungs among others -----

  /** The disk without the directories of a publisher. */
  function Others(pub: Publisher, root: Root): Root {
    Remove(Remove(root, TransactionPlace(pub)), ShardPlace(pub))
  }

  lemma PutBack(root: Root, place: Place, dir: Dir)
    requires DirAt(root, place) == Some(dir)
    ensures Put(Remove(root, place), place, dir) == root
  {}

  lemma RemoveNothing(root: Root, place: Place)
    requires DirAt(root, place).None?
    ensures Remove(root, place) == root
  {}

  /** What rung `k` looks like to the publisher of the job. */
  ghost predicate Looks(env: Env, job: Job, k: nat, disk: Root)
    requires k <= TOP
  {
    && (k > 0 ==> disk.plan == Some(job.pub.plan))
    && (k == 0 ==> disk.plan.None?)
    && DirAt(disk, TransactionPlace(job.pub))
       == (if k <= 1 || k >= 7 then None else if k == 2 then Some(EMPTY_DIR) else Some(CommittedDir(env, job, k - 3)))
    && DirAt(disk, ShardPlace(job.pub)) == (if k >= 7 then Some(CommittedDir(env, job, k - 4)) else None)
  }

  lemma RungLooks(env: Env, job: Job, root: Root, k: nat)
    requires Fresh(job, root) && Start(root) <= k <= TOP
    ensures Looks(env, job, k, Rung(env, job, root, k))
  {
    hide CommittedDir;
  }

  lemma SameLooks(env: Env, job: Job, k: nat, a: Root, b: Root)
    requires k <= TOP && Looks(env, job, k, a) && SameView(job.pub, a, b)
    ensures Looks(env, job, if k == 0 then Start(b) else k, b)
  {
    hide CommittedDir;
  }

  lemma LooksLikeRung(env: Env, job: Job, disk: Root, k: nat)
    requires k <= TOP && Looks(env, job, k, disk)
    ensures Fresh(job, Others(job.pub, disk)) && Start(Others(job.pub, disk)) <= k
    ensures disk == Rung(env, job, Others(job.pub, disk), k)
  {
    hide CommittedDir;
    var pub := job.pub;
    if k <= 1 {
      RemoveNothing(disk, TransactionPlace(pub));
      RemoveNothing(disk, ShardPlace(pub));
    } else if k <= 6 {
      RemoveNothing(disk, ShardPlace(pub));
      PutBack(disk, TransactionPlace(pub), DirAt(disk, TransactionPlace(pub)).value);
    } else {
      RemoveNothing(disk, TransactionPlace(pub));
      PutBack(disk, ShardPlace(pub), DirAt(disk, ShardPlace(pub)).value);
    }
  }

  /** A disk that looks like a rung to the publisher is one, of a ladder beside the same others. */
  lemma SameViewIsRung(env: Env, job: Job, root: Root, k: nat, disk: Root)
    requires Fresh(job, root) && Start(root) <= k <= TOP
    requires SameView(job.pub, Rung(env, job, root, k), disk)
    ensures var high := if k == 0 then Start(disk) else k;
            && Fresh(job, Others(job.pub, disk)) && Start(Others(job.pub, disk)) <= high
            && disk == Rung(env, job, Others(job.pub, disk), high)
  {
    var high := if k == 0 then Start(disk) else k;
    hide CommittedDir, SameView, Rung, Looks;
    RungLooks(env, job, root, k);
    SameLooks(env, job, k, Rung(env, job, root, k), disk);
    LooksLikeRung(env, job, disk, high);
  }

  /** The calls of this publisher all re-run one job; those of others may be any calls. */
  ghost predicate Interleaved(pubs: set<Publisher>, pub: Publisher, captures: seq<StoredToken>, calls: seq<Call>) {
    && From(pubs, calls)
    && forall i :: 0 <= i < |calls| && calls[i].pub == pub ==>
         calls[i].captures == captures && calls[i].stop != Some(Quarantined)
  }

  ghost predicate OnePlan(pubs: set<Publisher>, plan: string) {
    forall p :: p in pubs ==> p.plan == plan
  }

  /** The rung after these calls: own calls climb as they do alone, and the others can only take the
      first step, writing the plan. */
  function RungTogether(env: Env, pub: Publisher, root: Root, calls: seq<Call>): (k: nat)
    ensures k <= TOP
  {
    if calls == [] then Start(root)
    else
      var k, call := RungTogether(env, pub, root, calls[..|calls| - 1]), calls[|calls| - 1];
      if call.pub == pub then NextRung(k, call.stop, call.fuse)
      else if k == 0 then Start(AfterCalls(env, root, calls))
      else k
  }

  lemma RungIsBesideOthers(env: Env, job: Job, root: Root, k: nat)
    requires Fresh(job, root) && Start(root) <= k <= TOP
    ensures var disk := Rung(env, job, root, k);
            && Fresh(job, Others(job.pub, disk)) && Start(Others(job.pub, disk)) <= k
            && disk == Rung(env, job, Others(job.pub, disk), k)
  {
    hide CommittedDir, Rung, Looks;
    RungLooks(env, job, root, k);
    LooksLikeRung(env, job, Rung(env, job, root, k), k);
  }

  /** Whatever the others do in between, the disk is what they left, and beside it the job's own rung. */
  lemma {:induction false} TogetherClimb(env: Env, fl: Floats, m: Math, pubs: set<Publisher>, pub: Publisher,
                                         captures: seq<StoredToken>, root: Root, calls: seq<Call>)
    requires pub in pubs && OneToOne(pubs) && OnePlan(pubs, pub.plan)
    requires Publishable(env, fl, m, pub.plan, captures) && Interleaved(pubs, pub, captures, calls)
    requires Fresh(JobOf(env, pub, captures), root)
    ensures var disk, k := AfterCalls(env, root, calls), RungTogether(env, pub, root, calls);
            && Fresh(JobOf(env, pub, captures), Others(pub, disk)) && Start(Others(pub, disk)) <= k
            && disk == Rung(env, JobOf(env, pub, captures), Others(pub, disk), k)
  {
    hide AfterCall, Sound, AllStorable, Rung, Fresh, SameView, Others;
    var job, disk := JobOf(env, pub, captures), AfterCalls(env, root, calls);
    if calls == [] {
      StartIsRoot(env, job, root);
      RungIsBesideOthers(env, job, root, Start(root));
    } else {
      var init, call := calls[..|calls| - 1], calls[|calls| - 1];
      TogetherClimb(env, fl, m, pubs, pub, captures, root, init);
      var rest, k := Others(pub, AfterCalls(env, root, init)), RungTogether(env, pub, root, init);
      if call.pub == pub {
        RetryClimbs(env, fl, m, rest, k, call);
        RungIsBesideOthers(env, job, rest, NextRung(k, call.stop, call.fuse));
      } else {
        CallKeepsView(env, pub, Rung(env, job, rest, k), call);
        SameViewIsRung(env, job, rest, k, disk);
      }
    }
  }

  lemma EndAmongOthers(env: Env, job: Job, root: Root, k: nat)
    requires Fresh(job, root) && k <= TOP && !Stuck(k)
    ensures var end := Last(Outcome(env, job, root, k, None));
            && Outcome(env, job, root, k, None).disks != []
            && DirAt(end, ShardPlace(job.pub)) == Some(CommittedDir(env, job, 4))
            && DirAt(end, TransactionPlace(job.pub)).None?
            && forall place :: !Own(job.pub, place) ==> DirAt(end, place) == DirAt(Rung(env, job, root, k), place)
  {
    hide CommittedDir, Outcome;
    EndOfOutcome(env, job, root, k);
    DirOnRung(env, job, root, TOP);
  }

  /** Recovery among other publishers with names of their own: after any history of interrupted
      re-runs, with any calls of the others in between, one complete call returns the manifest and
      leaves the shard directory that an uninterrupted first call would have, and touches nothing of
      the others, if and only if no crash of this publisher's own abandoned its transaction. */
  lemma RecoveryAmongOthersIff(env: Env, fl: Floats, m: Math, pubs: set<Publisher>, pub: Publisher,
                               captures: seq<StoredToken>, root: Root, calls: seq<Call>)
    requires pub in pubs && OneToOne(pubs) && OnePlan(pubs, pub.plan)
    requires Publishable(env, fl, m, pub.plan, captures) && Interleaved(pubs, pub, captures, calls)
    requires Fresh(JobOf(env, pub, captures), root)
    ensures var disk := AfterCalls(env, root, calls);
            var rerun, whole := Publish(env, pub, disk, captures, None), Publish(env, pub, root, captures, None);
            && whole.result.Ok? && whole.result.value.state == Available
            && (rerun.result == whole.result <==> !Abandoned(pub, disk))
            && (!Abandoned(pub, disk) ==>
                  && DirAt(Last(rerun), ShardPlace(pub)) == DirAt(Last(whole), ShardPlace(pub))
                  && DirAt(Last(rerun), ShardPlace(pub)).Some? && DirAt(Last(rerun), TransactionPlace(pub)).None?
                  && forall place :: !Own(pub, place) ==> DirAt(Last(rerun), place) == DirAt(disk, place))
            && (Abandoned(pub, disk) ==> rerun == Refused(disk, NoCommittedManifest))
  {
    hide Rung, PublishPayload, Publish, Fresh, Genuine, Abandoned, Sound, AllStorable, Current, Own;
    var job := JobOf(env, pub, captures);
    var rest, k := Others(pub, AfterCalls(env, root, calls)), RungTogether(env, pub, root, calls);
    TogetherClimb(env, fl, m, pubs, pub, captures, root, calls);
    JobIsGenuine(env, fl, m, pub, captures);
    StartIsRoot(env, job, root);
    PublishIs(env, pub, Rung(env, job, rest, k), captures, None);
    PublishIs(env, pub, root, captures, None);
    Climb(env, job, root, Start(root), None);
    Climb(env, job, rest, k, None);
    AbandonedRungs(env, job, rest, k);
    EndOfOutcome(env, job, root, Start(root));
    EndAmongOthers(env, job, root, Start(root));
    if !Stuck(k) {
      EndOfOutcome(env, job, rest, k);
      EndAmongOthers(env, job, rest, k);
    }
  }
}
