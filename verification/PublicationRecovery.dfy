/** Whole histories of calls: re-runs after crashes, mismatching payloads, and shared names. */
module PublicationRecovery {
  import opened Wrappers
  import opened Reals
  import opened Json
  import opened CapturePayload
  import opened Publication
  import opened PublicationSteps
  import opened PublicationLadder

  /** The rows are capture rows and the plan accepts them. */
  ghost predicate Publishable(env: Env, fl: Floats, m: Math, plan: string, captures: seq<StoredToken>) {
    Sound(env, fl, m) && AllStorable(fl, m, captures) && env.payload(plan, captures).Ok?
  }

  function JobOf(env: Env, pub: Publisher, captures: seq<StoredToken>): Job
    requires env.payload(pub.plan, captures).Ok?
  {
    Job(pub, env.payload(pub.plan, captures).value, |captures|)
  }

  lemma JobIsGenuine(env: Env, fl: Floats, m: Math, pub: Publisher, captures: seq<StoredToken>)
    requires Publishable(env, fl, m, pub.plan, captures)
    ensures Genuine(env, JobOf(env, pub, captures))
  {}

  lemma PublishIs(env: Env, pub: Publisher, root: Root, captures: seq<StoredToken>, stop: Option<ShardState>)
    requires env.payload(pub.plan, captures).Ok? && stop != Some(Quarantined)
    ensures Publish(env, pub, root, captures, stop)
         == PublishPayload(env, pub, root, env.payload(pub.plan, captures).value, |captures|, stop)
  {}

  // ----- re-runs of one job, each crashing anywhere or stopping anywhere -----

  ghost predicate Retries(pub: Publisher, captures: seq<StoredToken>, calls: seq<Call>) {
    forall i :: 0 <= i < |calls| ==>
      calls[i].pub == pub && calls[i].captures == captures && calls[i].stop != Some(Quarantined)
  }

  predicate Stuck(k: nat) { k == 2 || k == 3 }

  /** The rung after one call that makes at most `fuse` atomic steps. */
  function NextRung(k: nat, stop: Option<ShardState>, fuse: nat): (r: nat)
    requires k <= TOP
    ensures r <= TOP && k <= r
  {
    if Stuck(k) then k
    else if k + fuse < Target(k, stop) then k + fuse
    else Target(k, stop)
  }

  function RungAfter(k: nat, calls: seq<Call>): (r: nat)
    requires k <= TOP
    ensures k <= r <= TOP
  {
    if calls == [] then k
    else NextRung(RungAfter(k, calls[..|calls| - 1]), calls[|calls| - 1].stop, calls[|calls| - 1].fuse)
  }

  lemma OutcomeDisk(env: Env, job: Job, root: Root, k: nat, stop: Option<ShardState>, fuse: nat)
    requires k <= TOP
    ensures Outcome(env, job, root, k, stop).disks != []
    ensures DiskAfter(Outcome(env, job, root, k, stop), fuse) == Rung(env, job, root, NextRung(k, stop, fuse))
  {
    hide Rung, Disks, Currents;
    if !Stuck(k) {
      var disks, high := Disks(env, job, root), Target(k, stop);
      var up := Up(disks, Currents(env, job), k, high).disks;
      assert |up| == high + 1 - k;
      assert forall i :: 0 <= i < |up| ==> up[i] == disks[k + i];
    }
  }

  lemma StartIsRoot(env: Env, job: Job, root: Root)
    requires Fresh(job, root)
    ensures Rung(env, job, root, Start(root)) == root
  {}

  lemma RetryClimbs(env: Env, fl: Floats, m: Math, root: Root, k: nat, call: Call)
    requires Publishable(env, fl, m, call.pub.plan, call.captures) && call.stop != Some(Quarantined)
    requires Fresh(JobOf(env, call.pub, call.captures), root) && Start(root) <= k <= TOP
    ensures var job := JobOf(env, call.pub, call.captures);
            AfterCall(env, Rung(env, job, root, k), call) == Rung(env, job, root, NextRung(k, call.stop, call.fuse))
  {
    hide Rung, Outcome, PublishPayload, Publish, DiskAfter;
    var job := JobOf(env, call.pub, call.captures);
    JobIsGenuine(env, fl, m, call.pub, call.captures);
    Climb(env, job, root, k, call.stop);
    PublishIs(env, call.pub, Rung(env, job, root, k), call.captures, call.stop);
    OutcomeDisk(env, job, root, k, call.stop, call.fuse);
  }

  /** Interrupted anywhere any number of times, the disk is the rung the arithmetic says. */
  lemma {:induction false} RetriesClimb(env: Env, fl: Floats, m: Math, pub: Publisher, captures: seq<StoredToken>,
                                        root: Root, calls: seq<Call>)
    requires Publishable(env, fl, m, pub.plan, captures)
    requires Fresh(JobOf(env, pub, captures), root) && Retries(pub, captures, calls)
    ensures AfterCalls(env, root, calls) == Rung(env, JobOf(env, pub, captures), root, RungAfter(Start(root), calls))
  {
    hide AfterCall, Sound, AllStorable, Rung, Fresh;
    var job := JobOf(env, pub, captures);
    if calls == [] {
      StartIsRoot(env, job, root);
    } else {
      var call, init := calls[|calls| - 1], calls[..|calls| - 1];
      RetriesClimb(env, fl, m, pub, captures, root, init);
      assert call.pub == pub && call.captures == captures;
      RetryClimbs(env, fl, m, root, RungAfter(Start(root), init), call);
    }
  }

  /** A transaction directory in which no manifest was ever committed. */
  predicate Abandoned(pub: Publisher, root: Root) {
    var dir := DirAt(root, TransactionPlace(pub));
    dir.Some? && dir.value.manifests == map[]
  }

  lemma AbandonedRungs(env: Env, job: Job, root: Root, k: nat)
    requires Fresh(job, root) && k <= TOP
    ensures Abandoned(job.pub, Rung(env, job, root, k)) <==> Stuck(k)
  {
    if k >= 3 {
      CommittedManifests(env, job, ManifestsOn(k));
      if ManifestsOn(k) > 0 {
        assert STATES[0] in CommittedDir(env, job, ManifestsOn(k)).manifests;
      }
    }
  }

  /** Such a crash exists: one that hits right after `mkdir`. */
  lemma CrashCanAbandon(env: Env, fl: Floats, m: Math, pub: Publisher, captures: seq<StoredToken>, root: Root)
    requires Publishable(env, fl, m, pub.plan, captures) && Fresh(JobOf(env, pub, captures), root)
    ensures Abandoned(pub, AfterCall(env, root, Call(pub, captures, None, 2 - Start(root))))
  {
    hide Rung, AfterCall, Abandoned, Sound, AllStorable, Fresh;
    var job, call := JobOf(env, pub, captures), Call(pub, captures, None, 2 - Start(root));
    StartIsRoot(env, job, root);
    RetryClimbs(env, fl, m, root, Start(root), call);
    AbandonedRungs(env, job, root, 2);
  }

  /** Recovery, and its exact limit: after any history of interrupted re-runs, one complete call
      leaves the very disk an uninterrupted first call would have left, the payload available, if
      and only if no crash abandoned the transaction between `mkdir` and its first manifest;
      otherwise the call refuses and changes nothing. */
  lemma RecoveryIff(env: Env, fl: Floats, m: Math, pub: Publisher, captures: seq<StoredToken>,
                    root: Root, calls: seq<Call>)
    requires Publishable(env, fl, m, pub.plan, captures)
    requires Fresh(JobOf(env, pub, captures), root) && Retries(pub, captures, calls)
    ensures var disk := AfterCalls(env, root, calls);
            var rerun, whole := Publish(env, pub, disk, captures, None), Publish(env, pub, root, captures, None);
            && whole.result.Ok? && whole.result.value.state == Available
            && (Last(rerun) == Last(whole) && rerun.result == whole.result <==> !Abandoned(pub, disk))
            && (Abandoned(pub, disk) ==> rerun == Refused(disk, NoCommittedManifest))
  {
    hide Rung, PublishPayload, Publish, Fresh, Genuine, Abandoned, Sound, AllStorable, Current;
    var job, k := JobOf(env, pub, captures), RungAfter(Start(root), calls);
    JobIsGenuine(env, fl, m, pub, captures);
    RetriesClimb(env, fl, m, pub, captures, root, calls);
    StartIsRoot(env, job, root);
    PublishIs(env, pub, Rung(env, job, root, k), captures, None);
    PublishIs(env, pub, root, captures, None);
    Climb(env, job, root, Start(root), None);
    Climb(env, job, root, k, None);
    AbandonedRungs(env, job, root, k);
    EndOfOutcome(env, job, root, Start(root));
    if !Stuck(k) {
      EndOfOutcome(env, job, root, k);
    }
  }

  lemma EndOfOutcome(env: Env, job: Job, root: Root, k: nat)
    requires k <= TOP && !Stuck(k)
    ensures var r := Outcome(env, job, root, k, None);
            && r.disks != [] && Last(r) == Rung(env, job, root, TOP)
            && r.result == Ok(Current(env, job, TOP)) && Current(env, job, TOP).state == Available
  {
    hide Rung;
    assert Target(k, None) == TOP;
  }

  // ----- a stop that comes too late -----

  /** One of the job's directories holds a manifest later than `stop`. */
  ghost predicate PastStop(pub: Publisher, root: Root, stop: ShardState) {
    HoldsLater(DirAt(root, TransactionPlace(pub)), stop) || HoldsLater(DirAt(root, ShardPlace(pub)), stop)
  }

  ghost predicate HoldsLater(dir: Option<Dir>, stop: ShardState) {
    dir.Some? && exists state :: state in dir.value.manifests && Later(state, stop)
  }

  lemma CommittedLater(env: Env, job: Job, n: nat, stop: ShardState)
    requires n <= |STATES|
    ensures HoldsLater(Some(CommittedDir(env, job, n)), stop) <==> exists i :: 0 <= i < n && Later(STATES[i], stop)
  {
    hide CommittedDir;
    CommittedManifests(env, job, n);
    var manifests := CommittedDir(env, job, n).manifests;
    forall state | state in manifests && Later(state, stop) ensures exists i :: 0 <= i < n && Later(STATES[i], stop) {
      assert state in STATES;
      var i :| 0 <= i < |STATES| && STATES[i] == state;
      assert i < n;
    }
  }

  lemma PastStopRungs(env: Env, job: Job, root: Root, k: nat, stop: ShardState)
    requires Fresh(job, root) && k <= TOP
    ensures PastStop(job.pub, Rung(env, job, root, k), stop)
            <==> exists i :: 0 <= i < ManifestsOn(k) && Later(STATES[i], stop)
  {
    hide HoldsLater, CommittedDir;
    CommittedLater(env, job, ManifestsOn(k), stop);
    NoneIsLater(stop);
  }

  lemma NoneIsLater(stop: ShardState)
    ensures !HoldsLater(None, stop) && !HoldsLater(Some(EMPTY_DIR), stop)
  {}

  /** After any history of interrupted re-runs that did not abandon the transaction, a call with
      `stop_after` ends in that state if and only if no later manifest is committed yet. */
  lemma StopHonoredIff(env: Env, fl: Floats, m: Math, pub: Publisher, captures: seq<StoredToken>,
                       root: Root, calls: seq<Call>, stop: ShardState)
    requires Publishable(env, fl, m, pub.plan, captures) && stop != Quarantined
    requires Fresh(JobOf(env, pub, captures), root) && Retries(pub, captures, calls)
    requires !Abandoned(pub, AfterCalls(env, root, calls))
    ensures var disk := AfterCalls(env, root, calls);
            var r := Publish(env, pub, disk, captures, Some(stop)).result;
            r.Ok? && (r.value.state == stop <==> !PastStop(pub, disk, stop))
  {
    hide Rung, PublishPayload, Publish, Fresh, Genuine, Abandoned, Sound, AllStorable, PastStop;
    var job, k := JobOf(env, pub, captures), RungAfter(Start(root), calls);
    JobIsGenuine(env, fl, m, pub, captures);
    RetriesClimb(env, fl, m, pub, captures, root, calls);
    AbandonedRungs(env, job, root, k);
    PublishIs(env, pub, Rung(env, job, root, k), captures, Some(stop));
    StopOnRungIff(env, job, root, k, stop);
    PastStopRungs(env, job, root, k, stop);
  }

  /** A stop that is passed over: after a call that stopped at `verified`, one that asks to stop at
      `staging` goes on to `available`. */
  lemma StopPassedOver(env: Env, fl: Floats, m: Math, pub: Publisher, captures: seq<StoredToken>)
    requires Publishable(env, fl, m, pub.plan, captures)
    ensures var first := Publish(env, pub, EMPTY_ROOT, captures, Some(Verified));
            var second := Publish(env, pub, Last(first), captures, Some(Staging));
            && first.result.Ok? && first.result.value.state == Verified
            && second.result.Ok? && second.result.value.state == Available
            && DirAt(Last(second), ShardPlace(pub)).Some?
  {
    hide Rung, PublishPayload, Publish, Genuine, Sound, AllStorable;
    var job := JobOf(env, pub, captures);
    JobIsGenuine(env, fl, m, pub, captures);
    StartIsRoot(env, job, EMPTY_ROOT);
    PublishIs(env, pub, EMPTY_ROOT, captures, Some(Verified));
    Climb(env, job, EMPTY_ROOT, 0, Some(Verified));
    OutcomeDisk(env, job, EMPTY_ROOT, 0, Some(Verified), TOP);
    PublishIs(env, pub, Rung(env, job, EMPTY_ROOT, 6), captures, Some(Staging));
    Climb(env, job, EMPTY_ROOT, 6, Some(Staging));
    OutcomeDisk(env, job, EMPTY_ROOT, 6, Some(Staging), TOP);
    DirOnRung(env, job, EMPTY_ROOT, TOP);
  }

  // ----- a payload that does not match -----

  /** What a call finds, with a valid manifest chain, is not what it was asked to publish. */
  ghost predicate Mismatch(env: Env, pub: Publisher, root: Root, captures: seq<StoredToken>, place: Place) {
    && env.payload(pub.plan, captures).Ok?
    && Inspect(env, pub, root).Ok? && Inspect(env, pub, root).value.Some?
    && var found := Inspect(env, pub, root).value.value;
       && found.place == place
       && !IntegrityMatches(env, pub, root, DirAt(root, place).value, found.manifest,
                            env.payload(pub.plan, captures).value)
  }

  lemma MismatchSetsAside(env: Env, pub: Publisher, root: Root, captures: seq<StoredToken>, stop: Option<ShardState>,
                          place: Place)
    requires Mismatch(env, pub, root, captures, place) && stop != Some(Quarantined)
    ensures Publish(env, pub, root, captures, stop)
         == SetAside(env, pub, root, place, Inspect(env, pub, root).value.value.manifest)
  {
    hide IntegrityMatches, Inspect, SetAside, Resume;
  }

  /** On any disk, a mismatching directory is never reported as published, and it leaves its place
      if and only if its quarantine slot is free; the slot then holds it with nothing lost. */
  lemma MismatchIffSlotFree(env: Env, pub: Publisher, root: Root, captures: seq<StoredToken>, stop: Option<ShardState>,
                            place: Place)
    requires Mismatch(env, pub, root, captures, place) && stop != Some(Quarantined)
    ensures var r := Publish(env, pub, root, captures, stop);
            var free := DirAt(root, QuarantinePlace(pub)).None?;
            && r.result.Err?
            && (DirAt(Last(r), place).None? <==> free)
            && (free ==> Own(pub, place) && DirAt(Last(r), QuarantinePlace(pub)).Some?
                         && Extends(DirAt(root, place).value, DirAt(Last(r), QuarantinePlace(pub)).value)
                         && Quarantined in DirAt(Last(r), QuarantinePlace(pub)).value.manifests)
            && (!free ==> r == Refused(root, QuarantineOccupied))
  {
    hide Publish, Inspect, IntegrityMatches;
    MismatchSetsAside(env, pub, root, captures, stop, place);
    FoundIsCommitted(env, pub, root);
  }

  lemma OtherPayloadMismatches(env: Env, job: Job, root: Root, captures: seq<StoredToken>)
    requires Fresh(job, root) && env.payload(job.pub.plan, captures).Ok?
    requires env.payload(job.pub.plan, captures).value != job.payload
    ensures Mismatch(env, job.pub, Rung(env, job, root, TOP), captures, ShardPlace(job.pub))
  {
    hide Inspect, LastManifest;
    InspectRung(env, job, root, TOP);
    DirOnRung(env, job, root, TOP);
    CommittedManifests(env, job, 4);
  }

  /** The slot holds `job`'s shard directory, and nothing is in its own places. */
  lemma SetAsideFromTop(env: Env, job: Job, root: Root, captures: seq<StoredToken>, other: Job)
    requires Fresh(job, root) && DirAt(root, QuarantinePlace(job.pub)).None?
    requires env.payload(job.pub.plan, captures).Ok?
    requires env.payload(job.pub.plan, captures).value != job.payload && other.pub == job.pub
    ensures var after := Last(Publish(env, job.pub, Rung(env, job, root, TOP), captures, None));
            Fresh(other, after) && DirAt(after, QuarantinePlace(job.pub)).Some?
  {
    hide Inspect, LastManifest, Publish, CommittedDir, IntegrityMatches;
    OtherPayloadMismatches(env, job, root, captures);
    MismatchSetsAside(env, job.pub, Rung(env, job, root, TOP), captures, None, ShardPlace(job.pub));
  }

  lemma PublishReachesTop(env: Env, fl: Floats, m: Math, pub: Publisher, captures: seq<StoredToken>, root: Root)
    requires Publishable(env, fl, m, pub.plan, captures) && Fresh(JobOf(env, pub, captures), root)
    ensures Last(Publish(env, pub, root, captures, None)) == Rung(env, JobOf(env, pub, captures), root, TOP)
  {
    hide Rung, PublishPayload, Publish, Fresh, Genuine, Sound, AllStorable, Current;
    var job := JobOf(env, pub, captures);
    JobIsGenuine(env, fl, m, pub, captures);
    StartIsRoot(env, job, root);
    Climb(env, job, root, Start(root), None);
    PublishIs(env, pub, root, captures, None);
    EndOfOutcome(env, job, root, Start(root));
  }

  /** Why the slot must be free: publish `a`, `b` (which sets `a` aside), `b` again, then `a`. The
      differing payload `b` stays available, and the call for `a` changes nothing. */
  lemma OccupiedSlotKeepsOther(env: Env, fl: Floats, m: Math, pub: Publisher,
                               a: seq<StoredToken>, b: seq<StoredToken>, root: Root)
    requires Publishable(env, fl, m, pub.plan, a) && Publishable(env, fl, m, pub.plan, b) && a != b
    requires Fresh(JobOf(env, pub, a), root) && DirAt(root, QuarantinePlace(pub)).None?
    ensures var one := Last(Publish(env, pub, root, a, None));
            var two := Last(Publish(env, pub, one, b, None));
            var three := Last(Publish(env, pub, two, b, None));
            && Publish(env, pub, three, a, None) == Refused(three, QuarantineOccupied)
            && DirAt(three, ShardPlace(pub)) == Some(CommittedDir(env, JobOf(env, pub, b), 4))
  {
    hide Rung, Publish, CommittedDir, Sound, AllStorable, Mismatch, Fresh;
    var jobA, jobB := JobOf(env, pub, a), JobOf(env, pub, b);
    PayloadsDiffer(env, fl, m, pub, a, b);
    PublishReachesTop(env, fl, m, pub, a, root);
    SetAsideFromTop(env, jobA, root, b, jobB);
    var two := Last(Publish(env, pub, Rung(env, jobA, root, TOP), b, None));
    PublishReachesTop(env, fl, m, pub, b, two);
    OtherPayloadMismatches(env, jobB, two, a);
    MismatchIffSlotFree(env, pub, Rung(env, jobB, two, TOP), a, None, ShardPlace(pub));
    DirOnRung(env, jobB, two, TOP);
    SlotOnRung(env, jobB, two);
  }

  lemma SlotOnRung(env: Env, job: Job, root: Root)
    ensures DirAt(Rung(env, job, root, TOP), QuarantinePlace(job.pub)) == DirAt(root, QuarantinePlace(job.pub))
  {}

  lemma PayloadsDiffer(env: Env, fl: Floats, m: Math, pub: Publisher, a: seq<StoredToken>, b: seq<StoredToken>)
    requires Publishable(env, fl, m, pub.plan, a) && Publishable(env, fl, m, pub.plan, b) && a != b
    ensures env.payload(pub.plan, a).value != env.payload(pub.plan, b).value
  {
    assert env.payload(pub.plan, a) != env.payload(pub.plan, b);
  }

  // ----- shard and transaction names -----

  /** The calls come from these publishers and their rows can be published. */
  ghost predicate Admissible(env: Env, fl: Floats, m: Math, pubs: set<Publisher>, calls: seq<Call>) {
    From(pubs, calls) && forall i :: 0 <= i < |calls| ==> AllStorable(fl, m, calls[i].captures)
  }

  lemma CallReaches(env: Env, fl: Floats, m: Math, root: Root, call: Call)
    requires Publishable(env, fl, m, call.pub.plan, call.captures) && call.stop != Some(Quarantined) && call.fuse == TOP
    requires Fresh(JobOf(env, call.pub, call.captures), root)
    ensures AfterCall(env, root, call) == Rung(env, JobOf(env, call.pub, call.captures), root, StopRung(call.stop))
  {
    hide Rung, AfterCall, Fresh, Sound, AllStorable;
    StartIsRoot(env, JobOf(env, call.pub, call.captures), root);
    RetryClimbs(env, fl, m, root, Start(root), call);
  }

  lemma TwoCalls(env: Env, root: Root, first: Call, second: Call)
    ensures AfterCalls(env, root, [first, second]) == AfterCall(env, AfterCall(env, root, first), second)
  {
    hide AfterCall;
    var calls := [first, second];
    assert calls[..1] == [first] && [first][..0] == [];
    assert AfterCalls(env, root, []) == root;
    assert AfterCalls(env, root, [first]) == AfterCall(env, root, first);
  }

  /** `p` leaves one directory that `q` does not see, and `q` then makes the other. */
  lemma ClashOnRungs(env: Env, p: Job, q: Job, root: Root)
    requires Fresh(p, root) && Fresh(q, root) && p.pub.plan == q.pub.plan
    ensures p.pub.shardId == q.pub.shardId && p.pub.transactionId != q.pub.transactionId ==>
              && Fresh(q, Rung(env, p, root, 4))
              && BothExist(p.pub, Rung(env, q, Rung(env, p, root, 4), TOP))
    ensures p.pub.shardId != q.pub.shardId && p.pub.transactionId == q.pub.transactionId ==>
              && Fresh(q, Rung(env, p, root, TOP))
              && BothExist(p.pub, Rung(env, q, Rung(env, p, root, TOP), 4))
  {}

  /** Two publishers that share one name, run one after the other, leave both directories of one. */
  lemma SharedNameClash(env: Env, fl: Floats, m: Math, p: Publisher, q: Publisher, captures: seq<StoredToken>)
      returns (calls: seq<Call>)
    requires p.plan == q.plan && Publishable(env, fl, m, p.plan, captures)
    requires p.shardId == q.shardId <==> p.transactionId != q.transactionId
    ensures Admissible(env, fl, m, {p, q}, calls)
    ensures BothExist(p, AfterCalls(env, EMPTY_ROOT, calls))
  {
    hide Rung, AfterCall, Sound, AllStorable, BothExist;
    var stops := if p.shardId == q.shardId then [Some(Staging), None] else [None, Some(Staging)];
    var first, second := Call(p, captures, stops[0], TOP), Call(q, captures, stops[1], TOP);
    calls := [first, second];
    TwoCalls(env, EMPTY_ROOT, first, second);
    ClashOnRungs(env, JobOf(env, p, captures), JobOf(env, q, captures), EMPTY_ROOT);
    CallReaches(env, fl, m, EMPTY_ROOT, first);
    CallReaches(env, fl, m, AfterCall(env, EMPTY_ROOT, first), second);
  }

  lemma EmptyIsExclusive(pubs: set<Publisher>)
    ensures Exclusive(pubs, EMPTY_ROOT)
  {}

  /** The transaction and available directories of a shard never both exist, whatever calls and
      crashes the publishers of a plan make, if and only if their names are one to one. */
  lemma ExclusiveIffOneToOne(env: Env, fl: Floats, m: Math, pubs: set<Publisher>, plan: string,
                             captures: seq<StoredToken>)
    requires Publishable(env, fl, m, plan, captures)
    requires forall p :: p in pubs ==> p.plan == plan
    ensures (forall calls :: Admissible(env, fl, m, pubs, calls)
               ==> Exclusive(pubs, AfterCalls(env, EMPTY_ROOT, calls)))
       <==> OneToOne(pubs)
  {
    hide AfterCalls, Publishable, BothExist;
    if OneToOne(pubs) {
      EmptyIsExclusive(pubs);
      forall calls | Admissible(env, fl, m, pubs, calls) ensures Exclusive(pubs, AfterCalls(env, EMPTY_ROOT, calls)) {
        CallsKeepExclusive(env, pubs, EMPTY_ROOT, calls);
      }
    } else {
      var p, q :| p in pubs && q in pubs && (p.shardId == q.shardId <==> p.transactionId != q.transactionId);
      var calls := SharedNameClash(env, fl, m, p, q, captures);
      assert Admissible(env, fl, m, pubs, calls);
      assert BothExist(p, AfterCalls(env, EMPTY_ROOT, calls));
    }
  }
}
