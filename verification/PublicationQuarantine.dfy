/** When a call sets a directory aside, and when publishers share a quarantine slot. */
module PublicationQuarantine {
  import opened Wrappers
  import opened Reals
  import opened Json
  import opened CapturePayload
  import opened Publication
  import opened PublicationSteps
  import opened PublicationLadder
  import opened PublicationRecovery
  import opened PublicationTogether

  // ----- a call that does not set its directory aside leaves the slot alone -----

  ghost predicate KeepsSlot(pub: Publisher, root: Root, r: Run) {
    r.disks != [] && DirAt(Last(r), QuarantinePlace(pub)) == DirAt(root, QuarantinePlace(pub))
  }

  lemma WriteKeepsSlot(pub: Publisher, root: Root, place: Place, manifest: Manifest)
    requires DirAt(root, place).Some? && !place.InQuarantine?
    ensures KeepsSlot(pub, root, WriteManifest(root, place, manifest))
  {}

  lemma ThenKeepsSlot(pub: Publisher, root: Root, first: Run, second: Run)
    requires KeepsSlot(pub, root, first) && second.disks != [] && KeepsSlot(pub, Last(first), second)
    ensures KeepsSlot(pub, root, Then(first, second))
  {
    assert Last(Then(first, second)) == Last(second);
  }

  lemma MakeAvailableKeepsSlot(env: Env, pub: Publisher, root: Root, place: Place, manifest: Manifest)
    requires Own(pub, place) && DirAt(root, place).Some?
    ensures KeepsSlot(pub, root, MakeAvailable(env, pub, root, place, manifest))
  {
    hide WriteManifest;
    var next := Next(env, manifest, Available);
    if !place.InTransaction? {
      WriteKeepsSlot(pub, root, place, next);
    } else if DirAt(root, ShardPlace(pub)).None? {
      var moved := Move(root, place, ShardPlace(pub));
      WriteKeepsSlot(pub, moved, ShardPlace(pub), next);
      var rest := WriteManifest(moved, ShardPlace(pub), next);
      assert Last(After(root, rest)) == Last(rest);
    }
  }

  lemma FromCompleteKeepsSlot(env: Env, pub: Publisher, root: Root, place: Place, manifest: Manifest,
                              stop: Option<ShardState>)
    requires Own(pub, place) && DirAt(root, place).Some?
    ensures KeepsSlot(pub, root, FromComplete(env, pub, root, place, manifest, stop))
  {
    hide MakeAvailable, SemanticsHold, WriteManifest;
    if !manifest.state.Complete? {
      MakeAvailableKeepsSlot(env, pub, root, place, manifest);
    } else {
      var written := WriteManifest(root, place, Next(env, manifest, Verified));
      WriteKeepsSlot(pub, root, place, Next(env, manifest, Verified));
      WriteKeepsPlace(root, place, Next(env, manifest, Verified));
      if written.result.Ok? {
        MakeAvailableKeepsSlot(env, pub, Last(written), place, written.result.value);
        ThenKeepsSlot(pub, root, written, FromVerified(env, pub, Last(written), place, written.result.value));
      }
    }
  }

  lemma WriteKeepsPlace(root: Root, place: Place, manifest: Manifest)
    requires DirAt(root, place).Some?
    ensures DirAt(Last(WriteManifest(root, place, manifest)), place).Some?
  {}

  lemma ResumeKeepsSlot(env: Env, pub: Publisher, root: Root, place: Place, manifest: Manifest,
                        stop: Option<ShardState>)
    requires Own(pub, place) && DirAt(root, place).Some?
    ensures KeepsSlot(pub, root, Resume(env, pub, root, place, manifest, stop))
  {
    hide FromComplete, WriteManifest;
    if !manifest.state.Staging? {
      FromCompleteKeepsSlot(env, pub, root, place, manifest, stop);
    } else {
      var written := WriteManifest(root, place, Next(env, manifest, Complete));
      WriteKeepsSlot(pub, root, place, Next(env, manifest, Complete));
      WriteKeepsPlace(root, place, Next(env, manifest, Complete));
      if written.result.Ok? {
        FromCompleteKeepsSlot(env, pub, Last(written), place, written.result.value, stop);
        ThenKeepsSlot(pub, root, written, FromComplete(env, pub, Last(written), place, written.result.value, stop));
      }
    }
  }

  // ----- which directories are set aside -----

  lemma FoundIsThere(env: Env, pub: Publisher, root: Root, place: Place)
    requires Own(pub, place) && DirAt(root, place).Some? && Inspect(env, pub, root).Ok?
    ensures Inspect(env, pub, root).value.Some? && Inspect(env, pub, root).value.value.place == place
  {
    hide LastManifest;
  }

  /** On any disk, damaged or not: what a call finds in its place is set aside if and only if its
      manifests are accepted, the directory does not match, and the slot is free. Where inspection
      fails the call changes nothing at all. */
  lemma SetAsideIff(env: Env, pub: Publisher, root: Root, captures: seq<StoredToken>, stop: Option<ShardState>,
                    place: Place)
    requires Own(pub, place) && DirAt(root, place).Some?
    requires env.payload(pub.plan, captures).Ok? && stop != Some(Quarantined)
    ensures var r, slot := Publish(env, pub, root, captures, stop), QuarantinePlace(pub);
            && (DirAt(Last(r), slot) != DirAt(root, slot) <==>
                  Mismatch(env, pub, root, captures, place) && DirAt(root, slot).None?)
            && (Inspect(env, pub, root).Err? ==> r == Refused(root, Inspect(env, pub, root).error))
  {
    hide Inspect, IntegrityMatches, Resume, SetAside, LastManifest;
    if Inspect(env, pub, root).Ok? {
      FoundIsThere(env, pub, root, place);
      var found := Inspect(env, pub, root).value.value;
      if Mismatch(env, pub, root, captures, place) {
        MismatchIffSlotFree(env, pub, root, captures, stop, place);
      } else {
        ResumeKeepsSlot(env, pub, root, place, found.manifest, stop);
      }
    }
  }

  lemma RefusedCall(env: Env, pub: Publisher, root: Root, call: Call)
    requires Inspect(env, pub, root).Err? && call.pub == pub
    ensures AfterCall(env, root, call) == root
  {
    hide Inspect;
  }

  /** A directory that inspection refuses is never moved: no calls of its publisher change the disk. */
  lemma {:induction false} RefusedForever(env: Env, pub: Publisher, root: Root, calls: seq<Call>)
    requires Inspect(env, pub, root).Err? && From({pub}, calls)
    ensures AfterCalls(env, root, calls) == root
  {
    hide Inspect, AfterCall;
    if calls != [] {
      RefusedForever(env, pub, root, calls[..|calls| - 1]);
      assert calls[|calls| - 1].pub in {pub};
      RefusedCall(env, pub, root, calls[|calls| - 1]);
    }
  }

  /** A transaction whose staging manifest cannot be read. */
  function DamagedRoot(pub: Publisher): Root {
    Put(EMPTY_ROOT.(plan := Some(pub.plan)), TransactionPlace(pub), Dir(None, map[Staging := Damaged]))
  }

  /** A corrupt directory stays in the way of its publisher for good. */
  lemma DamagedIsNeverSetAside(env: Env, pub: Publisher, calls: seq<Call>)
    requires From({pub}, calls)
    ensures Inspect(env, pub, DamagedRoot(pub)) == Err(InvalidManifest)
    ensures AfterCalls(env, DamagedRoot(pub), calls) == DamagedRoot(pub)
  {
    DamagedIsRefused(env, pub);
    RefusedForever(env, pub, DamagedRoot(pub), calls);
  }

  lemma DamagedIsRefused(env: Env, pub: Publisher)
    ensures Inspect(env, pub, DamagedRoot(pub)) == Err(InvalidManifest)
  {
    var dir := Dir(None, map[Staging := Damaged]);
    assert ReadManifests(dir, 0) == Ok([]) && ReadManifests(dir, 1) == Err(InvalidManifest);
    assert ReadManifests(dir, 2) == ReadManifests(dir, 3) == ReadManifests(dir, 4) == Err(InvalidManifest);
    assert DirAt(DamagedRoot(pub), TransactionPlace(pub)) == Some(dir);
  }

  // ----- shared slots -----

  /** The shard id of `q` goes on, behind a dot, where that of `p` ends, and into its transaction id. */
  ghost predicate RunsInto(p: Publisher, q: Publisher) {
    exists middle: string :: q.shardId == p.shardId + ("." + middle)
                             && p.transactionId == middle + ("." + q.transactionId)
  }

  lemma SlotNamesSplit(p: Publisher, q: Publisher)
    requires QuarantinePlace(p) == QuarantinePlace(q) && |p.shardId| < |q.shardId|
    ensures RunsInto(p, q)
  {
    var name := p.shardId + "." + p.transactionId;
    var k := |p.shardId|;
    assert name == q.shardId + "." + q.transactionId;
    var middle := q.shardId[k + 1..];
    assert q.shardId == name[..|q.shardId|] && name[..k] == p.shardId && name[k] == '.';
    assert q.shardId[..k] == name[..k] && q.shardId[k] == name[k];
    assert q.shardId == q.shardId[..k] + ([q.shardId[k]] + middle);
    assert p.transactionId == name[k + 1..];
    assert name[k + 1..] == name[k + 1..|q.shardId|] + name[|q.shardId|..];
    assert name[k + 1..|q.shardId|] == middle && name[|q.shardId|..] == "." + q.transactionId;
  }

  lemma SameLengthSameShard(p: Publisher, q: Publisher)
    requires QuarantinePlace(p) == QuarantinePlace(q) && |p.shardId| == |q.shardId|
    ensures p.shardId == q.shardId
  {
    var name := p.shardId + "." + p.transactionId;
    assert name == q.shardId + "." + q.transactionId;
    assert p.shardId == name[..|p.shardId|] == q.shardId;
  }

  lemma RunsIntoShares(p: Publisher, q: Publisher)
    requires RunsInto(p, q)
    ensures QuarantinePlace(p) == QuarantinePlace(q)
  {
    var middle: string :| q.shardId == p.shardId + ("." + middle)
                          && p.transactionId == middle + ("." + q.transactionId);
    assert p.shardId + "." + (middle + ("." + q.transactionId)) == p.shardId + ("." + middle) + "." + q.transactionId;
  }

  /** Publishers of different shards share a slot exactly when one name runs into the other. */
  lemma SharedSlotIff(p: Publisher, q: Publisher)
    requires p.shardId != q.shardId
    ensures QuarantinePlace(p) == QuarantinePlace(q) <==> RunsInto(p, q) || RunsInto(q, p)
  {
    if QuarantinePlace(p) == QuarantinePlace(q) {
      if |p.shardId| < |q.shardId| {
        SlotNamesSplit(p, q);
      } else if |q.shardId| < |p.shardId| {
        SlotNamesSplit(q, p);
      } else {
        SameLengthSameShard(p, q);
      }
    }
    if RunsInto(p, q) {
      RunsIntoShares(p, q);
    }
    if RunsInto(q, p) {
      RunsIntoShares(q, p);
    }
  }

  lemma StepKeepsOtherSlot(env: Env, p: Publisher, q: Publisher, a: Root, step: Step, b: Root)
    requires QuarantinePlace(p) != QuarantinePlace(q) && Makes(env, p, a, step, b)
    ensures DirAt(b, QuarantinePlace(q)) == DirAt(a, QuarantinePlace(q))
  {}

  lemma {:induction false} RunKeepsOtherSlot(env: Env, p: Publisher, q: Publisher, disks: seq<Root>, i: nat)
    requires QuarantinePlace(p) != QuarantinePlace(q) && Stepwise(env, p, disks) && i < |disks|
    ensures DirAt(disks[i], QuarantinePlace(q)) == DirAt(disks[0], QuarantinePlace(q))
  {
    hide Makes;
    if i > 0 {
      RunKeepsOtherSlot(env, p, q, disks, i - 1);
      assert AtomicStep(env, p, disks[i - 1], disks[i]);
      var step :| Makes(env, p, disks[i - 1], step, disks[i]);
      StepKeepsOtherSlot(env, p, q, disks[i - 1], step, disks[i]);
    }
  }

  lemma CallKeepsOtherSlot(env: Env, q: Publisher, root: Root, call: Call)
    requires QuarantinePlace(call.pub) != QuarantinePlace(q)
    ensures DirAt(AfterCall(env, root, call), QuarantinePlace(q)) == DirAt(root, QuarantinePlace(q))
  {
    hide Publish, Stepwise;
    var run := Publish(env, call.pub, root, call.captures, call.stop);
    PublishIsStepwise(env, call.pub, root, call.captures, call.stop);
    RunKeepsOtherSlot(env, call.pub, q, run.disks, if call.fuse < |run.disks| then call.fuse else |run.disks| - 1);
  }

  /** The first half of the next two: `p` publishes `a`, then `b`, and so fills its slot. */
  lemma FillsSlot(env: Env, fl: Floats, m: Math, p: Publisher, a: seq<StoredToken>, b: seq<StoredToken>)
    requires Publishable(env, fl, m, p.plan, a) && Publishable(env, fl, m, p.plan, b) && a != b
    ensures var one := Last(Publish(env, p, EMPTY_ROOT, a, None));
            && DirAt(one, QuarantinePlace(p)).None?
            && DirAt(Last(Publish(env, p, one, b, None)), QuarantinePlace(p)).Some?
  {
    hide Rung, Publish, Sound, AllStorable, Mismatch, Fresh;
    var job := JobOf(env, p, a);
    EmptyIsFresh(job);
    PayloadsDiffer(env, fl, m, p, a, b);
    PublishReachesTop(env, fl, m, p, a, EMPTY_ROOT);
    SlotOnRung(env, job, EMPTY_ROOT);
    SetAsideFromTop(env, job, EMPTY_ROOT, b, JobOf(env, p, b));
  }

  lemma EmptyIsFresh(job: Job)
    ensures Fresh(job, EMPTY_ROOT) && DirAt(EMPTY_ROOT, QuarantinePlace(job.pub)).None?
  {}

  lemma WholeCall(env: Env, pub: Publisher, root: Root, captures: seq<StoredToken>) returns (call: Call)
    ensures call.pub == pub && AfterCall(env, root, call) == Last(Publish(env, pub, root, captures, None))
  {
    hide Publish;
    call := Call(pub, captures, None, |Publish(env, pub, root, captures, None).disks|);
  }

  /** No call of one publisher ever touches the slot of another if and only if the slots differ. */
  lemma SlotsApartIff(env: Env, fl: Floats, m: Math, p: Publisher, q: Publisher,
                      a: seq<StoredToken>, b: seq<StoredToken>)
    requires Publishable(env, fl, m, p.plan, a) && Publishable(env, fl, m, p.plan, b) && a != b
    ensures (forall root, call: Call :: call.pub == p ==>
               DirAt(AfterCall(env, root, call), QuarantinePlace(q)) == DirAt(root, QuarantinePlace(q)))
       <==> QuarantinePlace(p) != QuarantinePlace(q)
  {
    hide AfterCall, Publish, Publishable;
    if QuarantinePlace(p) != QuarantinePlace(q) {
      forall root, call: Call | call.pub == p
        ensures DirAt(AfterCall(env, root, call), QuarantinePlace(q)) == DirAt(root, QuarantinePlace(q))
      {
        CallKeepsOtherSlot(env, q, root, call);
      }
    } else {
      FillsSlot(env, fl, m, p, a, b);
      var one := Last(Publish(env, p, EMPTY_ROOT, a, None));
      var call := WholeCall(env, p, one, b);
      assert DirAt(AfterCall(env, one, call), QuarantinePlace(q)) != DirAt(one, QuarantinePlace(q));
    }
  }

  /** Names that are one to one are not enough: once `p` has filled a slot that `q` shares, a
      mismatching shard of `q` can no longer be set aside. */
  lemma SharedSlotBlocks(env: Env, fl: Floats, m: Math, p: Publisher, q: Publisher,
                         a: seq<StoredToken>, b: seq<StoredToken>)
    requires Apart(p, q) && QuarantinePlace(p) == QuarantinePlace(q)
    requires Publishable(env, fl, m, p.plan, a) && Publishable(env, fl, m, p.plan, b) && a != b
    ensures var one := Last(Publish(env, p, EMPTY_ROOT, a, None));
            var two := Last(Publish(env, p, one, b, None));
            var three := Last(Publish(env, q, two, a, None));
            && Publish(env, q, three, b, None) == Refused(three, QuarantineOccupied)
            && DirAt(three, ShardPlace(q)) == Some(CommittedDir(env, JobOf(env, q, a), 4))
  {
    hide Rung, Publish, CommittedDir, Sound, AllStorable, Mismatch, Fresh, AfterCall;
    var one := Last(Publish(env, p, EMPTY_ROOT, a, None));
    var two := Last(Publish(env, p, one, b, None));
    var job := JobOf(env, q, a);
    FillsSlot(env, fl, m, p, a, b);
    StillFresh(env, p, job, EMPTY_ROOT, a);
    StillFresh(env, p, job, one, b);
    PublishReachesTop(env, fl, m, q, a, two);
    SlotOnRung(env, job, two);
    PayloadsDiffer(env, fl, m, q, a, b);
    OtherPayloadMismatches(env, job, two, b);
    MismatchIffSlotFree(env, q, Rung(env, job, two, TOP), b, None, ShardPlace(q));
    DirOnRung(env, job, two, TOP);
  }

  /** Another publisher's call leaves no directory of this one. */
  lemma StillFresh(env: Env, p: Publisher, job: Job, root: Root, captures: seq<StoredToken>)
    requires Apart(p, job.pub) && (root == EMPTY_ROOT || Fresh(job, root))
    ensures Fresh(job, Last(Publish(env, p, root, captures, None)))
  {
    hide Publish, AfterCall;
    var call := WholeCall(env, p, root, captures);
    CallKeepsView(env, job.pub, root, call);
  }

  /** Two publishers with one-to-one names and one slot: ("a.b", "c") and ("a", "b.c"). */
  lemma DottedNames(plan: string)
    ensures var p, q := Publisher(plan, "a.b", "c"), Publisher(plan, "a", "b.c");
            OneToOne({p, q}) && Apart(p, q) && QuarantinePlace(p) == QuarantinePlace(q)
  {
    assert "a.b" + "." + "c" == "a.b.c" == "a" + "." + "b.c";
  }
}
