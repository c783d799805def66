/** What one atomic step of a `publish` call can do, whatever the disk holds, and what therefore
    survives every step, every crash and every sequence of calls. */
module PublicationSteps {
  import opened Wrappers
  import opened CapturePayload
  import opened Publication
  import opened PublicationChain

  /** The atomic writes and renames a call makes. */
  datatype Step =
    | WritePlan
    | MakeDirectory
    | WritePayload(payload: string)
    | WriteNext(place: Place, manifest: Manifest)
    | Rename(from: Place, to: Place)

  /** A first manifest, or the successor of one committed in the same directory. */
  ghost predicate Chained(env: Env, dir: Dir, manifest: Manifest) {
    || (manifest.state.Staging? && manifest.previous.None? && dir.manifests == map[])
    || exists state :: state in dir.manifests && Succeeds(env, dir.manifests[state], manifest)
  }

  ghost predicate Succeeds(env: Env, file: ManifestFile, manifest: Manifest) {
    && file.Intact?
    && manifest.state in ShardTransitions(file.manifest.state)
    && manifest == Next(env, file.manifest, manifest.state)
  }

  ghost predicate Makes(env: Env, pub: Publisher, a: Root, step: Step, b: Root) {
    match step
    case WritePlan => a.plan.None? && b == a.(plan := Some(pub.plan))
    case MakeDirectory =>
      && a.plan == Some(pub.plan)
      && DirAt(a, TransactionPlace(pub)).None? && DirAt(a, ShardPlace(pub)).None?
      && b == Put(a, TransactionPlace(pub), EMPTY_DIR)
    case WritePayload(payload) =>
      && DirAt(a, TransactionPlace(pub)) == Some(EMPTY_DIR)
      && b == Put(a, TransactionPlace(pub), Dir(Some(payload), map[]))
    case WriteNext(place, manifest) =>
      && place in {TransactionPlace(pub), ShardPlace(pub), QuarantinePlace(pub)}
      && DirAt(a, place).Some?
      && manifest.state !in DirAt(a, place).value.manifests
      && Chained(env, DirAt(a, place).value, manifest)
      && b == Put(a, place, WithManifest(DirAt(a, place).value, manifest))
    case Rename(from, to) =>
      && ((from == TransactionPlace(pub) && to in {ShardPlace(pub), QuarantinePlace(pub)})
          || (from == ShardPlace(pub) && to == QuarantinePlace(pub)))
      && DirAt(a, from).Some? && DirAt(a, to).None?
      && b == Move(a, from, to)
  }

  ghost predicate AtomicStep(env: Env, pub: Publisher, a: Root, b: Root) {
    exists step :: Makes(env, pub, a, step, b)
  }

  ghost predicate Stepwise(env: Env, pub: Publisher, disks: seq<Root>) {
    forall i :: 0 < i < |disks| ==> AtomicStep(env, pub, disks[i - 1], disks[i])
  }

  // ----- every run is made of atomic steps -----

  lemma StepFirst(env: Env, pub: Publisher, a: Root, step: Step, rest: Run)
    requires rest.disks != [] && Makes(env, pub, a, step, rest.disks[0])
    requires Stepwise(env, pub, rest.disks)
    ensures Stepwise(env, pub, After(a, rest).disks)
  {
    var disks := After(a, rest).disks;
    forall i | 0 < i < |disks| ensures AtomicStep(env, pub, disks[i - 1], disks[i]) {
      assert disks[i] == rest.disks[i - 1];
      assert i > 1 ==> disks[i - 1] == rest.disks[i - 2];
    }
  }

  lemma StepwiseThen(env: Env, pub: Publisher, first: Run, second: Run)
    requires first.disks != [] && second.disks != [] && Last(first) == second.disks[0]
    requires Stepwise(env, pub, first.disks) && Stepwise(env, pub, second.disks)
    ensures Stepwise(env, pub, Then(first, second).disks)
  {
    var disks, n := Then(first, second).disks, |first.disks| - 1;
    forall i | 0 < i < |disks| ensures AtomicStep(env, pub, disks[i - 1], disks[i]) {
      if i <= n {
        assert disks[i - 1] == first.disks[i - 1];
        assert disks[i] == first.disks[i];
      } else {
        assert disks[i] == second.disks[i - n] && disks[i - 1] == second.disks[i - 1 - n];
      }
    }
  }

  /** What is known of the manifest a call goes on from. */
  ghost predicate Committed(dir: Dir, manifest: Manifest) {
    manifest.state in dir.manifests && dir.manifests[manifest.state] == Intact(manifest)
  }

  ghost predicate CommittedAt(root: Root, place: Place, manifest: Manifest) {
    DirAt(root, place).Some? && Committed(DirAt(root, place).value, manifest)
  }

  lemma WriteNextIsAStep(env: Env, pub: Publisher, root: Root, place: Place, previous: Manifest, state: ShardState)
    requires place in {TransactionPlace(pub), ShardPlace(pub), QuarantinePlace(pub)}
    requires CommittedAt(root, place, previous) && state in ShardTransitions(previous.state)
    ensures var r := WriteManifest(root, place, Next(env, previous, state));
            && Stepwise(env, pub, r.disks)
            && (r.result.Ok? ==> r.result.value == Next(env, previous, state)
                                 && CommittedAt(Last(r), place, r.result.value))
  {
    var manifest, dir := Next(env, previous, state), DirAt(root, place).value;
    if state !in dir.manifests {
      var after := Put(root, place, WithManifest(dir, manifest));
      assert Succeeds(env, dir.manifests[previous.state], manifest);
      assert Makes(env, pub, root, WriteNext(place, manifest), after);
      StepFirst(env, pub, root, WriteNext(place, manifest), Done(after, manifest));
    }
  }

  ghost predicate Own(pub: Publisher, place: Place) {
    place == TransactionPlace(pub) || place == ShardPlace(pub)
  }

  lemma MakeAvailableSteps(env: Env, pub: Publisher, root: Root, place: Place, previous: Manifest)
    requires Own(pub, place) && CommittedAt(root, place, previous) && previous.state.Verified?
    ensures Stepwise(env, pub, MakeAvailable(env, pub, root, place, previous).disks)
  {
    if place.InTransaction? && DirAt(root, ShardPlace(pub)).None? {
      var moved := Move(root, place, ShardPlace(pub));
      assert Makes(env, pub, root, Rename(place, ShardPlace(pub)), moved);
      WriteNextIsAStep(env, pub, moved, ShardPlace(pub), previous, Available);
      StepFirst(env, pub, root, Rename(place, ShardPlace(pub)),
                WriteManifest(moved, ShardPlace(pub), Next(env, previous, Available)));
    } else if !place.InTransaction? {
      WriteNextIsAStep(env, pub, root, place, previous, Available);
    }
  }

  lemma FromVerifiedSteps(env: Env, pub: Publisher, root: Root, place: Place, manifest: Manifest)
    requires Own(pub, place) && CommittedAt(root, place, manifest)
    ensures Stepwise(env, pub, FromVerified(env, pub, root, place, manifest).disks)
  {
    if manifest.state.Verified? {
      MakeAvailableSteps(env, pub, root, place, manifest);
    }
  }

  lemma FromCompleteSteps(env: Env, pub: Publisher, root: Root, place: Place, manifest: Manifest,
                          stop: Option<ShardState>)
    requires Own(pub, place) && CommittedAt(root, place, manifest)
    ensures Stepwise(env, pub, FromComplete(env, pub, root, place, manifest, stop).disks)
  {
    if !manifest.state.Complete? {
      FromVerifiedSteps(env, pub, root, place, manifest);
    } else {
      WriteNextIsAStep(env, pub, root, place, manifest, Verified);
      var written := WriteManifest(root, place, Next(env, manifest, Verified));
      if written.result.Ok? {
        FromVerifiedSteps(env, pub, Last(written), place, written.result.value);
        StepwiseThen(env, pub, written, FromVerified(env, pub, Last(written), place, written.result.value));
      }
    }
  }

  lemma ResumeSteps(env: Env, pub: Publisher, root: Root, place: Place, manifest: Manifest,
                    stop: Option<ShardState>)
    requires Own(pub, place) && CommittedAt(root, place, manifest)
    ensures Stepwise(env, pub, Resume(env, pub, root, place, manifest, stop).disks)
  {
    if !manifest.state.Staging? {
      FromCompleteSteps(env, pub, root, place, manifest, stop);
    } else {
      WriteNextIsAStep(env, pub, root, place, manifest, Complete);
      var written := WriteManifest(root, place, Next(env, manifest, Complete));
      if written.result.Ok? {
        FromCompleteSteps(env, pub, Last(written), place, written.result.value, stop);
        StepwiseThen(env, pub, written, FromComplete(env, pub, Last(written), place, written.result.value, stop));
      }
    }
  }

  lemma FillSteps(env: Env, pub: Publisher, root: Root, payload: string, rows: nat)
    requires root.plan == Some(pub.plan)
    requires DirAt(root, TransactionPlace(pub)).None? && DirAt(root, ShardPlace(pub)).None?
    ensures var r := Fill(env, pub, root, payload, rows);
            && Stepwise(env, pub, r.disks)
            && r.result == Ok(StagingManifest(env, pub, payload, rows))
            && CommittedAt(Last(r), TransactionPlace(pub), r.result.value)
  {
    var place, manifest := TransactionPlace(pub), StagingManifest(env, pub, payload, rows);
    var made := Put(root, place, EMPTY_DIR);
    var filled := Put(made, place, Dir(Some(payload), map[]));
    var staged := Put(filled, place, WithManifest(Dir(Some(payload), map[]), manifest));
    assert Makes(env, pub, filled, WriteNext(place, manifest), staged);
    StepFirst(env, pub, filled, WriteNext(place, manifest), Done(staged, manifest));
    var written := WriteManifest(filled, place, manifest);
    assert written == After(filled, Done(staged, manifest));
    StepFirst(env, pub, made, WritePayload(payload), written);
    StepFirst(env, pub, root, MakeDirectory, After(made, written));
  }

  lemma StageSteps(env: Env, pub: Publisher, root: Root, payload: string, rows: nat)
    ensures var r := Stage(env, pub, root, payload, rows);
            && Stepwise(env, pub, r.disks)
            && (r.result.Ok? ==> CommittedAt(Last(r), TransactionPlace(pub), r.result.value))
  {
    var bound := root.(plan := Some(pub.plan));
    if DirAt(root, TransactionPlace(pub)).None? && DirAt(root, ShardPlace(pub)).None? {
      if root.plan.None? {
        FillSteps(env, pub, bound, payload, rows);
        StepFirst(env, pub, root, WritePlan, Fill(env, pub, bound, payload, rows));
      } else if root.plan == Some(pub.plan) {
        FillSteps(env, pub, root, payload, rows);
      }
    }
  }

  lemma SetAsideSteps(env: Env, pub: Publisher, root: Root, place: Place, previous: Manifest)
    requires Own(pub, place) && CommittedAt(root, place, previous) && !previous.state.Quarantined?
    ensures Stepwise(env, pub, SetAside(env, pub, root, place, previous).disks)
  {
    var target := QuarantinePlace(pub);
    if DirAt(root, target).None? {
      var moved := Move(root, place, target);
      WriteNextIsAStep(env, pub, moved, target, previous, Quarantined);
      var written := WriteManifest(moved, target, Next(env, previous, Quarantined));
      assert Makes(env, pub, root, Rename(place, target), moved);
      var error := if written.result.Err? then written.result.error else CorruptOrMismatched;
      StepFirst(env, pub, root, Rename(place, target), Run(written.disks, Err(error)));
    }
  }

  lemma LastIsCommitted(env: Env, pub: Publisher, dir: Dir)
    requires LastManifest(env, pub, dir).Ok?
    ensures Committed(dir, LastManifest(env, pub, dir).value)
    ensures !LastManifest(env, pub, dir).value.state.Quarantined?
  {
    hide LastManifest;
    var n := AcceptedIsChain(env, pub, dir);
    assert Linked(env, pub, dir, n - 1);
  }

  lemma FoundIsCommitted(env: Env, pub: Publisher, root: Root)
    requires Inspect(env, pub, root).Ok? && Inspect(env, pub, root).value.Some?
    ensures var found := Inspect(env, pub, root).value.value;
            && Own(pub, found.place) && CommittedAt(root, found.place, found.manifest)
            && !found.manifest.state.Quarantined?
  {
    var found := Inspect(env, pub, root).value.value;
    LastIsCommitted(env, pub, DirAt(root, found.place).value);
  }

  /** Whatever the disk holds, a call only ever makes atomic steps of the five kinds. */
  lemma PublishIsStepwise(env: Env, pub: Publisher, root: Root, captures: seq<StoredToken>, stop: Option<ShardState>)
    ensures Stepwise(env, pub, Publish(env, pub, root, captures, stop).disks)
  {
    if stop != Some(Quarantined) && env.payload(pub.plan, captures).Ok? {
      PublishPayloadSteps(env, pub, root, env.payload(pub.plan, captures).value, |captures|, stop);
    }
  }

  lemma PublishPayloadSteps(env: Env, pub: Publisher, root: Root, payload: string, rows: nat, stop: Option<ShardState>)
    ensures Stepwise(env, pub, PublishPayload(env, pub, root, payload, rows, stop).disks)
  {
    match Inspect(env, pub, root)
    case Err(_) =>
    case Ok(None) =>
      StageSteps(env, pub, root, payload, rows);
      var staged := Stage(env, pub, root, payload, rows);
      if staged.result.Ok? {
        ResumeSteps(env, pub, Last(staged), TransactionPlace(pub), staged.result.value, stop);
        StepwiseThen(env, pub, staged,
                     Resume(env, pub, Last(staged), TransactionPlace(pub), staged.result.value, stop));
      }
    case Ok(Some(found)) =>
      FoundIsCommitted(env, pub, root);
      ResumeSteps(env, pub, root, found.place, found.manifest, stop);
      SetAsideSteps(env, pub, root, found.place, found.manifest);
  }

  // ----- what every step keeps -----

  /** A directory that lost nothing: payload and manifests are still there, unaltered. */
  ghost predicate Extends(before: Dir, after: Dir) {
    && (before.payload.Some? ==> after.payload == before.payload)
    && forall state :: state in before.manifests ==>
         state in after.manifests && after.manifests[state] == before.manifests[state]
  }

  ghost predicate Kept(dir: Dir, root: Root) {
    exists place :: DirAt(root, place).Some? && Extends(dir, DirAt(root, place).value)
  }

  ghost predicate NothingLost(before: Root, after: Root) {
    && (before.plan.Some? ==> after.plan == before.plan)
    && forall place :: DirAt(before, place).Some? ==> Kept(DirAt(before, place).value, after)
  }

  /** Where the directory at `place` is after the step. */
  function Moved(step: Step, place: Place): Place {
    if step.Rename? && step.from == place then step.to else place
  }

  lemma StepKeepsDirectory(env: Env, pub: Publisher, a: Root, step: Step, b: Root, place: Place)
    requires Makes(env, pub, a, step, b) && DirAt(a, place).Some?
    ensures DirAt(b, Moved(step, place)).Some?
    ensures Extends(DirAt(a, place).value, DirAt(b, Moved(step, place)).value)
  {
    match step
    case WriteNext(at, _) => assert at != place ==> DirAt(b, place) == DirAt(a, place);
    case Rename(from, to) => assert from != place ==> DirAt(b, place) == DirAt(a, place);
    case _ =>
  }

  lemma StepLosesNothing(env: Env, pub: Publisher, a: Root, step: Step, b: Root)
    requires Makes(env, pub, a, step, b)
    ensures NothingLost(a, b)
  {
    forall place | DirAt(a, place).Some? ensures Kept(DirAt(a, place).value, b) {
      StepKeepsDirectory(env, pub, a, step, b, place);
    }
  }

  lemma NothingLostTransitive(a: Root, b: Root, c: Root)
    requires NothingLost(a, b) && NothingLost(b, c)
    ensures NothingLost(a, c)
  {
    forall place | DirAt(a, place).Some? ensures Kept(DirAt(a, place).value, c) {
      var there :| DirAt(b, there).Some? && Extends(DirAt(a, place).value, DirAt(b, there).value);
      assert Kept(DirAt(b, there).value, c);
      var end :| DirAt(c, end).Some? && Extends(DirAt(b, there).value, DirAt(c, end).value);
      assert Extends(DirAt(a, place).value, DirAt(c, end).value);
    }
  }

  lemma NothingLostReflexive(a: Root)
    ensures NothingLost(a, a)
  {
    forall place | DirAt(a, place).Some? ensures Kept(DirAt(a, place).value, a) {
      assert Extends(DirAt(a, place).value, DirAt(a, place).value);
    }
  }

  /** A shard id and a transaction id that are used together are never used with another partner. */
  ghost predicate OneToOne(pubs: set<Publisher>) {
    forall p, q :: p in pubs && q in pubs ==> (p.shardId == q.shardId <==> p.transactionId == q.transactionId)
  }

  ghost predicate BothExist(pub: Publisher, root: Root) {
    DirAt(root, TransactionPlace(pub)).Some? && DirAt(root, ShardPlace(pub)).Some?
  }

  ghost predicate Exclusive(pubs: set<Publisher>, root: Root) {
    forall p :: p in pubs ==> !BothExist(p, root)
  }

  lemma StepKeepsExclusive(env: Env, pubs: set<Publisher>, pub: Publisher, a: Root, step: Step, b: Root)
    requires OneToOne(pubs) && pub in pubs
    requires Makes(env, pub, a, step, b) && Exclusive(pubs, a)
    ensures Exclusive(pubs, b)
  {
    forall p | p in pubs ensures !BothExist(p, b) {
      assert !BothExist(p, a);
      assert p.shardId == pub.shardId <==> p.transactionId == pub.transactionId;
    }
  }

  // ----- runs and sequences of calls -----

  lemma {:induction false} RunLosesNothing(env: Env, pub: Publisher, disks: seq<Root>, i: nat)
    requires Stepwise(env, pub, disks) && i < |disks|
    ensures NothingLost(disks[0], disks[i])
  {
    if i == 0 {
      NothingLostReflexive(disks[0]);
    } else {
      RunLosesNothing(env, pub, disks, i - 1);
      assert AtomicStep(env, pub, disks[i - 1], disks[i]);
      var step :| Makes(env, pub, disks[i - 1], step, disks[i]);
      StepLosesNothing(env, pub, disks[i - 1], step, disks[i]);
      NothingLostTransitive(disks[0], disks[i - 1], disks[i]);
    }
  }

  lemma {:induction false} RunKeepsExclusive(env: Env, pubs: set<Publisher>, pub: Publisher, disks: seq<Root>, i: nat)
    requires OneToOne(pubs) && pub in pubs
    requires Stepwise(env, pub, disks) && i < |disks| && Exclusive(pubs, disks[0])
    ensures Exclusive(pubs, disks[i])
  {
    if i > 0 {
      RunKeepsExclusive(env, pubs, pub, disks, i - 1);
      assert AtomicStep(env, pub, disks[i - 1], disks[i]);
      var step :| Makes(env, pub, disks[i - 1], step, disks[i]);
      StepKeepsExclusive(env, pubs, pub, disks[i - 1], step, disks[i]);
    }
  }

  /** One call and the number of atomic steps it may make before it crashes. */
  datatype Call = Call(pub: Publisher, captures: seq<StoredToken>, stop: Option<ShardState>, fuse: nat)

  function AfterCall(env: Env, root: Root, call: Call): Root {
    DiskAfter(Publish(env, call.pub, root, call.captures, call.stop), call.fuse)
  }

  function AfterCalls(env: Env, root: Root, calls: seq<Call>): Root {
    if calls == [] then root
    else AfterCall(env, AfterCalls(env, root, calls[..|calls| - 1]), calls[|calls| - 1])
  }

  lemma CallLosesNothing(env: Env, root: Root, call: Call)
    ensures NothingLost(root, AfterCall(env, root, call))
  {
    var run := Publish(env, call.pub, root, call.captures, call.stop);
    PublishIsStepwise(env, call.pub, root, call.captures, call.stop);
    RunLosesNothing(env, call.pub, run.disks, if call.fuse < |run.disks| then call.fuse else |run.disks| - 1);
  }

  /** From any disk, no calls and no crashes change `plan.json` or lose any payload or manifest. */
  lemma {:induction false} CallsLoseNothing(env: Env, root: Root, calls: seq<Call>)
    ensures NothingLost(root, AfterCalls(env, root, calls))
  {
    if calls == [] {
      NothingLostReflexive(root);
    } else {
      var before := AfterCalls(env, root, calls[..|calls| - 1]);
      CallsLoseNothing(env, root, calls[..|calls| - 1]);
      CallLosesNothing(env, before, calls[|calls| - 1]);
      NothingLostTransitive(root, before, AfterCalls(env, root, calls));
    }
  }

  ghost predicate From(pubs: set<Publisher>, calls: seq<Call>) {
    forall i :: 0 <= i < |calls| ==> calls[i].pub in pubs
  }

  lemma {:induction false} CallsKeepExclusive(env: Env, pubs: set<Publisher>, root: Root, calls: seq<Call>)
    requires OneToOne(pubs) && From(pubs, calls) && Exclusive(pubs, root)
    ensures Exclusive(pubs, AfterCalls(env, root, calls))
  {
    if calls != [] {
      var call := calls[|calls| - 1];
      var before := AfterCalls(env, root, calls[..|calls| - 1]);
      CallsKeepExclusive(env, pubs, root, calls[..|calls| - 1]);
      var run := Publish(env, call.pub, before, call.captures, call.stop);
      PublishIsStepwise(env, call.pub, before, call.captures, call.stop);
      RunKeepsExclusive(env, pubs, call.pub, run.disks,
                        if call.fuse < |run.disks| then call.fuse else |run.disks| - 1);
    }
  }
}
