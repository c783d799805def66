/** What a successful call guarantees, whatever the disk held before it. */
module PublicationSuccess {
  import opened Wrappers
  import opened Reals
  import opened Json
  import opened CapturePayload
  import opened Publication
  import opened PublicationChain
  import opened PublicationSteps
  import opened PublicationLadder
  import opened PublicationRecovery

  // ----- success, on any disk -----

  /** The next call finds `m` in `place` and passes every integrity check on it. */
  ghost predicate Good(env: Env, pub: Publisher, root: Root, place: Place, m: Manifest, payload: string) {
    && Own(pub, place) && DirAt(root, place).Some?
    && Inspect(env, pub, root) == Ok(Some(Found(place, m)))
    && IntegrityMatches(env, pub, root, DirAt(root, place).value, m, payload)
  }

  ghost predicate GoodRun(env: Env, pub: Publisher, r: Run, payload: string, stop: Option<ShardState>) {
    && r.disks != []
    && (r.result.Ok? ==> exists place :: Good(env, pub, Last(r), place, r.result.value, payload))
    && (r.result.Ok? && stop.None? ==> r.result.value.state == Available)
  }

  lemma GoodEnd(env: Env, pub: Publisher, r: Run, place: Place, m: Manifest, payload: string, stop: Option<ShardState>)
    requires r.disks != [] && r.result == Ok(m) && Good(env, pub, Last(r), place, m, payload)
    requires stop.None? ==> m.state == Available
    ensures GoodRun(env, pub, r, payload, stop)
  {}

  function Index(state: ShardState): (i: nat)
    requires !state.Quarantined?
    ensures i < |STATES| && STATES[i] == state
  {
    match state
    case Staging => 0
    case Complete => 1
    case Verified => 2
    case _ => 3
  }

  lemma GoodChain(env: Env, pub: Publisher, root: Root, place: Place, m: Manifest, payload: string)
    requires Good(env, pub, root, place, m, payload)
    ensures LastManifest(env, pub, DirAt(root, place).value) == Ok(m)
    ensures !m.state.Quarantined?
    ensures ChainOf(env, pub, DirAt(root, place).value, Index(m.state) + 1)
    ensures ManifestIn(DirAt(root, place).value, Index(m.state)) == Some(m)
  {
    hide LastManifest, IntegrityMatches, ChainOf, Linked;
    var dir := DirAt(root, place).value;
    assert LastManifest(env, pub, dir) == Ok(m);
    LastOfChain(env, pub, dir, m);
  }

  lemma LastOfChain(env: Env, pub: Publisher, dir: Dir, m: Manifest)
    requires LastManifest(env, pub, dir) == Ok(m)
    ensures !m.state.Quarantined?
    ensures ChainOf(env, pub, dir, Index(m.state) + 1) && ManifestIn(dir, Index(m.state)) == Some(m)
  {
    hide LastManifest;
    var n := AcceptedIsChain(env, pub, dir);
    assert Linked(env, pub, dir, n - 1);
    StatesDiffer();
  }

  lemma InspectsTo(env: Env, pub: Publisher, root: Root, place: Place, m: Manifest)
    requires Own(pub, place) && DirAt(root, place).Some?
    requires DirAt(root, if place == ShardPlace(pub) then TransactionPlace(pub) else ShardPlace(pub)).None?
    requires LastManifest(env, pub, DirAt(root, place).value) == Ok(m)
    ensures Inspect(env, pub, root) == Ok(Some(Found(place, m)))
  {}

  lemma OtherIsFree(env: Env, pub: Publisher, root: Root, place: Place, m: Manifest)
    requires Own(pub, place) && Inspect(env, pub, root) == Ok(Some(Found(place, m)))
    ensures DirAt(root, if place == ShardPlace(pub) then TransactionPlace(pub) else ShardPlace(pub)).None?
  {}

  lemma NextKeepsIntegrity(env: Env, pub: Publisher, root: Root, after: Root, dir: Dir, m: Manifest, state: ShardState,
                           payload: string)
    requires IntegrityMatches(env, pub, root, dir, m, payload) && after.plan == root.plan
    ensures IntegrityMatches(env, pub, after, WithManifest(dir, Next(env, m, state)), Next(env, m, state), payload)
  {}

  /** Committing the next state keeps a good directory good. */
  lemma GoodRises(env: Env, pub: Publisher, root: Root, place: Place, m: Manifest, payload: string)
    returns (after: Root)
    requires Good(env, pub, root, place, m, payload) && !m.state.Available?
    ensures !m.state.Quarantined?
    ensures var next := Next(env, m, STATES[Index(m.state) + 1]);
            && WriteManifest(root, place, next) == Run([root, after], Ok(next))
            && Good(env, pub, after, place, next, payload)
  {
    hide LastManifest, IntegrityMatches, ChainOf, Inspect;
    GoodChain(env, pub, root, place, m, payload);
    var dir, n := DirAt(root, place).value, Index(m.state) + 1;
    var next := Next(env, m, STATES[n]);
    ChainGrows(env, pub, dir, n);
    after := Put(root, place, WithManifest(dir, next));
    OtherIsFree(env, pub, root, place, m);
    InspectsTo(env, pub, after, place, next);
    NextKeepsIntegrity(env, pub, root, after, dir, m, STATES[n], payload);
  }

  lemma GoodMoves(env: Env, pub: Publisher, root: Root, m: Manifest, payload: string)
    requires Good(env, pub, root, TransactionPlace(pub), m, payload)
    ensures DirAt(root, ShardPlace(pub)).None?
    ensures Good(env, pub, Move(root, TransactionPlace(pub), ShardPlace(pub)), ShardPlace(pub), m, payload)
  {}

  lemma GoodFromVerified(env: Env, pub: Publisher, root: Root, place: Place, m: Manifest, payload: string)
    requires Good(env, pub, root, place, m, payload) && m.state in {Verified, Available}
    ensures GoodRun(env, pub, FromVerified(env, pub, root, place, m), payload, None)
  {
    hide Good, WriteManifest, Move;
    GoodPlaces(env, pub, root, place, m, payload);
    if m.state.Verified? {
      if place.InTransaction? {
        GoodMoves(env, pub, root, m, payload);
        var moved := Move(root, place, ShardPlace(pub));
        var after := GoodRises(env, pub, moved, ShardPlace(pub), m, payload);
        GoodEnd(env, pub, MakeAvailable(env, pub, root, place, m), ShardPlace(pub), Next(env, m, Available),
            payload, None);
      } else {
        var after := GoodRises(env, pub, root, place, m, payload);
        GoodEnd(env, pub, MakeAvailable(env, pub, root, place, m), place, Next(env, m, Available), payload, None);
      }
    } else {
      GoodEnd(env, pub, Done(root, m), place, m, payload, None);
    }
  }

  lemma GoodPlaces(env: Env, pub: Publisher, root: Root, place: Place, m: Manifest, payload: string)
    requires Good(env, pub, root, place, m, payload)
    ensures Own(pub, place) && DirAt(root, place).Some? && (place.InTransaction? ==> place == TransactionPlace(pub))
    ensures SemanticsHold(env, pub.plan, DirAt(root, place).value, m)
  {}

  lemma GoodFromComplete(env: Env, pub: Publisher, root: Root, place: Place, m: Manifest, payload: string,
                         stop: Option<ShardState>)
    requires Good(env, pub, root, place, m, payload) && m.state in {Complete, Verified, Available}
    ensures GoodRun(env, pub, FromComplete(env, pub, root, place, m, stop), payload, stop)
  {
    hide Good, WriteManifest, FromVerified, SemanticsHold;
    GoodPlaces(env, pub, root, place, m, payload);
    if m.state.Complete? {
      var after := GoodRises(env, pub, root, place, m, payload);
      if stop == Some(Verified) {
        GoodEnd(env, pub, Run([root, after], Ok(Next(env, m, Verified))), place, Next(env, m, Verified), payload, stop);
      }
      GoodPlaces(env, pub, after, place, Next(env, m, Verified), payload);
      GoodFromVerified(env, pub, after, place, Next(env, m, Verified), payload);
      GoodThen(env, pub, Run([root, after], Ok(Next(env, m, Verified))),
               FromVerified(env, pub, after, place, Next(env, m, Verified)), payload, stop);
    } else {
      GoodFromVerified(env, pub, root, place, m, payload);
    }
  }

  lemma GoodThen(env: Env, pub: Publisher, first: Run, rest: Run, payload: string, stop: Option<ShardState>)
    requires first.disks != [] && GoodRun(env, pub, rest, payload, stop)
    ensures GoodRun(env, pub, Then(first, rest), payload, stop)
  {
    hide Good;
    assert Last(Then(first, rest)) == Last(rest);
  }

  lemma GoodResume(env: Env, pub: Publisher, root: Root, place: Place, m: Manifest, payload: string,
                   stop: Option<ShardState>)
    requires Good(env, pub, root, place, m, payload)
    ensures DirAt(root, place).Some? && GoodRun(env, pub, Resume(env, pub, root, place, m, stop), payload, stop)
  {
    hide Good, WriteManifest, FromComplete;
    GoodPlaces(env, pub, root, place, m, payload);
    GoodState(env, pub, root, place, m, payload);
    if stop == Some(m.state) {
      GoodEnd(env, pub, Done(root, m), place, m, payload, stop);
    } else if m.state.Staging? {
      var after := GoodRises(env, pub, root, place, m, payload);
      if stop == Some(Complete) {
        GoodEnd(env, pub, Run([root, after], Ok(Next(env, m, Complete))), place, Next(env, m, Complete), payload, stop);
      }
      GoodPlaces(env, pub, after, place, Next(env, m, Complete), payload);
      GoodFromComplete(env, pub, after, place, Next(env, m, Complete), payload, stop);
      GoodThen(env, pub, Run([root, after], Ok(Next(env, m, Complete))),
               FromComplete(env, pub, after, place, Next(env, m, Complete), stop), payload, stop);
    } else {
      GoodFromComplete(env, pub, root, place, m, payload, stop);
    }
  }

  lemma GoodState(env: Env, pub: Publisher, root: Root, place: Place, m: Manifest, payload: string)
    requires Good(env, pub, root, place, m, payload)
    ensures !m.state.Quarantined?
  {
    GoodChain(env, pub, root, place, m, payload);
  }

  lemma StagedIsGood(env: Env, job: Job, root: Root)
    requires Fresh(job, root) && Genuine(env, job)
    ensures var r := Stage(env, job.pub, root, job.payload, job.rows);
            r.result.Ok? && Good(env, job.pub, Last(r), TransactionPlace(job.pub), r.result.value, job.payload)
  {
    hide Rung, Stage, IntegrityMatches, Inspect, Fresh, Genuine;
    StartIsRoot(env, job, root);
    StageClimbs(env, job, root, Start(root));
    InspectRung(env, job, root, 4);
    IntegrityOnRung(env, job, root, 4);
  }

  lemma StageRefuses(env: Env, job: Job, root: Root)
    requires !Fresh(job, root)
    ensures Stage(env, job.pub, root, job.payload, job.rows).result.Err?
  {}

  lemma GoodStart(env: Env, job: Job, root: Root, stop: Option<ShardState>)
    requires Genuine(env, job)
    ensures GoodRun(env, job.pub, StartNew(env, job.pub, root, job.payload, job.rows, stop), job.payload, stop)
  {
    hide Stage, Resume, Good, Fresh, Genuine;
    if Fresh(job, root) {
      StagedIsGood(env, job, root);
      var staged := Stage(env, job.pub, root, job.payload, job.rows);
      GoodResume(env, job.pub, Last(staged), TransactionPlace(job.pub), staged.result.value, job.payload, stop);
      GoodThen(env, job.pub, staged,
               Resume(env, job.pub, Last(staged), TransactionPlace(job.pub), staged.result.value, stop),
               job.payload, stop);
    } else {
      StageRefuses(env, job, root);
    }
  }

  lemma SetAsideFails(env: Env, pub: Publisher, root: Root, place: Place, m: Manifest)
    requires DirAt(root, place).Some?
    ensures SetAside(env, pub, root, place, m).result.Err?
  {}

  /** Whatever was on the disk before, damaged or not: if `publish` returns a manifest, the next
      call finds exactly that manifest and the payload, the plan, the digests and the semantic check
      all match what was asked for. Without `stop_after` the manifest is the available one. */
  lemma SuccessIsGood(env: Env, fl: Floats, m: Math, pub: Publisher, root: Root, captures: seq<StoredToken>,
                      stop: Option<ShardState>)
    requires Publishable(env, fl, m, pub.plan, captures) && stop != Some(Quarantined)
    ensures GoodRun(env, pub, Publish(env, pub, root, captures, stop), env.payload(pub.plan, captures).value, stop)
  {
    hide Publish, Good, StartNew, GoOn, Sound, AllStorable, Inspect;
    var job := JobOf(env, pub, captures);
    JobIsGenuine(env, fl, m, pub, captures);
    PublishIs(env, pub, root, captures, stop);
    match Inspect(env, pub, root)
    case Err(_) =>
    case Ok(None) => GoodStart(env, job, root, stop);
    case Ok(Some(found)) => GoodGoOn(env, job, root, found, stop);
  }

  lemma GoodGoOn(env: Env, job: Job, root: Root, found: Found, stop: Option<ShardState>)
    requires Inspect(env, job.pub, root) == Ok(Some(found))
    ensures GoodRun(env, job.pub, GoOn(env, job.pub, root, found, job.payload, stop), job.payload, stop)
  {
    hide Inspect, IntegrityMatches, SetAside, Resume;
    if IntegrityMatches(env, job.pub, root, DirAt(root, found.place).value, found.manifest, job.payload) {
      FoundIsCommitted(env, job.pub, root);
      assert Good(env, job.pub, root, found.place, found.manifest, job.payload);
      GoodResume(env, job.pub, root, found.place, found.manifest, job.payload, stop);
      if found.manifest.state.Available? {
        GoodEnd(env, job.pub, Done(root, found.manifest), found.place, found.manifest, job.payload, stop);
      }
    } else {
      SetAsideFails(env, job.pub, root, found.place, found.manifest);
    }
  }

  /** Publishing again what was published writes nothing and returns the same manifest. */
  lemma PublishAgainWritesNothing(env: Env, fl: Floats, m: Math, pub: Publisher, root: Root, captures: seq<StoredToken>,
                                  again: Option<ShardState>)
    requires Publishable(env, fl, m, pub.plan, captures) && again != Some(Quarantined)
    requires Publish(env, pub, root, captures, None).result.Ok?
    ensures var r := Publish(env, pub, root, captures, None);
            Publish(env, pub, Last(r), captures, again) == Done(Last(r), r.result.value)
  {
    hide Publish, Inspect, IntegrityMatches, Sound, AllStorable, Resume;
    var r := Publish(env, pub, root, captures, None);
    SuccessIsGood(env, fl, m, pub, root, captures, None);
    var place :| Good(env, pub, Last(r), place, r.result.value, env.payload(pub.plan, captures).value);
    PublishIs(env, pub, Last(r), captures, again);
  }
}
