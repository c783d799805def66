/** The publisher as a program over a disk that can crash between any two atomic steps, proved to
    do exactly what the runs of `Publication` say. */
module CaptureShardPublisher {
  import opened Wrappers
  import opened CapturePayload
  import opened Publication

  /** What a caller sees of a call: a crash, an error or a manifest. */
  datatype Halt = Crash | Refuse(error: PublishError)

  function Outwards<T>(result: Result<T, PublishError>): Result<T, Halt> {
    match result
    case Ok(value) => Ok(value)
    case Err(error) => Err(Refuse(error))
  }

  /** A publication root. It survives `fuse` more atomic steps and crashes at the next one. */
  class Disk {
    var plan: Option<string>
    var transactions: map<string, Dir>
    var shards: map<string, Dir>
    var quarantine: map<string, Dir>
    var fuse: nat

    constructor (root: Root, fuse: nat)
      ensures Contents() == root && this.fuse == fuse
    {
      plan, transactions, shards, quarantine := root.plan, root.transactions, root.shards, root.quarantine;
      this.fuse := fuse;
    }

    function Contents(): Root
      reads this
    {
      Root(plan, transactions, shards, quarantine)
    }

    method Spend() returns (alive: bool)
      modifies this`fuse
      ensures alive <==> old(fuse) > 0
      ensures fuse == if alive then old(fuse) - 1 else 0
    {
      alive := fuse > 0;
      fuse := if alive then fuse - 1 else 0;
    }

    /** `_atomic_write` of `plan.json`. */
    method WritePlan(text: string) returns (alive: bool)
      modifies this
      ensures alive <==> old(fuse) > 0
      ensures fuse == if alive then old(fuse) - 1 else 0
      ensures Contents() == if alive then old(Contents()).(plan := Some(text)) else old(Contents())
    {
      alive := Spend();
      if alive {
        plan := Some(text);
      }
    }

    /** `mkdir`, or an atomic write of one file into a directory: its new contents. */
    method Store(place: Place, dir: Dir) returns (alive: bool)
      modifies this
      ensures alive <==> old(fuse) > 0
      ensures fuse == if alive then old(fuse) - 1 else 0
      ensures Contents() == if alive then Put(old(Contents()), place, dir) else old(Contents())
    {
      alive := Spend();
      if alive {
        match place {
          case InTransaction(id) => transactions := transactions[id := dir];
          case InShard(id) => shards := shards[id := dir];
          case InQuarantine(id) => quarantine := quarantine[id := dir];
        }
      }
    }

    /** `os.replace` of a directory. */
    method Rename(from: Place, to: Place) returns (alive: bool)
      requires DirAt(Contents(), from).Some?
      modifies this
      ensures alive <==> old(fuse) > 0
      ensures fuse == if alive then old(fuse) - 1 else 0
      ensures Contents() == if alive then Move(old(Contents()), from, to) else old(Contents())
    {
      alive := Spend();
      if alive {
        var dir := DirAt(Contents(), from).value;
        match from {
          case InTransaction(id) => transactions := transactions - {id};
          case InShard(id) => shards := shards - {id};
          case InQuarantine(id) => quarantine := quarantine - {id};
        }
        match to {
          case InTransaction(id) => transactions := transactions[id := dir];
          case InShard(id) => shards := shards[id := dir];
          case InQuarantine(id) => quarantine := quarantine[id := dir];
        }
      }
    }
  }

  // ----- a program follows a run -----

  /** From `before` to `after` units of fuse the program did `run`, or crashed inside it. */
  ghost predicate Follows(run: Run, before: nat, after: nat, disk: Root, result: Result<Manifest, Halt>) {
    && run.disks != []
    && disk == DiskAfter(run, before)
    && if before < |run.disks| - 1 then after == 0 && result == Err(Crash)
       else after == before - (|run.disks| - 1) && result == Outwards(run.result)
  }

  lemma FollowsDone(root: Root, result: Result<Manifest, PublishError>, fuse: nat)
    ensures Follows(Run([root], result), fuse, fuse, root, Outwards(result))
  {}

  lemma FollowsCrash(root: Root, rest: Run)
    requires rest.disks != []
    ensures Follows(After(root, rest), 0, 0, root, Err(Crash))
  {}

  lemma FollowsAfter(root: Root, rest: Run, before: nat, after: nat, disk: Root, result: Result<Manifest, Halt>)
    requires before > 0 && Follows(rest, before - 1, after, disk, result)
    ensures Follows(After(root, rest), before, after, disk, result)
  {}

  lemma FollowsCut(first: Run, rest: Run, before: nat, after: nat, disk: Root)
    requires rest.disks != [] && Follows(first, before, after, disk, Err(Crash))
    ensures Follows(Then(first, rest), before, after, disk, Err(Crash))
  {}

  lemma FollowsThen(first: Run, rest: Run, before: nat, mid: nat, after: nat, disk: Root, m: Manifest,
                    result: Result<Manifest, Halt>)
    requires first.disks != [] && Follows(first, before, mid, Last(first), Ok(m))
    requires rest.disks != [] && rest.disks[0] == Last(first)
    requires Follows(rest, mid, after, disk, result)
    ensures Follows(Then(first, rest), before, after, disk, result)
  {}

  class CaptureShardPublisher {
    const env: Env
    const pub: Publisher
    const disk: Disk

    constructor (env: Env, pub: Publisher, disk: Disk)
      ensures this.env == env && this.pub == pub && this.disk == disk
    {
      this.env, this.pub, this.disk := env, pub, disk;
    }

    /** `_write_manifest`. */
    method CommitManifest(place: Place, manifest: Manifest) returns (result: Result<Manifest, Halt>)
      requires DirAt(disk.Contents(), place).Some?
      modifies disk
      ensures Follows(WriteManifest(old(disk.Contents()), place, manifest), old(disk.fuse), disk.fuse,
                      disk.Contents(), result)
    {
      ghost var root := disk.Contents();
      var dir := DirAt(disk.Contents(), place).value;
      if manifest.state in dir.manifests {
        if dir.manifests[manifest.state] != Intact(manifest) {
          return Err(Refuse(ManifestExists));
        }
        return Ok(manifest);
      }
      var alive := disk.Store(place, WithManifest(dir, manifest));
      if !alive {
        return Err(Crash);
      }
      return Ok(manifest);
    }

    /** `_commit_state`. */
    method CommitState(place: Place, previous: Manifest, state: ShardState) returns (result: Result<Manifest, Halt>)
      requires DirAt(disk.Contents(), place).Some?
      requires state in ShardTransitions(previous.state)
      modifies disk
      ensures Follows(WriteManifest(old(disk.Contents()), place, Next(env, previous, state)), old(disk.fuse),
                      disk.fuse, disk.Contents(), result)
    {
      result := CommitManifest(place, Next(env, previous, state));
    }

    /** `_make_available`. */
    method PromoteShard(place: Place, previous: Manifest) returns (result: Result<Manifest, Halt>)
      requires DirAt(disk.Contents(), place).Some? && previous.state.Verified?
      modifies disk
      ensures Follows(MakeAvailable(env, pub, old(disk.Contents()), place, previous), old(disk.fuse), disk.fuse,
                      disk.Contents(), result)
    {
      hide WriteManifest, Follows, Move, Put, Remove;
      ghost var root, fuse := disk.Contents(), disk.fuse;
      var directory := place;
      if place.InTransaction? {
        if DirAt(disk.Contents(), ShardPlace(pub)).Some? {
          FollowsDone(root, Err(ShardExists), fuse);
          return Err(Refuse(ShardExists));
        }
        MovedIsThere(root, place, ShardPlace(pub));
        ghost var rest := WriteManifest(Move(root, place, ShardPlace(pub)), ShardPlace(pub),
                                        Next(env, previous, Available));
        var alive := disk.Rename(place, ShardPlace(pub));
        if !alive {
          FollowsCrash(root, rest);
          return Err(Crash);
        }
        directory := ShardPlace(pub);
      }
      result := CommitState(directory, previous, Available);
      if place.InTransaction? {
        FollowsAfter(root,
                     WriteManifest(Move(root, place, ShardPlace(pub)), ShardPlace(pub), Next(env, previous, Available)),
                     fuse, disk.fuse, disk.Contents(), result);
      }
    }

    /** The reading loop of `_inspect_existing`. */
    method ReadAll(dir: Dir) returns (found: Result<seq<Entry>, PublishError>)
      ensures found == ReadManifests(dir, |STATES|)
    {
      var entries: seq<Entry> := [];
      for i := 0 to |STATES|
        invariant ReadManifests(dir, i) == Ok(entries)
      {
        var state := STATES[i];
        if state in dir.manifests {
          if dir.manifests[state].Damaged? {
            assert ReadManifests(dir, i + 1).Err?;
            ReadErrorStays(dir, i + 1);
            return Err(InvalidManifest);
          }
          entries := entries + [Entry(state, dir.manifests[state].manifest)];
        }
      }
      return Ok(entries);
    }

    /** `_verify_manifest_chain`. */
    method CheckChain(found: seq<Entry>) returns (error: Option<PublishError>)
      ensures error == VerifyChain(env, pub, found)
    {
      if !Contiguous(found) {
        return Some(StatesNotContiguous);
      }
      var previous: Option<Manifest> := None;
      for i := 0 to |found|
        invariant ChainError(env, pub, found, i).None?
        invariant previous == if i == 0 then None else Some(found[i - 1].manifest)
      {
        var Entry(state, manifest) := found[i];
        var expected := if previous.None? then None else Some(env.manifestSha(previous.value));
        error := None;
        if manifest.state != state {
          error := Some(StateDisagrees);
        } else if manifest.shardId != pub.shardId || manifest.transactionId != pub.transactionId {
          error := Some(IdentityMismatch);
        } else if manifest.previous != expected {
          error := Some(ChainBroken);
        } else if previous.Some? && manifest.payloads != previous.value.payloads {
          error := Some(CommitmentsChanged);
        }
        assert error == EntryError(env, pub, found, i);
        if error.Some? {
          ChainErrorStays(env, pub, found, i + 1);
          return;
        }
        previous := Some(manifest);
      }
      return None;
    }

    /** `_inspect_existing`. */
    method InspectExisting() returns (inspected: Result<Option<Found>, PublishError>)
      ensures inspected == Inspect(env, pub, disk.Contents())
    {
      hide ReadManifests, VerifyChain;
      var shard, transaction := DirAt(disk.Contents(), ShardPlace(pub)), DirAt(disk.Contents(), TransactionPlace(pub));
      if shard.Some? && transaction.Some? {
        return Err(DuplicateDirectories);
      }
      if shard.None? && transaction.None? {
        return Ok(None);
      }
      var directory := if shard.Some? then shard.value else transaction.value;
      var found := ReadAll(directory);
      if found.Err? {
        return Err(found.error);
      }
      if found.value == [] {
        return Err(NoCommittedManifest);
      }
      var error := CheckChain(found.value);
      if error.Some? {
        return Err(error.value);
      }
      return Ok(Some(Found(if shard.Some? then ShardPlace(pub) else TransactionPlace(pub),
                           found.value[|found.value| - 1].manifest)));
    }

    /** `_stage`. */
    method StagePayload(payload: string, rows: nat) returns (result: Result<Manifest, Halt>)
      modifies disk
      ensures Follows(Stage(env, pub, old(disk.Contents()), payload, rows), old(disk.fuse), disk.fuse,
                      disk.Contents(), result)
    {
      hide WriteManifest, Follows, Put, Fill;
      ghost var root, fuse := disk.Contents(), disk.fuse;
      if DirAt(disk.Contents(), TransactionPlace(pub)).Some? || DirAt(disk.Contents(), ShardPlace(pub)).Some? {
        FollowsDone(root, Err(TransactionAppeared), fuse);
        return Err(Refuse(TransactionAppeared));
      }
      if disk.plan.Some? {
        if disk.plan.value != pub.plan {
          FollowsDone(root, Err(DifferentPlan), fuse);
          return Err(Refuse(DifferentPlan));
        }
        result := FillTransaction(payload, rows);
        return;
      }
      ghost var rest := Fill(env, pub, root.(plan := Some(pub.plan)), payload, rows);
      var alive := disk.WritePlan(pub.plan);
      if !alive {
        FollowsCrash(root, rest);
        return Err(Crash);
      }
      result := FillTransaction(payload, rows);
      FollowsAfter(root, rest, fuse, disk.fuse, disk.Contents(), result);
    }

    /** `_stage` after the plan: the directory, its payload, its staging manifest. */
    method FillTransaction(payload: string, rows: nat) returns (result: Result<Manifest, Halt>)
      modifies disk
      ensures Follows(Fill(env, pub, old(disk.Contents()), payload, rows), old(disk.fuse), disk.fuse,
                      disk.Contents(), result)
    {
      hide WriteManifest, Follows, Put;
      ghost var root, fuse := disk.Contents(), disk.fuse;
      var place := TransactionPlace(pub);
      ghost var made := Put(root, place, EMPTY_DIR);
      ghost var filled := Put(made, place, Dir(Some(payload), map[]));
      var manifest := StagingManifest(env, pub, payload, rows);
      PutIsThere(made, place, Dir(Some(payload), map[]));
      ghost var last := WriteManifest(filled, place, manifest);
      var alive := disk.Store(place, EMPTY_DIR);
      if !alive {
        FollowsCrash(root, After(made, last));
        return Err(Crash);
      }
      alive := disk.Store(place, Dir(Some(payload), map[]));
      if !alive {
        FollowsCrash(made, last);
        FollowsAfter(root, After(made, last), fuse, disk.fuse, disk.Contents(), Err(Crash));
        return Err(Crash);
      }
      result := CommitManifest(place, manifest);
      FollowsAfter(made, last, fuse - 1, disk.fuse, disk.Contents(), result);
      FollowsAfter(root, After(made, last), fuse, disk.fuse, disk.Contents(), result);
    }

    /** `_quarantine`, with the error `publish` raises after it. */
    method QuarantineDirectory(place: Place, previous: Manifest) returns (result: Result<Manifest, Halt>)
      requires DirAt(disk.Contents(), place).Some?
      modifies disk
      ensures Follows(SetAside(env, pub, old(disk.Contents()), place, previous), old(disk.fuse), disk.fuse,
                      disk.Contents(), result)
    {
      hide WriteManifest, Move;
      ghost var root, fuse := disk.Contents(), disk.fuse;
      var target := QuarantinePlace(pub);
      if DirAt(disk.Contents(), target).Some? {
        return Err(Refuse(QuarantineOccupied));
      }
      MovedIsThere(root, place, target);
      ghost var written := WriteManifest(Move(root, place, target), target, Next(env, previous, Quarantined));
      ghost var error := if written.result.Err? then written.result.error else CorruptOrMismatched;
      ghost var rest := Run(written.disks, Err(error));
      var alive := disk.Rename(place, target);
      if !alive {
        FollowsCrash(root, rest);
        return Err(Crash);
      }
      result := CommitManifest(target, Next(env, previous, Quarantined));
      if result.Ok? {
        result := Err(Refuse(CorruptOrMismatched));
      }
      assert Follows(rest, fuse - 1, disk.fuse, disk.Contents(), result);
      FollowsAfter(root, rest, fuse, disk.fuse, disk.Contents(), result);
    }

    /** `publish` from the last committed manifest on. */
    method Advance(place: Place, found: Manifest, stopAfter: Option<ShardState>)
      returns (result: Result<Manifest, Halt>)
      requires DirAt(disk.Contents(), place).Some?
      modifies disk
      ensures Follows(Resume(env, pub, old(disk.Contents()), place, found, stopAfter), old(disk.fuse), disk.fuse,
                      disk.Contents(), result)
    {
      hide WriteManifest, Follows, MakeAvailable, SemanticsHold;
      ghost var root, fuse := disk.Contents(), disk.fuse;
      var manifest := found;
      if stopAfter == Some(manifest.state) {
        FollowsDone(root, Ok(manifest), fuse);
        return Ok(manifest);
      }
      if !manifest.state.Staging? {
        result := AdvanceComplete(place, manifest, stopAfter);
        return;
      }
      ghost var written := WriteManifest(root, place, Next(env, manifest, Complete));
      result := CommitState(place, manifest, Complete);
      FollowedTo(written, fuse, disk.fuse, disk.Contents(), result);
      if result.Err? || stopAfter == Some(Complete) {
        if written.result.Ok? && stopAfter != Some(Complete) {
          FollowsCut(written, FromComplete(env, pub, Last(written), place, written.result.value, stopAfter),
                     fuse, disk.fuse, disk.Contents());
        }
        return;
      }
      manifest := result.value;
      ghost var mid := disk.fuse;
      result := AdvanceComplete(place, manifest, stopAfter);
      FollowsThen(written, FromComplete(env, pub, Last(written), place, manifest, stopAfter), fuse, mid, disk.fuse,
                  disk.Contents(), manifest, result);
    }

    /** `publish` from `complete` on: verify the payload, commit `verified`, promote. */
    method AdvanceComplete(place: Place, found: Manifest, stopAfter: Option<ShardState>)
      returns (result: Result<Manifest, Halt>)
      requires DirAt(disk.Contents(), place).Some?
      modifies disk
      ensures Follows(FromComplete(env, pub, old(disk.Contents()), place, found, stopAfter), old(disk.fuse), disk.fuse,
                      disk.Contents(), result)
    {
      hide WriteManifest, Follows, MakeAvailable, SemanticsHold;
      ghost var root, fuse := disk.Contents(), disk.fuse;
      var manifest := found;
      if !manifest.state.Complete? {
        result := AdvanceVerified(place, manifest);
        return;
      }
      if !SemanticsHold(env, pub.plan, DirAt(disk.Contents(), place).value, manifest) {
        FollowsDone(root, Err(SemanticsFailed), fuse);
        return Err(Refuse(SemanticsFailed));
      }
      ghost var written := WriteManifest(root, place, Next(env, manifest, Verified));
      result := CommitState(place, manifest, Verified);
      FollowedTo(written, fuse, disk.fuse, disk.Contents(), result);
      if result.Err? || stopAfter == Some(Verified) {
        if written.result.Ok? && stopAfter != Some(Verified) {
          FollowsCut(written, FromVerified(env, pub, Last(written), place, written.result.value),
                     fuse, disk.fuse, disk.Contents());
        }
        return;
      }
      manifest := result.value;
      ghost var mid := disk.fuse;
      result := AdvanceVerified(place, manifest);
      FollowsThen(written, FromVerified(env, pub, Last(written), place, manifest), fuse, mid, disk.fuse,
                  disk.Contents(), manifest, result);
    }

    method AdvanceVerified(place: Place, manifest: Manifest) returns (result: Result<Manifest, Halt>)
      requires DirAt(disk.Contents(), place).Some?
      modifies disk
      ensures Follows(FromVerified(env, pub, old(disk.Contents()), place, manifest), old(disk.fuse), disk.fuse,
                      disk.Contents(), result)
    {
      hide Follows, MakeAvailable;
      if !manifest.state.Verified? {
        FollowsDone(disk.Contents(), Ok(manifest), disk.fuse);
        return Ok(manifest);
      }
      result := PromoteShard(place, manifest);
    }

    /** `publish`: the disk it leaves, with or without a crash, is the one the run says. */
    method Publish(captures: seq<StoredToken>, stopAfter: Option<ShardState>) returns (result: Result<Manifest, Halt>)
      modifies disk
      ensures Follows(Publication.Publish(env, pub, old(disk.Contents()), captures, stopAfter), old(disk.fuse),
              disk.fuse,
                      disk.Contents(), result)
    {
      hide Follows, Inspect, Stage, Resume, SetAside, IntegrityMatches;
      ghost var root, fuse := disk.Contents(), disk.fuse;
      if stopAfter == Some(Quarantined) {
        FollowsDone(root, Err(UnknownStop), fuse);
        return Err(Refuse(UnknownStop));
      }
      var built := env.payload(pub.plan, captures);
      if built.Err? {
        FollowsDone(root, Err(BadRows(built.error)), fuse);
        return Err(Refuse(BadRows(built.error)));
      }
      var inspected := InspectExisting();
      if inspected.Err? {
        FollowsDone(root, Err(inspected.error), fuse);
        return Err(Refuse(inspected.error));
      }
      var payload, directory := built.value, TransactionPlace(pub);
      if inspected.value.Some? {
        var found := inspected.value.value;
        if !IntegrityMatches(env, pub, disk.Contents(), DirAt(disk.Contents(), found.place).value,
                             found.manifest, payload) {
          result := QuarantineDirectory(found.place, found.manifest);
          return;
        }
        if DecideResume(found.manifest.state, true, true) == Reuse {
          FollowsDone(root, Ok(found.manifest), fuse);
          return Ok(found.manifest);
        }
        result := Advance(found.place, found.manifest, stopAfter);
        return;
      }
      ghost var staged := Stage(env, pub, root, payload, |captures|);
      result := StagePayload(payload, |captures|);
      FollowedTo(staged, fuse, disk.fuse, disk.Contents(), result);
      if result.Err? {
        if staged.result.Ok? {
          FollowsCut(staged, Resume(env, pub, Last(staged), directory, staged.result.value, stopAfter),
                     fuse, disk.fuse, disk.Contents());
        }
        return;
      }
      var first := result.value;
      ghost var mid := disk.fuse;
      result := Advance(directory, first, stopAfter);
      FollowsThen(staged, Resume(env, pub, Last(staged), directory, first, stopAfter), fuse, mid, disk.fuse,
                  disk.Contents(), first, result);
    }
  }

  lemma {:induction false} ReadErrorStays(dir: Dir, n: nat)
    requires n <= |STATES| && ReadManifests(dir, n).Err?
    ensures ReadManifests(dir, |STATES|) == ReadManifests(dir, n)
    decreases |STATES| - n
  {
    if n < |STATES| {
      ReadErrorStays(dir, n + 1);
    }
  }

  lemma {:induction false} ChainErrorStays(env: Env, pub: Publisher, entries: seq<Entry>, n: nat)
    requires n <= |entries| && ChainError(env, pub, entries, n).Some?
    ensures ChainError(env, pub, entries, |entries|) == ChainError(env, pub, entries, n)
    decreases |entries| - n
  {
    if n < |entries| {
      ChainErrorStays(env, pub, entries, n + 1);
    }
  }

  /** What a call that followed `run` tells about it. */
  lemma FollowedTo(run: Run, before: nat, after: nat, disk: Root, result: Result<Manifest, Halt>)
    requires Follows(run, before, after, disk, result)
    ensures run.disks != []
    ensures result.Ok? ==> disk == Last(run) && run.result == Ok(result.value)
    ensures result.Err? && run.result.Ok? ==> result == Err(Crash)
  {}

  lemma PutIsThere(root: Root, place: Place, dir: Dir)
    ensures DirAt(Put(root, place, dir), place) == Some(dir)
  {}

  lemma MovedIsThere(root: Root, from: Place, to: Place)
    requires DirAt(root, from).Some?
    ensures DirAt(Move(root, from, to), to) == DirAt(root, from)
  {}
}
