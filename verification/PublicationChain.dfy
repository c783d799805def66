/** Which directories `_inspect_existing` accepts, and what a manifest chain commits to. */
module PublicationChain {
  import opened Wrappers
  import opened Publication

  /** The `i`-th manifest, where its file is there and valid. */
  function ManifestIn(dir: Dir, i: nat): Option<Manifest> {
    if i < |STATES| && STATES[i] in dir.manifests && dir.manifests[STATES[i]].Intact?
    then Some(dir.manifests[STATES[i]].manifest)
    else None
  }

  /** The `i`-th manifest names the publisher and continues the one before. */
  ghost predicate Linked(env: Env, pub: Publisher, dir: Dir, i: nat) {
    && i < |STATES| && ManifestIn(dir, i).Some?
    && var m := ManifestIn(dir, i).value;
       && m.state == STATES[i] && m.shardId == pub.shardId && m.transactionId == pub.transactionId
       && if i == 0 then m.previous.None? else Continues(env, ManifestIn(dir, i - 1), m)
  }

  ghost predicate Continues(env: Env, before: Option<Manifest>, m: Manifest) {
    before.Some? && m.previous == Some(env.manifestSha(before.value)) && m.payloads == before.value.payloads
  }

  /** Exactly the first `n` manifests, in an unbroken hash chain with one payload commitment. */
  ghost predicate ChainOf(env: Env, pub: Publisher, dir: Dir, n: nat) {
    && 0 < n <= |STATES|
    && (forall i :: 0 <= i < n ==> ManifestIn(dir, i).Some?)
    && (forall i :: 0 <= i < n ==> Linked(env, pub, dir, i))
    && forall i :: n <= i < |STATES| ==> STATES[i] !in dir.manifests
  }

  // ----- a chain is accepted -----

  function Entries(dir: Dir, n: nat): (r: seq<Entry>)
    requires n <= |STATES|
    requires forall i :: 0 <= i < n ==> ManifestIn(dir, i).Some?
    ensures |r| == n && forall i :: 0 <= i < n ==> r[i] == Entry(STATES[i], ManifestIn(dir, i).value)
  {
    if n == 0 then [] else Entries(dir, n - 1) + [Entry(STATES[n - 1], ManifestIn(dir, n - 1).value)]
  }

  lemma {:induction false} ChainIsRead(env: Env, pub: Publisher, dir: Dir, n: nat, i: nat)
    requires ChainOf(env, pub, dir, n) && i <= |STATES|
    ensures ReadManifests(dir, i) == Ok(Entries(dir, if i < n then i else n))
  {
    if i > 0 {
      ChainIsRead(env, pub, dir, n, i - 1);
      assert i <= n ==> Linked(env, pub, dir, i - 1);
    }
  }

  lemma {:induction false} ChainHasNoError(env: Env, pub: Publisher, dir: Dir, n: nat, i: nat)
    requires ChainOf(env, pub, dir, n) && i <= n
    ensures ChainError(env, pub, Entries(dir, n), i).None?
  {
    if i > 0 {
      ChainHasNoError(env, pub, dir, n, i - 1);
      assert Linked(env, pub, dir, i - 1);
      assert EntryError(env, pub, Entries(dir, n), i - 1).None?;
    }
  }

  lemma ChainAccepted(env: Env, pub: Publisher, dir: Dir, n: nat)
    requires ChainOf(env, pub, dir, n)
    ensures LastManifest(env, pub, dir) == Ok(ManifestIn(dir, n - 1).value)
  {
    ChainIsRead(env, pub, dir, n, |STATES|);
    ChainHasNoError(env, pub, dir, n, n);
    assert Linked(env, pub, dir, n - 1);
    assert Contiguous(Entries(dir, n));
  }

  // ----- what is accepted is a chain -----

  lemma {:induction false} ReadsAreThere(dir: Dir, n: nat)
    requires n <= |STATES| && ReadManifests(dir, n).Ok?
    ensures var entries := ReadManifests(dir, n).value;
            && |entries| <= n
            && forall i :: 0 <= i < |entries| ==>
                 && entries[i].state in dir.manifests
                 && dir.manifests[entries[i].state] == Intact(entries[i].manifest)
  {
    if n > 0 {
      ReadsAreThere(dir, n - 1);
    }
  }

  lemma {:induction false} PresentIsRead(dir: Dir, n: nat, k: nat)
    requires k < n <= |STATES| && ReadManifests(dir, n).Ok? && STATES[k] in dir.manifests
    ensures var entries := ReadManifests(dir, n).value;
            exists i :: 0 <= i < |entries| && entries[i].state == STATES[k]
  {
    if k < n - 1 {
      PresentIsRead(dir, n - 1, k);
      var before, entries := ReadManifests(dir, n - 1).value, ReadManifests(dir, n).value;
      var i :| 0 <= i < |before| && before[i].state == STATES[k];
      assert entries[i] == before[i];
    } else {
      var entries := ReadManifests(dir, n).value;
      assert entries[|entries| - 1].state == STATES[k];
    }
  }

  lemma {:induction false} NoErrorAt(env: Env, pub: Publisher, entries: seq<Entry>, n: nat, i: nat)
    requires i < n <= |entries| && ChainError(env, pub, entries, n).None?
    ensures EntryError(env, pub, entries, i).None?
  {
    if i < n - 1 {
      NoErrorAt(env, pub, entries, n - 1, i);
    }
  }

  lemma EntryIsLinked(env: Env, pub: Publisher, dir: Dir, entries: seq<Entry>, i: nat)
    requires i < |entries| && Contiguous(entries) && EntryError(env, pub, entries, i).None?
    requires forall j :: 0 <= j < |entries| ==>
               entries[j].state in dir.manifests && dir.manifests[entries[j].state] == Intact(entries[j].manifest)
    ensures Linked(env, pub, dir, i)
  {}

  lemma AcceptedIsChain(env: Env, pub: Publisher, dir: Dir) returns (n: nat)
    requires LastManifest(env, pub, dir).Ok?
    ensures ChainOf(env, pub, dir, n)
    ensures ManifestIn(dir, n - 1) == Some(LastManifest(env, pub, dir).value)
  {
    var entries := ReadManifests(dir, |STATES|).value;
    n := |entries|;
    ReadsAreThere(dir, |STATES|);
    forall i | 0 <= i < n ensures Linked(env, pub, dir, i) {
      NoErrorAt(env, pub, entries, n, i);
      EntryIsLinked(env, pub, dir, entries, i);
    }
    forall i | n <= i < |STATES| ensures STATES[i] !in dir.manifests {
      if STATES[i] in dir.manifests {
        PresentIsRead(dir, |STATES|, i);
        StatesDiffer();
      }
    }
  }

  lemma StatesDiffer()
    ensures forall i, j :: 0 <= i < |STATES| && 0 <= j < |STATES| && STATES[i] == STATES[j] ==> i == j
  {}

  /** Inspection accepts a directory, with `m` as its current manifest, if and only if its manifests
      are a contiguous prefix of the four states in an unbroken hash chain that names the publisher
      and commits to one payload throughout, and `m` is the last of them. */
  lemma AcceptedIff(env: Env, pub: Publisher, dir: Dir, m: Manifest)
    ensures LastManifest(env, pub, dir) == Ok(m) <==>
            exists n: nat :: ChainOf(env, pub, dir, n) && ManifestIn(dir, n - 1) == Some(m)
  {
    hide LastManifest;
    if LastManifest(env, pub, dir) == Ok(m) {
      var n := AcceptedIsChain(env, pub, dir);
    }
    if n: nat :| ChainOf(env, pub, dir, n) && ManifestIn(dir, n - 1) == Some(m) {
      ChainAccepted(env, pub, dir, n);
    }
  }

  /** The next manifest continues an accepted chain. */
  lemma ChainGrows(env: Env, pub: Publisher, dir: Dir, n: nat)
    requires ChainOf(env, pub, dir, n) && n < |STATES|
    ensures var next := Next(env, ManifestIn(dir, n - 1).value, STATES[n]);
            && STATES[n] !in dir.manifests
            && ChainOf(env, pub, WithManifest(dir, next), n + 1)
            && LastManifest(env, pub, WithManifest(dir, next)) == Ok(next)
  {
    hide LastManifest;
    var next := Next(env, ManifestIn(dir, n - 1).value, STATES[n]);
    var grown := WithManifest(dir, next);
    StatesDiffer();
    forall i | 0 <= i < n + 1 ensures ManifestIn(grown, i).Some? && Linked(env, pub, grown, i) {
      assert ManifestIn(grown, i) == if i < n then ManifestIn(dir, i) else Some(next);
      assert i > 0 ==> ManifestIn(grown, i - 1) == ManifestIn(dir, i - 1);
      assert Linked(env, pub, dir, if i < n then i else n - 1);
    }
    ChainAccepted(env, pub, grown, n + 1);
  }

  // ----- what the last manifest commits to -----

  ghost predicate Injective(env: Env) {
    && (forall a, b :: env.manifestSha(a) == env.manifestSha(b) ==> a == b)
    && forall a, b :: env.payloadSha(a) == env.payloadSha(b) ==> a == b
  }

  lemma {:induction false} SamePrefix(env: Env, pub: Publisher, a: Dir, b: Dir, n: nat, i: nat)
    requires Injective(env) && ChainOf(env, pub, a, n) && ChainOf(env, pub, b, n)
    requires ManifestIn(a, n - 1) == ManifestIn(b, n - 1)
    requires i < n
    ensures ManifestIn(a, i) == ManifestIn(b, i)
    decreases n - i
  {
    assert Linked(env, pub, a, i) && Linked(env, pub, b, i);
    if i < n - 1 {
      SamePrefix(env, pub, a, b, n, i + 1);
      assert Linked(env, pub, a, i + 1) && Linked(env, pub, b, i + 1);
    }
  }

  /** Tamper evidence: with collision-free hashes, two accepted directories with the same current
      manifest hold the same manifests and, where the payload check passes, the same payload. */
  lemma LastManifestDeterminesAll(env: Env, pub: Publisher, a: Dir, b: Dir, m: Manifest)
    requires Injective(env) && LastManifest(env, pub, a) == Ok(m) && LastManifest(env, pub, b) == Ok(m)
    ensures forall i :: 0 <= i < |STATES| ==> ManifestIn(a, i) == ManifestIn(b, i)
    ensures forall p, q :: PayloadMatches(env, m, p) && PayloadMatches(env, m, q) ==> p == q
  {
    hide LastManifest;
    var n := AcceptedIsChain(env, pub, a);
    var k := AcceptedIsChain(env, pub, b);
    assert Linked(env, pub, a, n - 1) && Linked(env, pub, b, k - 1);
    StatesDiffer();
    assert n == k;
    forall i | 0 <= i < |STATES| ensures ManifestIn(a, i) == ManifestIn(b, i) {
      if i < n {
        SamePrefix(env, pub, a, b, n, i);
      }
    }
  }
}
