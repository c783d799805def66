/** Assembling a release: a crash between writing the changelog and removing the fragment files is
    repaired by running again, exactly when no entry holds a heading line. */
module ChangelogAssembly {
  import opened Wrappers
  import opened ChangelogText
  import opened Changelog
  import opened ChangelogProperties
  import opened ChangelogIdempotence

  // ----- write, then unlink -----

  /** The changelog and the fragment files that are left. */
  datatype Files = Files(changelog: seq<Line>, fragments: seq<Fragment>)

  /** The disks while the fragment files are removed one by one. */
  function Unlinked(changelog: seq<Line>, fragments: seq<Fragment>): (r: seq<Files>)
    ensures |r| == |fragments| + 1 && r[0] == Files(changelog, fragments)
    ensures forall i :: 0 <= i < |r| ==> r[i] == Files(changelog, fragments[i..])
  {
    if fragments == [] then [Files(changelog, [])]
    else
      var rest := Unlinked(changelog, fragments[1..]);
      assert forall i :: 0 < i <= |fragments| ==> fragments[1..][i - 1..] == fragments[i..];
      [Files(changelog, fragments)] + rest
  }

  /** `assemble`: the disks before, between and after its atomic steps. */
  function Assembled(files: Files): (r: Result<seq<Files>, ChangelogError>)
    ensures r.Ok? ==> r.value != [] && r.value[0] == files
  {
    if files.fragments == [] then Ok([files])
    else
      var assembled :- Apply(files.changelog, files.fragments);
      var unlinked := Unlinked(assembled, files.fragments);
      Ok(if assembled == files.changelog then unlinked else [files] + unlinked)
  }

  function Final(disks: seq<Files>): Files
    requires disks != []
  {
    disks[|disks| - 1]
  }

  lemma FinalOf(files: Files)
    requires Assembled(files).Ok? && files.fragments != []
    ensures Apply(files.changelog, files.fragments).Ok?
    ensures Final(Assembled(files).value) == Files(Apply(files.changelog, files.fragments).value, [])
  {
    hide Apply;
    assert files.fragments[|files.fragments|..] == [];
  }

  /** A run that starts where another crashed ends where that one would have ended. */
  ghost predicate Repairs(disks: seq<Files>, i: nat)
    requires disks != []
  {
    i < |disks| && Assembled(disks[i]).Ok? && Final(Assembled(disks[i]).value) == Final(disks)
  }

  lemma RestIsPart(fragments: seq<Fragment>, i: nat)
    requires i <= |fragments|
    ensures forall f: Fragment :: f in fragments[i..] ==> f in fragments
  {}

  lemma RerunOnAssembled(files: Files, i: nat)
    requires AllPlain(files.changelog) && AllValidated(files.fragments) && AllQuiet(files.fragments)
    requires Apply(files.changelog, files.fragments).Ok? && i <= |files.fragments|
    ensures var assembled := Apply(files.changelog, files.fragments).value;
            var rest := Files(assembled, files.fragments[i..]);
            Assembled(rest).Ok? && Final(Assembled(rest).value) == Files(assembled, [])
  {
    hide Apply, HeadingFree, ValidFragment, Plain;
    var assembled := Apply(files.changelog, files.fragments).value;
    var rest := Files(assembled, files.fragments[i..]);
    RestIsPart(files.fragments, i);
    SecondApplicationIff(files.changelog, files.fragments);
    if rest.fragments != [] {
      FinalOf(rest);
    }
  }

  lemma DiskIs(files: Files, i: nat)
    requires Assembled(files).Ok? && files.fragments != [] && i < |Assembled(files).value|
    ensures var assembled := Apply(files.changelog, files.fragments).value;
            || Assembled(files).value[i] == files
            || exists k :: 0 <= k <= |files.fragments|
                && Assembled(files).value[i] == Files(assembled, files.fragments[k..])
  {
    hide Apply;
    var assembled := Apply(files.changelog, files.fragments).value;
    var k := if assembled == files.changelog then i else i - 1;
    assert i > 0 ==> Assembled(files).value[i] == Files(assembled, files.fragments[k..]);
  }

  /** The disk after the write, with all fragments still there. */
  lemma WrittenDisk(files: Files) returns (i: nat)
    requires Assembled(files).Ok? && files.fragments != []
    ensures i < |Assembled(files).value|
    ensures Assembled(files).value[i] == Files(Apply(files.changelog, files.fragments).value, files.fragments)
  {
    hide Apply;
    i := if Apply(files.changelog, files.fragments).value == files.changelog then 0 else 1;
  }

  /** Whatever the step a crash hits, running again ends with the same changelog and no fragment left:
      this holds if and only if no entry holds a section or release heading line. */
  lemma RerunRepairsIff(files: Files)
    requires AllPlain(files.changelog) && AllValidated(files.fragments) && files.fragments != []
    requires Assembled(files).Ok?
    ensures (forall i: nat :: i < |Assembled(files).value| ==> Repairs(Assembled(files).value, i))
       <==> AllQuiet(files.fragments)
  {
    hide Apply, HeadingFree, ValidFragment, Plain, Assembled;
    var disks := Assembled(files).value;
    FinalOf(files);
    if AllQuiet(files.fragments) {
      forall i: nat | i < |disks| ensures Repairs(disks, i) {
        DiskIs(files, i);
        if disks[i] != files {
          var assembled := Apply(files.changelog, files.fragments).value;
          var k :| 0 <= k <= |files.fragments| && disks[i] == Files(assembled, files.fragments[k..]);
          RerunOnAssembled(files, k);
        }
      }
    }
    if forall i: nat :: i < |disks| ==> Repairs(disks, i) {
      var i := WrittenDisk(files);
      assert Repairs(disks, i);
      FinalOf(disks[i]);
      SecondApplicationIff(files.changelog, files.fragments);
    }
  }

  // ----- the program -----

  /** A repository that survives `fuse` more atomic steps. */
  class Repository {
    var changelog: seq<Line>
    var fragments: seq<Fragment>
    var fuse: nat

    function Contents(): Files
      reads this
    {
      Files(changelog, fragments)
    }

    /** `assemble`: write the changelog if it changes, then unlink every fragment. */
    method Assemble() returns (r: Result<bool, ChangelogError>)
      modifies this
      ensures r.Err? ==> Assembled(old(Contents())) == Err(r.error) && Contents() == old(Contents())
      ensures r.Ok? ==>
                && Assembled(old(Contents())).Ok?
                && var disks := Assembled(old(Contents())).value;
                   && (r.value <==> old(fuse) >= |disks| - 1)
                   && Contents() == if r.value then Final(disks) else disks[old(fuse)]
    {
      hide Apply;
      if fragments == [] {
        return Ok(true);
      }
      var assembled := ApplyFragments(changelog, fragments);
      if assembled.Err? {
        return Err(assembled.error);
      }
      ghost var consumed, steps := fragments, if assembled.value == changelog then 0 else 1;
      if assembled.value != changelog {
        if fuse == 0 {
          return Ok(false);
        }
        changelog, fuse := assembled.value, fuse - 1;
      }
      var paths := fragments;
      for i := 0 to |paths|
        invariant changelog == assembled.value && fragments == paths[i..]
        invariant fuse + i + steps == old(fuse)
      {
        if fuse == 0 {
          return Ok(false);
        }
        fragments, fuse := paths[i + 1..], fuse - 1;
      }
      return Ok(true);
    }
  }
}
