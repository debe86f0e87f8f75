/** Chain validation (cpp/replay/event_replayer.cpp:23-87) against the files of a rotating writer. */
module RawChain {
  import opened Wrappers
  import opened RawLedger

  datatype Verdict = Accepted | NoFiles | Missing(path: Name) | StartsLate(path: Name) | Broken(path: Name)

  /** What a path finds beside it: nothing (a file of the older, unmanifested kind) or a manifest. */
  type Catalog = map<Name, Option<Manifest>>

  /** The first offending file decides. */
  method ValidateRawChain(paths: seq<Name>, catalog: Catalog) returns (v: Verdict)
    ensures v == Accepted <==> paths != [] && AllExist(paths, catalog) && Follows(paths, catalog, |paths|)
    ensures v.NoFiles? <==> paths == []
    ensures v.Missing? ==> v.path in paths && v.path !in catalog
    ensures v.StartsLate? ==> paths != [] && v.path == paths[0] && !FollowsAt(paths, catalog, 0)
    ensures v.Broken? ==> exists i :: 0 < i < |paths| && v.path == paths[i] && Follows(paths, catalog, i) && !FollowsAt(paths, catalog, i)
  {
    if paths == [] {
      return NoFiles;
    }
    var k := 0;
    while k < |paths|
      invariant 0 <= k <= |paths| && forall i | 0 <= i < k :: paths[i] in catalog
    {
      if paths[k] !in catalog {
        return Missing(paths[k]);
      }
      k := k + 1;
    }
    var i := 0;
    while i < |paths|
      invariant 0 <= i <= |paths| && Follows(paths, catalog, i)
    {
      var manifest := catalog[paths[i]];
      if manifest.Some? {
        if i == 0 {
          if manifest.value.continuation {
            assert !FollowsAt(paths, catalog, 0);
            return StartsLate(paths[0]);
          }
        } else if manifest.value.previous != Some(paths[i - 1]) {
          assert !FollowsAt(paths, catalog, i);
          return Broken(paths[i]);
        }
      }
      i := i + 1;
    }
    v := Accepted;
  }

  ghost predicate AllExist(paths: seq<Name>, catalog: Catalog) {
    forall i | 0 <= i < |paths| :: paths[i] in catalog
  }

  ghost predicate FollowsAt(paths: seq<Name>, catalog: Catalog, i: int)
    requires 0 <= i < |paths|
  {
    paths[i] in catalog && catalog[paths[i]].Some? ==>
      if i == 0 then !catalog[paths[i]].value.continuation else catalog[paths[i]].value.previous == Some(paths[i - 1])
  }

  ghost predicate Follows(paths: seq<Name>, catalog: Catalog, n: int)
    requires 0 <= n <= |paths|
  {
    forall i | 0 <= i < n :: FollowsAt(paths, catalog, i)
  }

  /** The catalog knows the manifest of every file of one writer. */
  ghost predicate Catalogued(files: seq<ClosedFile>, catalog: Catalog) {
    forall i | 0 <= i < |files| :: files[i].name in catalog && catalog[files[i].name] == Some(files[i].manifest)
  }

  /** The list is the writer's first files, in order. */
  ghost predicate IsPrefix(paths: seq<Name>, files: seq<ClosedFile>) {
    |paths| <= |files| && forall i | 0 <= i < |paths| :: paths[i] == files[i].name
  }

  ghost predicate Among(paths: seq<Name>, files: seq<ClosedFile>) {
    forall i | 0 <= i < |paths| :: NamedIn(paths[i], files)
  }

  ghost predicate NamedIn(name: Name, files: seq<ClosedFile>) {
    exists j :: 0 <= j < |files| && name == files[j].name
  }

  lemma {:induction false} FollowingIsPrefix(paths: seq<Name>, files: seq<ClosedFile>, catalog: Catalog, n: nat)
    requires Chained(files) && DistinctNames(files) && Catalogued(files, catalog) && Among(paths, files)
    requires AllExist(paths, catalog) && n <= |paths| && Follows(paths, catalog, n)
    ensures n <= |files| && forall i | 0 <= i < n :: paths[i] == files[i].name
  {
    if n > 0 {
      FollowingIsPrefix(paths, files, catalog, n - 1);
      assert NamedIn(paths[n - 1], files);
      var j :| 0 <= j < |files| && paths[n - 1] == files[j].name;
      assert FollowsAt(paths, catalog, n - 1);
      assert files[j].manifest == Manifest(if j == 0 then None else Some(files[j - 1].name), j > 0);
      if n > 1 {
        assert files[j - 1].name == files[n - 2].name;
      }
    }
  }

  /** Among the manifested files of one writer, the check accepts a list exactly when it is a non-empty
      prefix of them in writing order. */
  lemma ValidationIsExact(paths: seq<Name>, files: seq<ClosedFile>, catalog: Catalog)
    requires Chained(files) && DistinctNames(files) && Catalogued(files, catalog) && Among(paths, files)
    ensures paths != [] && AllExist(paths, catalog) && Follows(paths, catalog, |paths|) <==> paths != [] && IsPrefix(paths, files)
  {
    assert AllExist(paths, catalog) by {
      forall i | 0 <= i < |paths| ensures paths[i] in catalog {
        assert NamedIn(paths[i], files);
        var j :| 0 <= j < |files| && paths[i] == files[j].name;
      }
    }
    if Follows(paths, catalog, |paths|) {
      FollowingIsPrefix(paths, files, catalog, |paths|);
    }
    if IsPrefix(paths, files) {
      forall i | 0 <= i < |paths| ensures FollowsAt(paths, catalog, i) {
        assert files[i].manifest == Manifest(if i == 0 then None else Some(files[i - 1].name), i > 0);
      }
    }
  }

  /** The catalog finds every file of one writer, with its own manifest or with none. */
  ghost predicate Found(files: seq<ClosedFile>, catalog: Catalog) {
    forall i {:trigger files[i].name} | 0 <= i < |files| ::
      files[i].name in catalog && (catalog[files[i].name] == None || catalog[files[i].name] == Some(files[i].manifest))
  }

  ghost predicate Passes(paths: seq<Name>, catalog: Catalog) {
    paths != [] && AllExist(paths, catalog) && Follows(paths, catalog, |paths|)
  }

  /** The check accepts exactly the non-empty prefixes among all lists of the writer's files. */
  ghost predicate Exact(files: seq<ClosedFile>, catalog: Catalog) {
    forall paths: seq<Name> {:trigger Among(paths, files)} | Among(paths, files) :: Passes(paths, catalog) <==> paths != [] && IsPrefix(paths, files)
  }

  /** A file without a manifest is let through anywhere, even after itself. */
  lemma UnmanifestedPasses(files: seq<ClosedFile>, catalog: Catalog, j: nat)
    requires DistinctNames(files) && Found(files, catalog) && j < |files| && catalog[files[j].name] == None
    ensures var paths := [files[j].name, files[j].name];
            Among(paths, files) && Passes(paths, catalog) && !IsPrefix(paths, files)
  {
    var paths := [files[j].name, files[j].name];
    assert NamedIn(files[j].name, files);
    assert FollowsAt(paths, catalog, 0) && FollowsAt(paths, catalog, 1);
  }

  /** The check is exact on every list of the writer's files if and only if every file has its manifest. */
  lemma ExactIffManifested(files: seq<ClosedFile>, catalog: Catalog)
    requires Chained(files) && DistinctNames(files) && Found(files, catalog)
    ensures Exact(files, catalog) <==> Catalogued(files, catalog)
  {
    if Catalogued(files, catalog) {
      forall paths: seq<Name> | Among(paths, files) ensures Passes(paths, catalog) <==> paths != [] && IsPrefix(paths, files) {
        ValidationIsExact(paths, files, catalog);
      }
    } else {
      var j :| 0 <= j < |files| && !(files[j].name in catalog && catalog[files[j].name] == Some(files[j].manifest));
      UnmanifestedPasses(files, catalog, j);
    }
  }
}
