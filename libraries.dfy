/** What `getDownloadableLibraries` computes and does, as functions of its inputs:
    the list of downloads it returns, and the file copies and cancellation it
    performs while walking the install-profile libraries and then the version
    libraries. */
module Libraries {
  import opened Paths
  import opened ForgeTypes

  /** The directories the loader works with. */
  datatype Layout = Layout(
    tempDir: Path,              // where the installer jar was extracted
    gameLibrariesDir: Path,     // the launcher-wide libraries directory
    instanceLibrariesDir: Path, // the instance's own libraries directory
    rootDirectory: Path,        // the instance's root directory
    isServer: bool)
  {
    /** The directory libraries finally land in: the instance's for a server, the launcher's otherwise. */
    function LibrariesDirectory(): Path {
      if isServer then instanceLibrariesDir else gameLibrariesDir
    }

    /** Where a download is staged. */
    function DownloadTo(a: Download): Path { Join(gameLibrariesDir, a.path) }

    /** Where the library must end up. */
    function FinalDownloadTo(a: Download): Path { Join(LibrariesDirectory(), a.path) }

    /** Where an embedded library was extracted from the installer. */
    function Extracted(a: Download): Path { Join(tempDir, "maven/" + a.path) }

    /** `new File(rootDirectory, downloadTo.getName())`: the server-side copy of an embedded version library. */
    function RootCopy(a: Download): Path { Join(rootDirectory, FileName(DownloadTo(a))) }
  }

  /** The outside world the loader relies on: the SHA-1 of a file's content, and
      the destinations a copy cannot write (permissions, full disk). */
  datatype Env = Env(sha1: Content -> Hash, unwritable: set<Path>)

  /** Whether `Utils.copyFile(from, to)` succeeds: the source must exist and the destination be writable. */
  predicate CopySucceeds(files: map<Path, Content>, env: Env, from: Path, to: Path) {
    from in files && to !in env.unwritable
  }

  /** The files after `Utils.copyFile(from, to)`: `to` holds the content of `from`
      when the copy succeeds; nothing changes when it fails. */
  function Copied(files: map<Path, Content>, env: Env, from: Path, to: Path): (r: map<Path, Content>)
    ensures CopySucceeds(files, env, from, to) ==> to in r && r[to] == files[from]
    ensures !CopySucceeds(files, env, from, to) ==> r == files
    ensures forall p :: p != to ==> (p in r <==> p in files)
    ensures forall p :: p != to && p in files ==> r[p] == files[p]
  {
    if CopySucceeds(files, env, from, to) then files[to := files[from]] else files
  }

  // ---------------------------------------------------------------------------
  // The download list

  /** The downloads one library contributes: one for a network library, none for an embedded one. */
  function DownloadFor(lib: Library, lay: Layout): seq<Downloadable> {
    var a := lib.artifact;
    if a.url.Some? then [Downloadable(a.url.value, lay.DownloadTo(a), a.sha1, a.size, lay.FinalDownloadTo(a))]
    else []
  }

  /** The downloads a list of libraries contributes, in list order. */
  function DownloadsOf(libs: seq<Library>, lay: Layout): seq<Downloadable>
    decreases |libs|
  {
    if libs == [] then []
    else DownloadsOf(libs[..|libs| - 1], lay) + DownloadFor(libs[|libs| - 1], lay)
  }

  /** The network-sourced libraries of `libs`, in order: those whose url is not null. */
  function Network(libs: seq<Library>): (r: seq<Library>)
    ensures forall l :: l in r ==> l.artifact.url.Some?
    decreases |libs|
  {
    if libs == [] then []
    else if libs[0].artifact.url.Some? then [libs[0]] + Network(libs[1..])
    else Network(libs[1..])
  }

  /** Walking two lists one after the other gives the two download lists one after the other. */
  lemma {:induction false} DownloadsAppend(a: seq<Library>, b: seq<Library>, lay: Layout)
    ensures DownloadsOf(a + b, lay) == DownloadsOf(a, lay) + DownloadsOf(b, lay)
    decreases |b|
  {
    if b != [] {
      assert (a + b)[..|a + b| - 1] == a + b[..|b| - 1];
      DownloadsAppend(a, b[..|b| - 1], lay);
    } else {
      assert a + b == a;
    }
  }

  /** Network distributes over concatenation. */
  lemma {:induction false} NetworkAppend(a: seq<Library>, b: seq<Library>)
    ensures Network(a + b) == Network(a) + Network(b)
    decreases |a|
  {
    if a == [] {
      assert a + b == b;
    } else {
      assert (a + b)[1..] == a[1..] + b;
      NetworkAppend(a[1..], b);
    }
  }

  /** Each occurrence of a network library in the input yields exactly one entry of
      Network, and an embedded library yields none. */
  lemma {:induction false} NetworkCounts(libs: seq<Library>, x: Library)
    ensures multiset(Network(libs))[x] == if x.artifact.url.Some? then multiset(libs)[x] else 0
    decreases |libs|
  {
    if libs != [] {
      NetworkCounts(libs[1..], x);
      assert libs == [libs[0]] + libs[1..];
      assert multiset(libs) == multiset([libs[0]]) + multiset(libs[1..]);
    }
  }

  /** The download list is exactly the network libraries, in input order, each
      staged under the launcher libraries directory and finally placed under the
      libraries directory of the side being installed, with its url, hash and size. */
  lemma {:induction false} DownloadsAreNetworkLibraries(libs: seq<Library>, lay: Layout)
    ensures var d, n := DownloadsOf(libs, lay), Network(libs);
      |d| == |n| &&
      forall k :: 0 <= k < |d| ==>
        d[k].url == n[k].artifact.url.value &&
        d[k].file == Join(lay.gameLibrariesDir, n[k].artifact.path) &&
        d[k].copyTo == Join(if lay.isServer then lay.instanceLibrariesDir else lay.gameLibrariesDir, n[k].artifact.path) &&
        d[k].hash == n[k].artifact.sha1 &&
        d[k].size == n[k].artifact.size
    decreases |libs|
  {
    if libs != [] {
      var init, last := libs[..|libs| - 1], libs[|libs| - 1];
      assert libs == init + [last];
      DownloadsAreNetworkLibraries(init, lay);
      NetworkAppend(init, [last]);
      assert Network([last]) == if last.artifact.url.Some? then [last] else [];
    }
  }

  // ---------------------------------------------------------------------------
  // Copies and cancellation

  /** The files on disk and the installer's cancelled flag. */
  datatype Outcome = Outcome(files: map<Path, Content>, cancelled: bool)

  /** One install-profile library: an embedded one is copied from the extracted
      installer when its final file is missing, and the install is cancelled if
      that copy fails or if an existing final file has the wrong SHA-1. */
  function ProfileStep(o: Outcome, lib: Library, lay: Layout, env: Env): Outcome {
    var a := lib.artifact;
    if a.url.Some? then o
    else
      var extracted, final := lay.Extracted(a), lay.FinalDownloadTo(a);
      if extracted in o.files && final !in o.files then
        if CopySucceeds(o.files, env, extracted, final) then Outcome(Copied(o.files, env, extracted, final), o.cancelled)
        else Outcome(o.files, true)
      else if final in o.files && env.sha1(o.files[final]) != a.sha1 then Outcome(o.files, true)
      else o
  }

  /** The install-profile libraries, walked in order. */
  function ProfileEffects(o: Outcome, libs: seq<Library>, lay: Layout, env: Env): Outcome
    decreases |libs|
  {
    if libs == [] then o
    else ProfileStep(ProfileEffects(o, libs[..|libs| - 1], lay, env), libs[|libs| - 1], lay, env)
  }

  /** One version library: an embedded one is copied from the extracted installer
      when its final file is missing (whether the copy worked is ignored), a wrong
      SHA-1 only warns, and a server install always also copies the extracted file
      into the root directory. */
  function VersionStep(o: Outcome, lib: Library, lay: Layout, env: Env): Outcome {
    var a := lib.artifact;
    if a.url.Some? then o
    else
      var extracted, final := lay.Extracted(a), lay.FinalDownloadTo(a);
      var placed := if extracted in o.files && final !in o.files then Copied(o.files, env, extracted, final) else o.files;
      var files := if lay.isServer then Copied(placed, env, extracted, lay.RootCopy(a)) else placed;
      Outcome(files, o.cancelled)
  }

  /** The version libraries, walked in order. */
  function VersionEffects(o: Outcome, libs: seq<Library>, lay: Layout, env: Env): Outcome
    decreases |libs|
  {
    if libs == [] then o
    else VersionStep(VersionEffects(o, libs[..|libs| - 1], lay, env), libs[|libs| - 1], lay, env)
  }

  /** When an install-profile library cancels the install: it is embedded and,
      if its final file exists, that file's SHA-1 differs from the expected one;
      if it does not, the extracted copy exists and copying it fails. */
  predicate ProfileCancels(files: map<Path, Content>, lib: Library, lay: Layout, env: Env) {
    var a := lib.artifact;
    var extracted, final := lay.Extracted(a), lay.FinalDownloadTo(a);
    a.url.None? &&
    if final in files then env.sha1(files[final]) != a.sha1
    else extracted in files && !CopySucceeds(files, env, extracted, final)
  }

  /** One install-profile library cancels exactly in the cases ProfileCancels names,
      never clears the flag, and changes no file but its own final path. */
  lemma ProfileStepCancels(o: Outcome, lib: Library, lay: Layout, env: Env)
    ensures ProfileStep(o, lib, lay, env).cancelled <==> o.cancelled || ProfileCancels(o.files, lib, lay, env)
    ensures var r := ProfileStep(o, lib, lay, env).files; var final := lay.FinalDownloadTo(lib.artifact);
      forall p :: p != final ==> (p in r <==> p in o.files) && (p in r ==> r[p] == o.files[p])
  {
  }

  /** A network library, or an embedded one whose final file is present with the
      right SHA-1, leaves files and flag untouched. */
  lemma ProfileStepUnchanged(o: Outcome, lib: Library, lay: Layout, env: Env)
    requires var a := lib.artifact; var final := lay.FinalDownloadTo(a);
      a.url.Some? || (final in o.files && env.sha1(o.files[final]) == a.sha1)
    ensures ProfileStep(o, lib, lay, env) == o
  {
  }

  /** An embedded library whose final file is missing and whose extracted copy exists
      is placed at its final path when the copy can be made. */
  lemma ProfileStepCopies(o: Outcome, lib: Library, lay: Layout, env: Env)
    requires var a := lib.artifact; var extracted, final := lay.Extracted(a), lay.FinalDownloadTo(a);
      a.url.None? && extracted in o.files && final !in o.files && final !in env.unwritable
    ensures var r := ProfileStep(o, lib, lay, env); var a := lib.artifact;
      r.cancelled == o.cancelled &&
      r.files == o.files[lay.FinalDownloadTo(a) := o.files[lay.Extracted(a)]]
  {
  }

  /** Once set, the cancelled flag stays set through the install-profile libraries. */
  lemma {:induction false} ProfileEffectsKeepCancel(o: Outcome, libs: seq<Library>, lay: Layout, env: Env)
    requires o.cancelled
    ensures ProfileEffects(o, libs, lay, env).cancelled
    decreases |libs|
  {
    if libs != [] {
      ProfileEffectsKeepCancel(o, libs[..|libs| - 1], lay, env);
    }
  }

  /** The library at position `i` cancels against the files the walk has reached by then. */
  predicate CancelsAt(o: Outcome, libs: seq<Library>, i: nat, lay: Layout, env: Env)
    requires i < |libs|
  {
    ProfileCancels(ProfileEffects(o, libs[..i], lay, env).files, libs[i], lay, env)
  }

  /** The install-profile walk ends cancelled exactly when the flag was already set
      or some library cancelled against the files as they stood when it was reached. */
  lemma {:induction false} ProfileEffectsCancelled(o: Outcome, libs: seq<Library>, lay: Layout, env: Env)
    ensures ProfileEffects(o, libs, lay, env).cancelled <==>
      o.cancelled || exists i :: 0 <= i < |libs| && CancelsAt(o, libs, i, lay, env)
    decreases |libs|
  {
    if libs != [] {
      var n := |libs| - 1;
      var init := libs[..n];
      var mid := ProfileEffects(o, init, lay, env);
      ProfileEffectsCancelled(o, init, lay, env);
      ProfileStepCancels(mid, libs[n], lay, env);
      assert ProfileEffects(o, libs, lay, env) == ProfileStep(mid, libs[n], lay, env);
      forall i | 0 <= i < n
        ensures CancelsAt(o, init, i, lay, env) == CancelsAt(o, libs, i, lay, env)
      {
        assert init[..i] == libs[..i];
      }
      assert CancelsAt(o, libs, n, lay, env) == ProfileCancels(mid.files, libs[n], lay, env);
    }
  }

  /** The version libraries never set the cancelled flag, and never clear it. */
  lemma {:induction false} VersionEffectsNeverCancel(o: Outcome, libs: seq<Library>, lay: Layout, env: Env)
    ensures VersionEffects(o, libs, lay, env).cancelled == o.cancelled
    decreases |libs|
  {
    if libs != [] {
      VersionEffectsNeverCancel(o, libs[..|libs| - 1], lay, env);
    }
  }

  /** A version library whose final file exists is left alone on a client install,
      whatever its SHA-1: the mismatch is only reported. */
  lemma VersionStepMismatchOnlyWarns(o: Outcome, lib: Library, lay: Layout, env: Env)
    requires !lay.isServer && lay.FinalDownloadTo(lib.artifact) in o.files
    ensures VersionStep(o, lib, lay, env) == o
  {
  }

  /** An embedded version library whose final file is missing and whose extracted
      copy exists is placed at its final path when the copy can be made; a server
      install's later root copy does not overwrite it unless both paths coincide. */
  lemma VersionStepCopies(o: Outcome, lib: Library, lay: Layout, env: Env)
    requires var a := lib.artifact; var extracted, final := lay.Extracted(a), lay.FinalDownloadTo(a);
      a.url.None? && extracted in o.files && final !in o.files && final !in env.unwritable &&
      (!lay.isServer || lay.RootCopy(a) != final)
    ensures var r := VersionStep(o, lib, lay, env); var a := lib.artifact;
      r.cancelled == o.cancelled &&
      lay.FinalDownloadTo(a) in r.files && r.files[lay.FinalDownloadTo(a)] == o.files[lay.Extracted(a)]
  {
  }

  /** A version library changes no path other than its final path and its root-directory copy. */
  lemma VersionStepFrame(o: Outcome, lib: Library, lay: Layout, env: Env)
    ensures var r := VersionStep(o, lib, lay, env).files; var a := lib.artifact;
      forall p :: p != lay.FinalDownloadTo(a) && p != lay.RootCopy(a) ==>
        (p in r <==> p in o.files) && (p in r ==> r[p] == o.files[p])
  {
  }

  /** On a server install an embedded version library is copied from the extracted
      installer into the root directory under its file name, whether or not it was
      also placed in the libraries directory. */
  lemma VersionStepServerCopy(o: Outcome, lib: Library, lay: Layout, env: Env)
    requires var a := lib.artifact;
      lay.isServer && a.url.None? && lay.Extracted(a) in o.files &&
      lay.RootCopy(a) !in env.unwritable
    ensures var r := VersionStep(o, lib, lay, env); var a := lib.artifact;
      Join(lay.rootDirectory, FileName(a.path)) in r.files &&
      r.files[Join(lay.rootDirectory, FileName(a.path))] == o.files[lay.Extracted(a)]
  {
    var a := lib.artifact;
    var extracted, final := lay.Extracted(a), lay.FinalDownloadTo(a);
    var placed := if extracted in o.files && final !in o.files then Copied(o.files, env, extracted, final) else o.files;
    assert extracted in placed && placed[extracted] == o.files[extracted];
    assert CopySucceeds(placed, env, extracted, lay.RootCopy(a));
    assert VersionStep(o, lib, lay, env).files == Copied(placed, env, extracted, lay.RootCopy(a));
    FileNameJoin(lay.gameLibrariesDir, a.path);
  }
}
