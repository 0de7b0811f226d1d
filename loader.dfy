/** The Forge 1.13+ loader: the objects it updates in place (the files on disk,
    the installer's cancelled flag, the install profile's substitution table, the
    log of external processor runs) and its three state-changing operations,
    each proved against the functions of Libraries and Processors. */
module Forge113 {
  import opened Paths
  import opened ForgeTypes
  import opened Libraries
  import opened Processors

  /** The files on disk, with the two file operations the loader uses. */
  class FileSystem {
    var files: map<Path, Content>
    const env: Env

    constructor (files0: map<Path, Content>, env0: Env)
      ensures files == files0 && env == env0
    {
      files := files0;
      env := env0;
    }

    /** `Hashing.sha1`: the SHA-1 of an existing file. */
    method Sha1(p: Path) returns (h: Hash)
      requires p in files
      ensures h == env.sha1(files[p])
    {
      h := env.sha1(files[p]);
    }

    /** `Utils.copyFile(from, to, true)`: copies when it can, and says whether it did. */
    method CopyFile(from: Path, to: Path) returns (ok: bool)
      modifies this
      ensures ok == CopySucceeds(old(files), env, from, to)
      ensures files == Copied(old(files), env, from, to)
    {
      ok := from in files && to !in env.unwritable;
      if ok {
        files := files[to := files[from]];
      }
    }
  }

  /** The instance installer as the loader sees it: its side, its directories,
      the vanilla jars' paths, and the cancelled flag. */
  class InstanceInstaller {
    const isServer: bool
    const librariesDirectory: Path   // getLibrariesDirectory()
    const rootDirectory: Path        // getRootDirectory()
    const clientJar: Path            // getMinecraftJarLibrary("client").getAbsolutePath()
    const serverJar: Path            // getMinecraftJarLibrary("server").getAbsolutePath()
    var cancelled: bool

    constructor (isServer: bool, librariesDirectory: Path, rootDirectory: Path, clientJar: Path, serverJar: Path)
      ensures this.isServer == isServer && this.librariesDirectory == librariesDirectory
      ensures this.rootDirectory == rootDirectory && this.clientJar == clientJar && this.serverJar == serverJar
      ensures !cancelled
    {
      this.isServer := isServer;
      this.librariesDirectory := librariesDirectory;
      this.rootDirectory := rootDirectory;
      this.clientJar := clientJar;
      this.serverJar := serverJar;
      cancelled := false;
    }

    /** `cancel(true)`: sets the flag; nothing clears it. */
    method Cancel()
      modifies this
      ensures cancelled
    {
      cancelled := true;
    }
  }

  /** The external tools processors invoke: which runs fail is decided outside the
      loader, and `invoked` records every run in order. */
  class ProcessorTool {
    const fails: Processor -> bool
    var invoked: seq<Processor>

    constructor (fails: Processor -> bool)
      ensures this.fails == fails && invoked == []
    {
      this.fails := fails;
      invoked := [];
    }

    /** `processor.process(...)`: runs the tool; false when it throws an IOException. */
    method Process(p: Processor) returns (ok: bool)
      modifies this
      ensures invoked == old(invoked) + [p]
      ensures ok == !fails(p)
    {
      invoked := invoked + [p];
      ok := !fails(p);
    }
  }

  /** The install profile as the superclass reads it from install_profile.json. */
  datatype ProfileJson = ProfileJson(data: map<string, Data>, libraries: seq<Library>, processors: seq<Processor>)

  /** A loaded install profile; its substitution table is updated in place. */
  class ForgeInstallProfile {
    var data: map<string, Data>
    const libraries: seq<Library>
    const processors: seq<Processor>

    constructor (json: ProfileJson)
      ensures data == json.data && libraries == json.libraries && processors == json.processors
    {
      data := json.data;
      libraries := json.libraries;
      processors := json.processors;
    }

    /** `data.put(key, value)`. */
    method Put(key: string, value: Data)
      modifies this
      ensures data == old(data)[key := value]
    {
      data := data[key := value];
    }
  }

  /** The substitution table of a Forge 1.13+ profile: `SIDE` maps to the literal
      side names, `MINECRAFT_JAR` to the two vanilla jars, every other key keeps
      the value the profile file gave it, and no other key is added. */
  function ForgeData(base: map<string, Data>, clientJar: Path, serverJar: Path): (r: map<string, Data>)
    ensures "SIDE" in r && r["SIDE"] == Data("client", "server")
    ensures "MINECRAFT_JAR" in r && r["MINECRAFT_JAR"] == Data(clientJar, serverJar)
    ensures forall k :: k in base && k != "SIDE" && k != "MINECRAFT_JAR" ==> k in r && r[k] == base[k]
    ensures r.Keys == base.Keys + {"SIDE", "MINECRAFT_JAR"}
  {
    base["SIDE" := Data("client", "server")]["MINECRAFT_JAR" := Data(clientJar, serverJar)]
  }

  class Forge113Loader {
    const installer: InstanceInstaller
    const disk: FileSystem
    const tools: ProcessorTool
    const tempDir: Path
    const gameLibrariesDir: Path     // App.settings.getGameLibrariesDir()
    const profileJson: ProfileJson   // what super.getInstallProfile() reads
    const version: Version           // what getVersion() reads from version.json

    constructor (installer: InstanceInstaller, disk: FileSystem, tools: ProcessorTool,
                 tempDir: Path, gameLibrariesDir: Path, profileJson: ProfileJson, version: Version)
      ensures this.installer == installer && this.disk == disk && this.tools == tools
      ensures this.tempDir == tempDir && this.gameLibrariesDir == gameLibrariesDir
      ensures this.profileJson == profileJson && this.version == version
    {
      this.installer := installer;
      this.disk := disk;
      this.tools := tools;
      this.tempDir := tempDir;
      this.gameLibrariesDir := gameLibrariesDir;
      this.profileJson := profileJson;
      this.version := version;
    }

    /** The directories this loader works with. */
    function Dirs(): Layout {
      Layout(tempDir, gameLibrariesDir, installer.librariesDirectory, installer.rootDirectory, installer.isServer)
    }

    /** `getInstallProfile`: the superclass's profile with the two Forge 1.13+ substitutions put in. */
    method GetInstallProfile() returns (profile: ForgeInstallProfile)
      ensures fresh(profile)
      ensures profile.data == ForgeData(profileJson.data, installer.clientJar, installer.serverJar)
      ensures profile.libraries == profileJson.libraries && profile.processors == profileJson.processors
    {
      profile := new ForgeInstallProfile(profileJson);
      profile.Put("SIDE", Data("client", "server"));
      profile.Put("MINECRAFT_JAR", Data(installer.clientJar, installer.serverJar));
    }

    /** The body of the install-profile loop of `getDownloadableLibraries` for one library. */
    method PlaceProfileLibrary(library: Library) returns (queued: seq<Downloadable>)
      modifies disk, installer
      ensures queued == DownloadFor(library, Dirs())
      ensures Outcome(disk.files, installer.cancelled) ==
        ProfileStep(Outcome(old(disk.files), old(installer.cancelled)), library, Dirs(), disk.env)
    {
      var librariesDirectory := if installer.isServer then installer.librariesDirectory else gameLibrariesDir;
      var artifact := library.artifact;
      var downloadTo := Join(gameLibrariesDir, artifact.path);
      var finalDownloadTo := Join(librariesDirectory, artifact.path);
      queued := [];
      if artifact.url.None? {
        var extractedLibraryFile := Join(tempDir, "maven/" + artifact.path);
        if extractedLibraryFile in disk.files && finalDownloadTo !in disk.files {
          var ok := disk.CopyFile(extractedLibraryFile, finalDownloadTo);
          if !ok {
            installer.Cancel();
          }
        } else if finalDownloadTo in disk.files {
          var h := disk.Sha1(finalDownloadTo);
          if h != artifact.sha1 {
            installer.Cancel();
          }
        }
      } else {
        queued := [Downloadable(artifact.url.value, downloadTo, artifact.sha1, artifact.size, finalDownloadTo)];
      }
    }

    /** The body of the version loop of `getDownloadableLibraries` for one library. */
    method PlaceVersionLibrary(library: Library) returns (queued: seq<Downloadable>)
      modifies disk
      ensures queued == DownloadFor(library, Dirs())
      ensures Outcome(disk.files, installer.cancelled) ==
        VersionStep(Outcome(old(disk.files), installer.cancelled), library, Dirs(), disk.env)
    {
      var librariesDirectory := if installer.isServer then installer.librariesDirectory else gameLibrariesDir;
      var artifact := library.artifact;
      var downloadTo := Join(gameLibrariesDir, artifact.path);
      var finalDownloadTo := Join(librariesDirectory, artifact.path);
      queued := [];
      if artifact.url.None? {
        var extractedLibraryFile := Join(tempDir, "maven/" + artifact.path);
        if extractedLibraryFile in disk.files && finalDownloadTo !in disk.files {
          var _ := disk.CopyFile(extractedLibraryFile, finalDownloadTo);
        }
        // a final file with the wrong SHA-1 is only reported
        if installer.isServer {
          var _ := disk.CopyFile(extractedLibraryFile, Join(installer.rootDirectory, FileName(downloadTo)));
        }
      } else {
        queued := [Downloadable(artifact.url.value, downloadTo, artifact.sha1, artifact.size, finalDownloadTo)];
      }
    }

    /** The install-profile loop of `getDownloadableLibraries`. */
    method PlaceProfileLibraries(libs: seq<Library>) returns (queued: seq<Downloadable>)
      modifies disk, installer
      ensures queued == DownloadsOf(libs, Dirs())
      ensures Outcome(disk.files, installer.cancelled) ==
        ProfileEffects(Outcome(old(disk.files), old(installer.cancelled)), libs, Dirs(), disk.env)
    {
      ghost var start := Outcome(disk.files, installer.cancelled);
      queued := [];
      var i := 0;
      while i < |libs|
        invariant 0 <= i <= |libs|
        invariant queued == DownloadsOf(libs[..i], Dirs())
        invariant Outcome(disk.files, installer.cancelled) == ProfileEffects(start, libs[..i], Dirs(), disk.env)
      {
        var q := PlaceProfileLibrary(libs[i]);
        queued := queued + q;
        assert libs[..i + 1][..i] == libs[..i];
        i := i + 1;
      }
      assert libs[..i] == libs;
    }

    /** The version loop of `getDownloadableLibraries`. */
    method PlaceVersionLibraries(libs: seq<Library>) returns (queued: seq<Downloadable>)
      modifies disk
      ensures queued == DownloadsOf(libs, Dirs())
      ensures Outcome(disk.files, installer.cancelled) ==
        VersionEffects(Outcome(old(disk.files), installer.cancelled), libs, Dirs(), disk.env)
    {
      ghost var start := Outcome(disk.files, installer.cancelled);
      queued := [];
      var i := 0;
      while i < |libs|
        invariant 0 <= i <= |libs|
        invariant queued == DownloadsOf(libs[..i], Dirs())
        invariant Outcome(disk.files, installer.cancelled) == VersionEffects(start, libs[..i], Dirs(), disk.env)
      {
        var q := PlaceVersionLibrary(libs[i]);
        queued := queued + q;
        assert libs[..i + 1][..i] == libs[..i];
        i := i + 1;
      }
      assert libs[..i] == libs;
    }

    /** `getDownloadableLibraries`: walks the install-profile libraries and then the
        version libraries, queueing a download for each network library and
        placing or checking each embedded one. */
    method GetDownloadableLibraries() returns (librariesToDownload: seq<Downloadable>)
      modifies disk, installer
      ensures librariesToDownload == DownloadsOf(profileJson.libraries, Dirs()) + DownloadsOf(version.libraries, Dirs())
      ensures Outcome(disk.files, installer.cancelled) ==
        VersionEffects(ProfileEffects(Outcome(old(disk.files), old(installer.cancelled)), profileJson.libraries, Dirs(), disk.env),
                       version.libraries, Dirs(), disk.env)
    {
      var installProfile := GetInstallProfile();
      var fromProfile := PlaceProfileLibraries(installProfile.libraries);
      var fromVersion := PlaceVersionLibraries(version.libraries);
      librariesToDownload := fromProfile + fromVersion;
    }

    /** `runProcessors`: the profile's processors in order, each skipped while the
        install is cancelled, a failing one cancelling it. */
    method RunProcessors()
      modifies installer, tools
      ensures var r := Run(profileJson.processors, old(installer.cancelled), tools.fails);
        tools.invoked == old(tools.invoked) + r.ran && installer.cancelled == r.cancelled
    {
      var installProfile := GetInstallProfile();
      var procs := installProfile.processors;
      ghost var invoked0 := tools.invoked;
      ghost var cancelled0 := installer.cancelled;
      var i := 0;
      while i < |procs|
        invariant 0 <= i <= |procs|
        invariant var r := Run(procs[..i], cancelled0, tools.fails);
          tools.invoked == invoked0 + r.ran && installer.cancelled == r.cancelled
      {
        var processor := procs[i];
        if !installer.cancelled {
          var ok := tools.Process(processor);
          if !ok {
            installer.Cancel();
          }
        }
        assert procs[..i + 1][..i] == procs[..i];
        i := i + 1;
      }
      assert procs[..i] == procs;
    }
  }
}
