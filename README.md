# Forge 1.13+ loader install steps, modelled in Dafny

This project models `Forge113Loader`, the part of ATLauncher that installs a
Forge 1.13+ mod loader into a Minecraft instance. The model covers four
operations:

- `getDownloadableLibraries`. It walks the install-profile libraries and then
  the version libraries. Each library with a url is queued as a `Downloadable`.
  The download is staged under the launcher libraries directory. Its final path
  is under the instance libraries directory for a server install and under the
  launcher libraries directory otherwise. A library whose url is null is
  embedded in the installer. If its final file is missing and the extracted
  file `tempDir/maven/<path>` exists, the extracted file is copied to the final
  path. If its final file is present, its SHA-1 is checked. If neither file
  exists, nothing happens and no error is raised. For an install-profile library, a failed copy or a wrong SHA-1
  cancels the install. For a version library, the copy result is ignored and a
  wrong SHA-1 is only reported. For every embedded version library, a server
  install also attempts a copy of the extracted file into the instance root
  directory. That copy does nothing when the extracted file is missing.
- `runProcessors`. The profile's processors run in order. Each one is skipped
  while the install is cancelled, and a failing one cancels it.
- `getInstallProfile`. It adds the `SIDE` and `MINECRAFT_JAR` entries to the
  substitution table read from the profile.
- `getServerJar`. It returns the file name of the first version library whose
  url is empty.

How the outside world is represented:

- The disk is a map from path to content.
- SHA-1 is a function value that the model never looks inside (`Env.sha1`).
- `Utils.copyFile` succeeds when its source exists and its destination is not
  in a given set of unwritable paths.
- A path join is `dir + "/" + child`.
- Whether an external processor run fails is a given function (`ProcessorTool.fails`).

Module layout:

- `Paths`: path text, meaning `lastIndexOf` and the file name after the last '/'.
- `ForgeTypes`: the values the loader reads and the download requests it builds.
- `Libraries`: what `getDownloadableLibraries` computes and does, as functions
  that walk the lists in order, with lemmas about them.
- `DownloadableLibraries`: the two walks combined.
- `Processors`: what `runProcessors` does, as a function, with lemmas about it.
- `ServerJars`: `getServerJar`, a pure function.
- `Forge113`: the objects updated in place (`FileSystem`, `InstanceInstaller`,
  `ForgeInstallProfile`, `ProcessorTool`) and the `Forge113Loader` class. Each
  state-changing method of `Forge113Loader` is proved against the functions above.

`getServerJar` calls `url.isEmpty()`. A library with a null url makes that call
throw a `NullPointerException` if the stream reaches it before an empty-url
library. The model returns that outcome as `NullPointer`.

## Model

| member | source | states |
|---|---|---|
| `Paths.LastIndexOf` | src/main/java/com/atlauncher/data/minecraft/loaders/forge/Forge113Loader.java:167 | the result is -1 or an index holding the character, and no later index holds it |
| `Paths.FileName` | src/main/java/com/atlauncher/data/minecraft/loaders/forge/Forge113Loader.java:166-168 | the name is a suffix of the path, contains no '/', and is either the whole path or preceded by '/' (the longest such suffix) |
| `Paths.FileNameJoin` | src/main/java/com/atlauncher/data/minecraft/loaders/forge/Forge113Loader.java:120-121 | `getName` of `gameLibrariesDir/path` is the file name of the artifact path alone |
| `Libraries.Copied` | src/main/java/com/atlauncher/data/minecraft/loaders/forge/Forge113Loader.java:84 | a successful copy makes the destination hold the source's content; a failed one changes nothing; no path other than the destination changes |
| `Libraries.Network` | src/main/java/com/atlauncher/data/minecraft/loaders/forge/Forge113Loader.java:79 | every library it keeps has a non-null url |
| `Libraries.DownloadsAppend` | src/main/java/com/atlauncher/data/minecraft/loaders/forge/Forge113Loader.java:74-129 | the downloads of two lists walked one after the other are the first list's downloads followed by the second's |
| `Libraries.NetworkAppend` | src/main/java/com/atlauncher/data/minecraft/loaders/forge/Forge113Loader.java:74-129 | selecting network libraries distributes over concatenation |
| `Libraries.NetworkCounts` | src/main/java/com/atlauncher/data/minecraft/loaders/forge/Forge113Loader.java:79-96 | each occurrence of a library with a url is selected exactly once; a library with a null url never is |
| `Libraries.DownloadsAreNetworkLibraries` | src/main/java/com/atlauncher/data/minecraft/loaders/forge/Forge113Loader.java:69-96 | the k-th download is the k-th network library: its url, hash and size, staged at `gameLibrariesDir/path`, final at `instanceLibrariesDir/path` on a server and `gameLibrariesDir/path` otherwise |
| `Libraries.ProfileStepCancels` | src/main/java/com/atlauncher/data/minecraft/loaders/forge/Forge113Loader.java:79-92 | an install-profile library cancels exactly when it is embedded and either its existing final file has the wrong SHA-1 or its final file is missing, the extracted file exists and the copy fails; the flag is never cleared; only the final path can change |
| `Libraries.ProfileStepUnchanged` | src/main/java/com/atlauncher/data/minecraft/loaders/forge/Forge113Loader.java:88-96 | a network library, or an embedded one whose final file has the right SHA-1, changes neither files nor flag |
| `Libraries.ProfileStepCopies` | src/main/java/com/atlauncher/data/minecraft/loaders/forge/Forge113Loader.java:82-87 | a missing final file with an extracted copy and a writable destination receives the extracted content, without cancelling |
| `Libraries.ProfileEffectsKeepCancel` | src/main/java/com/atlauncher/data/minecraft/loaders/forge/Forge113Loader.java:74-97 | once set, the cancelled flag stays set through the install-profile libraries |
| `Libraries.ProfileEffectsCancelled` | src/main/java/com/atlauncher/data/minecraft/loaders/forge/Forge113Loader.java:74-97 | the install-profile walk ends cancelled iff it started cancelled or some library cancelled against the files as they stood when it was reached |
| `Libraries.VersionEffectsNeverCancel` | src/main/java/com/atlauncher/data/minecraft/loaders/forge/Forge113Loader.java:101-127 | the version libraries leave the cancelled flag as it was |
| `Libraries.VersionStepMismatchOnlyWarns` | src/main/java/com/atlauncher/data/minecraft/loaders/forge/Forge113Loader.java:114-117 | on a client install, a version library whose final file exists changes nothing, whatever its SHA-1 |
| `Libraries.VersionStepCopies` | src/main/java/com/atlauncher/data/minecraft/loaders/forge/Forge113Loader.java:109-113 | an embedded version library whose final file is missing and whose extracted file exists gets the extracted content at its final path (when writable and not overwritten by the root copy); the flag is unchanged |
| `Libraries.VersionStepFrame` | src/main/java/com/atlauncher/data/minecraft/loaders/forge/Forge113Loader.java:106-122 | a version library changes no path other than its final path and its root-directory copy |
| `Libraries.VersionStepServerCopy` | src/main/java/com/atlauncher/data/minecraft/loaders/forge/Forge113Loader.java:119-122 | on a server install, when the extracted file exists and the target is writable, an embedded version library's extracted file is copied to `rootDirectory/<file name of path>` |
| `DownloadableLibraries.DownloadList` | src/main/java/com/atlauncher/data/minecraft/loaders/forge/Forge113Loader.java:66-130 | the returned list is the network libraries of the install profile and then of the version, one download each, with their url, hash, size, staging path and final path |
| `DownloadableLibraries.DownloadCancellation` | src/main/java/com/atlauncher/data/minecraft/loaders/forge/Forge113Loader.java:66-130 | a call ends cancelled iff it started cancelled or some install-profile library cancelled |
| `Processors.RunIsPrefix` | src/main/java/com/atlauncher/data/minecraft/loaders/forge/Forge113Loader.java:135-145 | the processors run are a prefix of the list, in list order |
| `Processors.RunCancelledOrComplete` | src/main/java/com/atlauncher/data/minecraft/loaders/forge/Forge113Loader.java:135-145 | a run that ends uncancelled ran every processor |
| `Processors.RunWhenCancelled` | src/main/java/com/atlauncher/data/minecraft/loaders/forge/Forge113Loader.java:136 | starting cancelled, no processor runs and the flag stays set |
| `Processors.RunAllSucceed` | src/main/java/com/atlauncher/data/minecraft/loaders/forge/Forge113Loader.java:135-145 | with no failing processor, all run and the install is not cancelled |
| `Processors.RunStopsAtFirstFailure` | src/main/java/com/atlauncher/data/minecraft/loaders/forge/Forge113Loader.java:137-143 | the processors up to and including the first failing one run, no later one does, and the install ends cancelled |
| `Processors.RunCancelledIffFailure` | src/main/java/com/atlauncher/data/minecraft/loaders/forge/Forge113Loader.java:136-143 | the final flag is set iff it was set at the start or a processor that ran failed |
| `ServerJars.FindFirstEmptyUrl` | src/main/java/com/atlauncher/data/minecraft/loaders/forge/Forge113Loader.java:162-163 | nothing is found iff every url is non-null and non-empty; a found index is the first empty url with only non-empty urls before it; it throws iff a null url comes before any empty one |
| `ServerJars.GetServerJar` | src/main/java/com/atlauncher/data/minecraft/loaders/forge/Forge113Loader.java:161-172 | null iff every url is non-null and non-empty; a NullPointerException iff a null url comes before any empty one; otherwise the path suffix after the last '/' of the first empty-url library, which holds no '/' |
| `Forge113.ForgeData` | src/main/java/com/atlauncher/data/minecraft/loaders/forge/Forge113Loader.java:45-48 | `SIDE` is `Data("client","server")`, `MINECRAFT_JAR` holds the client and server jar paths, every other key keeps its profile value, no other key is added |
| `Forge113.ForgeInstallProfile.Put` | src/main/java/com/atlauncher/data/minecraft/loaders/forge/Forge113Loader.java:45 | the table gains or replaces exactly one entry |
| `Forge113.Forge113Loader.GetInstallProfile` | src/main/java/com/atlauncher/data/minecraft/loaders/forge/Forge113Loader.java:42-51 | a new profile whose table is `ForgeData` of the file's table, with the file's libraries and processors |
| `Forge113.FileSystem.Sha1` | src/main/java/com/atlauncher/data/minecraft/loaders/forge/Forge113Loader.java:89 | the hash of the file's current content |
| `Forge113.FileSystem.CopyFile` | src/main/java/com/atlauncher/data/minecraft/loaders/forge/Forge113Loader.java:84 | reports success exactly when the copy can be made, and leaves the files as `Copied` says |
| `Forge113.InstanceInstaller.Cancel` | src/main/java/com/atlauncher/data/minecraft/loaders/forge/Forge113Loader.java:86 | the cancelled flag is set |
| `Forge113.ProcessorTool.Process` | src/main/java/com/atlauncher/data/minecraft/loaders/forge/Forge113Loader.java:138 | the run is recorded, and it succeeds unless the tool fails |
| `Forge113.Forge113Loader.PlaceProfileLibrary` | src/main/java/com/atlauncher/data/minecraft/loaders/forge/Forge113Loader.java:75-96 | one install-profile iteration queues `DownloadFor` and changes files and flag as `ProfileStep` says |
| `Forge113.Forge113Loader.PlaceVersionLibrary` | src/main/java/com/atlauncher/data/minecraft/loaders/forge/Forge113Loader.java:102-126 | one version iteration queues `DownloadFor`, changes files as `VersionStep` says, and leaves the flag alone |
| `Forge113.Forge113Loader.PlaceProfileLibraries` | src/main/java/com/atlauncher/data/minecraft/loaders/forge/Forge113Loader.java:74-97 | the install-profile loop returns `DownloadsOf` its list and leaves files and flag as `ProfileEffects` says |
| `Forge113.Forge113Loader.PlaceVersionLibraries` | src/main/java/com/atlauncher/data/minecraft/loaders/forge/Forge113Loader.java:101-127 | the version loop returns `DownloadsOf` its list, leaves files as `VersionEffects` says, and leaves the flag alone |
| `Forge113.Forge113Loader.GetDownloadableLibraries` | src/main/java/com/atlauncher/data/minecraft/loaders/forge/Forge113Loader.java:66-130 | returns the install-profile downloads followed by the version downloads; files and flag end as the install-profile walk followed by the version walk |
| `Forge113.Forge113Loader.RunProcessors` | src/main/java/com/atlauncher/data/minecraft/loaders/forge/Forge113Loader.java:132-146 | the tool log gains exactly the processors `Run` says were attempted, and the flag ends as `Run` says |

## Left out

- `getVersion` is not modelled. It parses version.json with Gson. The model takes the parsed `Version` as a given value, so the null a failed parse returns is not modelled.
- `super.getInstallProfile()` is not modelled. `ForgeLoader` is not part of this model, so the profile file's contents are a given `ProfileJson` value.
- `getLibraries`, `getMainClass` and `getArguments` only return a field of the `Version`. They are the contract-free accessors `Version.GetLibraries`, `Version.GetMainClass` and `Version.GetArguments`.
- The code of `Utils.copyFile`, `Hashing.sha1` and `InstanceInstaller` is not part of this model, and each is given an abstract contract. `FileSystem.CopyFile` follows `CopySucceeds` and `Copied`. A copy writes either the whole file or nothing. It has no partial writes and no failure reason other than a missing source or an unwritable destination. `FileSystem.Sha1` applies the uninterpreted `Env.sha1`. `InstanceInstaller` has fixed directories and side, and a `cancelled` flag that only goes from false to true.
- The hash comparison compares hex text directly. `HashCode.fromString` parsing, hex case, and a null `sha1` are not modelled.
- `mkdirs` is not modelled, because the disk is a flat map with no directories.
- `java.io.File` path normalisation (duplicate or trailing separators, absolute paths) is not modelled. A join is plain concatenation with one '/'.
- The arguments of `processor.process` (the profile, `tempDir`, the installer) and the external process it starts are not modelled. Only success or an `IOException` is kept. An unchecked exception thrown by a processor is not modelled.
- The downloads themselves (fetching, size and hash checks, the copy to the final path) are not modelled. Only the list is built here.
- Each `Downloadable` also takes the installer and two constant boolean flags. These are not modelled.
- A cancel requested from another thread while a method runs is not modelled. The model is single-threaded.
- A library entry without `downloads`, `downloads.artifact` or `artifact.path` is not modelled. The `Library` and `Download` values always carry them. The source dereferences them without a guard (Forge113Loader.java lines 75, 102, 163 and 166-168), so such an entry would throw a NullPointerException out of `getDownloadableLibraries` or `getServerJar`. The model captures the NullPointerException only for a null url in `getServerJar`.
- `Forge113.ProcessorTool.Process`: whether a run fails depends only on the processor entry (`fails: Processor -> bool`). Two equal entries in the list therefore get the same outcome. A real tool's success can also depend on the files that earlier steps wrote, and the model does not capture that. So the model cannot express an entry that succeeds at one position and fails at a later one.
- Logging (`LogManager`) has no effect on behaviour and is left out.
- `useMinecraftLibraries` and `useMinecraftArguments` are not modelled. Each always returns true.
