/** The values the Forge 1.13+ loader reads: library descriptors from the install
    profile and from version.json, processor steps, substitution entries, and the
    download requests it produces. */
module ForgeTypes {
  import opened Paths

  /** A Java reference that may be null. */
  datatype Option<T> = None | Some(value: T)

  /** A file's bytes. */
  type Content = seq<bv8>

  /** A SHA-1 digest, as the hex text an artifact descriptor carries. */
  type Hash = string

  /** `library.downloads.artifact`: where the jar lives under a maven-style
      libraries directory, where it is fetched from (`url`, null for a jar
      shipped inside the installer), its expected SHA-1 and size. */
  datatype Download = Download(path: Path, url: Option<string>, sha1: Hash, size: int)

  /** A library entry: its maven name and its artifact. */
  datatype Library = Library(name: string, artifact: Download)

  /** The launch arguments of version.json. */
  datatype Arguments = Arguments(game: seq<string>, jvm: seq<string>)

  /** The parsed version.json of the installer. */
  datatype Version = Version(libraries: seq<Library>, mainClass: string, arguments: Arguments)
  {
    /** `getLibraries`: the version's libraries, in order. */
    function GetLibraries(): seq<Library> { libraries }

    /** `getMainClass`. */
    function GetMainClass(): string { mainClass }

    /** `getArguments`. */
    function GetArguments(): Arguments { arguments }
  }

  /** One substitution entry of the install profile: its client and server values. */
  datatype Data = Data(client: string, server: string)

  /** One processor step: the tool jar, its classpath and its argument template. */
  datatype Processor = Processor(jar: string, classpath: seq<string>, args: seq<string>)

  /** `new Downloadable(url, downloadTo, sha1, size, ..., finalDownloadTo, ...)`:
      fetch `url` to the staging file `file`, check `hash` and `size`, then copy
      it to `copyTo`. */
  datatype Downloadable = Downloadable(url: string, file: Path, hash: Hash, size: int, copyTo: Path)
}
