/** `getServerJar`: the file name of the first version library whose url is empty. */
module ServerJars {
  import opened Paths
  import opened ForgeTypes

  /** A Java call that returns a value or throws a NullPointerException. */
  datatype Thrown<T> = Returned(value: T) | NullPointer

  /** The library's url is the empty string (not null). */
  predicate HasEmptyUrl(lib: Library) {
    lib.artifact.url == Some("")
  }

  /** The library's url is a non-empty string: the stream filter evaluates it to false without throwing. */
  predicate PassesOver(lib: Library) {
    lib.artifact.url.Some? && lib.artifact.url.value != ""
  }

  /** `libraries.stream().filter(l -> l.downloads.artifact.url.isEmpty()).findFirst()`:
      the index of the first library with an empty url, none when there is none,
      and a NullPointerException when a library with a null url is reached first. */
  function FindFirstEmptyUrl(libs: seq<Library>): (r: Thrown<Option<nat>>)
    ensures r == Returned(None) <==> forall j :: 0 <= j < |libs| ==> PassesOver(libs[j])
    ensures r.Returned? && r.value.Some? ==>
      var i := r.value.value;
      i < |libs| && HasEmptyUrl(libs[i]) && forall j :: 0 <= j < i ==> PassesOver(libs[j])
    ensures r.NullPointer? <==>
      exists i :: 0 <= i < |libs| && libs[i].artifact.url.None? && forall j :: 0 <= j < i ==> PassesOver(libs[j])
    decreases |libs|
  {
    if libs == [] then Returned(None)
    else if libs[0].artifact.url.None? then NullPointer
    else if libs[0].artifact.url.value == "" then Returned(Some(0))
    else
      match FindFirstEmptyUrl(libs[1..])
      case Returned(Some(i)) => Returned(Some(i + 1))
      case other => other
  }

  /** `getServerJar`: null when every version library's url is non-null and
      non-empty; a NullPointerException when a null url is reached before any
      empty one; otherwise the part of the first empty-url library's path after
      its last '/'. */
  function GetServerJar(v: Version): (r: Thrown<Option<string>>)
    ensures r == Returned(None) <==> forall j :: 0 <= j < |v.libraries| ==> PassesOver(v.libraries[j])
    ensures r.Returned? && r.value.Some? ==>
      exists i :: 0 <= i < |v.libraries| && HasEmptyUrl(v.libraries[i]) &&
        (forall j :: 0 <= j < i ==> PassesOver(v.libraries[j])) &&
        var path, name := v.libraries[i].artifact.path, r.value.value;
        '/' !in name && |name| <= |path| && path[|path| - |name|..] == name &&
        (|name| == |path| || path[|path| - |name| - 1] == '/')
    ensures r.NullPointer? <==>
      exists i :: 0 <= i < |v.libraries| && v.libraries[i].artifact.url.None? &&
        forall j :: 0 <= j < i ==> PassesOver(v.libraries[j])
  {
    var found := FindFirstEmptyUrl(v.libraries);
    match found
    case NullPointer => NullPointer
    case Returned(None) => Returned(None)
    case Returned(Some(i)) =>
      var name := FileName(v.libraries[i].artifact.path);
      assert HasEmptyUrl(v.libraries[i]) && forall j :: 0 <= j < i ==> PassesOver(v.libraries[j]);
      Returned(Some(name))
  }
}
