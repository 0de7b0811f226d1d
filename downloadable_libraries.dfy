/** The two walks of `getDownloadableLibraries` together. */
module DownloadableLibraries {
  import opened Paths
  import opened ForgeTypes
  import opened Libraries

  /** The returned list holds one download per network library, install-profile
      libraries first and version libraries after, each in its own list's order. */
  lemma DownloadList(profileLibs: seq<Library>, versionLibs: seq<Library>, lay: Layout)
    ensures var d, n := DownloadsOf(profileLibs, lay) + DownloadsOf(versionLibs, lay), Network(profileLibs) + Network(versionLibs);
      |d| == |n| &&
      forall k :: 0 <= k < |d| ==>
        d[k].url == n[k].artifact.url.value &&
        d[k].file == Join(lay.gameLibrariesDir, n[k].artifact.path) &&
        d[k].copyTo == Join(lay.LibrariesDirectory(), n[k].artifact.path) &&
        d[k].hash == n[k].artifact.sha1 &&
        d[k].size == n[k].artifact.size
  {
    DownloadsAppend(profileLibs, versionLibs, lay);
    NetworkAppend(profileLibs, versionLibs);
    DownloadsAreNetworkLibraries(profileLibs + versionLibs, lay);
  }

  /** The call leaves the install cancelled exactly when it already was or some
      install-profile library cancelled it; the version libraries play no part. */
  lemma DownloadCancellation(o: Outcome, profileLibs: seq<Library>, versionLibs: seq<Library>, lay: Layout, env: Env)
    ensures VersionEffects(ProfileEffects(o, profileLibs, lay, env), versionLibs, lay, env).cancelled <==>
      o.cancelled ||
      exists i :: 0 <= i < |profileLibs| && CancelsAt(o, profileLibs, i, lay, env)
  {
    VersionEffectsNeverCancel(ProfileEffects(o, profileLibs, lay, env), versionLibs, lay, env);
    ProfileEffectsCancelled(o, profileLibs, lay, env);
  }
}
