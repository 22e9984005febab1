/**
 * The application configuration of app_config.rs: the sync section's
 * defaults and the getters that compose storage paths by concatenating the
 * base path with a configured sub-path and then collapsing `//` with Rust's
 * `str::replace`.
 */
module Config {
  import opened Strings
  import Placeholders
  import SyncOutput

  /** `SyncConfig`: the `[sync]` section of the configuration file. */
  datatype SyncConfig = SyncConfig(
    enabled: bool, repoUrl: string, branch: string, username: string, password: string,
    authMethod: string, sshUsername: string, sshPrivateKeyPath: string,
    sshPublicKeyPath: string, sshPassphrase: string, authorName: string,
    authorEmail: string, commitMessage: string, outputFormat: string,
    outputPath: string, repoLocalPath: string, importPatterns: seq<string>)

  /** `AppConfig`; `port`, `uploadFileLimit` and `autoSwitchPortTime` are carried but not used here. */
  datatype AppConfig = AppConfig(
    basePath: string, port: nat, dbPath: string, picturePath: string, mediaPath: string,
    filePath: string, indexPath: string, staticPath: string, uploadFileLimit: nat,
    autoSwitchPortTime: int, sync: SyncConfig)

  const DefaultOutputPath: string := "journals/{yyyy}/{MM}-{dd}/{d}.md"

  /** `SyncConfig::default`, field by field from the `default_sync_*` functions. */
  function DefaultSync(): (c: SyncConfig)
    ensures !c.enabled && c.branch == "main" && c.authMethod == "auto" && c.sshUsername == "git"
    ensures c.importPatterns == [] && c.outputFormat == "markdown" && c.outputPath == DefaultOutputPath
    ensures c.repoUrl == "" && c.username == "" && c.password == "" && c.sshPrivateKeyPath == ""
  {
    SyncConfig(false, "", "main", "", "", "auto", "git", "", "", "",
               "day-log-bot", "day-log-bot@example.com",
               "sync journals {timestamp} count={count}", "markdown",
               DefaultOutputPath, "sync-repo", [])
  }

  /** `(a + "/" + b).replace("//", "/")`: the composition every path getter uses. */
  function JoinCollapse(a: string, b: string): string {
    ReplaceAll(a + "/" + b, "//", "/")
  }

  /** `get_db_path`. */
  function DbPath(c: AppConfig): (r: string)
    ensures |r| <= |c.basePath| + 1 + |c.dbPath|
  {
    ReplaceShrinks(c.basePath + "/" + c.dbPath, "//", "/");
    JoinCollapse(c.basePath, c.dbPath)
  }

  /** `get_index_path`: the configured value, untouched. */
  function IndexPath(c: AppConfig): (r: string)
    ensures r == c.indexPath
  {
    c.indexPath
  }

  /** `get_static_path`: the configured value, untouched. */
  function StaticPath(c: AppConfig): (r: string)
    ensures r == c.staticPath
  {
    c.staticPath
  }

  /**
   * The directory getters add a trailing `/` before collapsing; the result
   * still ends with `/` and is never longer than the uncollapsed text.
   */
  function DirPath(base: string, sub: string): (r: string)
    ensures |r| > 0 && r[|r| - 1] == '/'
    ensures |r| <= |base| + |sub| + 2
  {
    var s := base + "/" + sub + "/";
    ReplaceShrinks(s, "//", "/");
    ReplaceKeepsLastChar(s, "//", "/", '/');
    ReplaceAll(s, "//", "/")
  }

  /** `get_media_path`. */
  function MediaPath(c: AppConfig): (r: string)
    ensures |r| > 0 && r[|r| - 1] == '/'
    ensures |r| <= |c.basePath| + |c.mediaPath| + 2
  {
    DirPath(c.basePath, c.mediaPath)
  }

  /** `get_picture_path`. */
  function PicturePath(c: AppConfig): (r: string)
    ensures |r| > 0 && r[|r| - 1] == '/'
    ensures |r| <= |c.basePath| + |c.picturePath| + 2
  {
    DirPath(c.basePath, c.picturePath)
  }

  /** `get_file_path`. */
  function FilePath(c: AppConfig): (r: string)
    ensures |r| > 0 && r[|r| - 1] == '/'
    ensures |r| <= |c.basePath| + |c.filePath| + 2
  {
    DirPath(c.basePath, c.filePath)
  }

  /** `get_sync_repo_path`: an absolute local path is used as given, a relative one is placed under the base path. */
  function SyncRepoPath(c: AppConfig): (r: string)
    ensures |c.sync.repoLocalPath| > 0 && c.sync.repoLocalPath[0] == '/' ==> r == c.sync.repoLocalPath
    ensures !(|c.sync.repoLocalPath| > 0 && c.sync.repoLocalPath[0] == '/') ==>
      r == JoinCollapse(c.basePath, c.sync.repoLocalPath)
  {
    var p := c.sync.repoLocalPath;
    if |p| > 0 && p[0] == '/' then p else JoinCollapse(c.basePath, p)
  }

  /** No two consecutive slashes. */
  predicate NoDoubleSlash(s: string) {
    forall i :: 0 <= i < |s| - 1 ==> !(s[i] == '/' && s[i + 1] == '/')
  }

  lemma {:induction false} NoDoubleSlashAbsent(s: string)
    requires NoDoubleSlash(s)
    ensures !Contains(s, "//")
    decreases |s|
  {
    if |s| > 0 {
      assert !StartsWith(s, "//") by {
        if |s| >= 2 {
          assert s[..2][0] == s[0] && s[..2][1] == s[1];
        }
      }
      assert NoDoubleSlash(s[1..]) by {
        forall i | 0 <= i < |s[1..]| - 1
          ensures !(s[1..][i] == '/' && s[1..][i + 1] == '/')
        {
          assert s[1..][i] == s[i + 1] && s[1..][i + 1] == s[i + 2];
        }
      }
      NoDoubleSlashAbsent(s[1..]);
    }
  }

  /**
   * When neither part brings a slash to the seam and neither holds `//`,
   * the collapse changes nothing: the result is the plain join.
   */
  lemma JoinCollapsePlain(a: string, b: string)
    requires NoDoubleSlash(a) && NoDoubleSlash(b)
    requires |a| > 0 ==> a[|a| - 1] != '/'
    requires |b| > 0 ==> b[0] != '/'
    ensures JoinCollapse(a, b) == a + "/" + b
  {
    var s := a + "/" + b;
    forall i | 0 <= i < |s| - 1
      ensures !(s[i] == '/' && s[i + 1] == '/')
    {
      if i < |a| - 1 {
        assert s[i] == a[i] && s[i + 1] == a[i + 1];
      } else if i == |a| - 1 {
        assert s[i] == a[i];
      } else if i == |a| {
        assert s[i + 1] == b[0];
      } else {
        assert s[i] == b[i - |a| - 1] && s[i + 1] == b[i - |a|];
      }
    }
    NoDoubleSlashAbsent(s);
    ReplaceAbsent(s, "//", "/");
  }

  /** A relative repository path under a clean base path is exactly `base/path`. */
  lemma SyncRepoPathRelative(c: AppConfig)
    requires |c.sync.repoLocalPath| > 0 && c.sync.repoLocalPath[0] != '/'
    requires NoDoubleSlash(c.basePath) && NoDoubleSlash(c.sync.repoLocalPath)
    requires |c.basePath| > 0 ==> c.basePath[|c.basePath| - 1] != '/'
    ensures SyncRepoPath(c) == c.basePath + "/" + c.sync.repoLocalPath
  {
    JoinCollapsePlain(c.basePath, c.sync.repoLocalPath);
  }

  /**
   * The collapse is a single left-to-right pass, not a normalisation: a
   * base path ending in `/` joined with a sub-path starting with `/` keeps
   * a doubled slash.
   */
  lemma CollapseKeepsTripleSlashPair()
    ensures JoinCollapse("a/", "/b") == "a//b"
  {
    var s := "a/" + "/" + "/b";
    assert s == ['a'] + ("//" + "/b");
    assert !StartsWith(s, "//") by { assert s[..2][0] == 'a'; }
    ReplaceNoMatchHead(s, "//", "/");
    assert s[1..] == "//" + "/b";
    ReplaceHead("//", "/b", "/");
    assert !StartsWith("/b", "//") by { assert "/b"[..2][1] == 'b'; }
    ReplaceNoMatchHead("/b", "//", "/");
    assert "/b"[1..] == "b";
    assert !StartsWith("b", "//");
    ReplaceNoMatchHead("b", "//", "/");
    assert "b"[1..] == [];
    assert ReplaceAll([], "//", "/") == [];
  }

  /** The default output path names the year token, so a default sync writes one file per journal. */
  lemma DefaultSyncIsPerEntry()
    ensures SyncOutput.PerEntryMode(DefaultSync().outputPath, DefaultSync().outputFormat, Placeholders.Default())
  {
    ContainsMiddle("journals/", "{yyyy}", "/{MM}-{dd}/{d}.md");
    assert "journals/" + "{yyyy}" + "/{MM}-{dd}/{d}.md" == DefaultOutputPath;
  }
}
