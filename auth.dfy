/**
 * The credential decision table of repo_sync.rs: which authentication mode
 * a sync uses (`resolve_auth_mode`), whether the configuration carries what
 * that mode needs (`validate_auth_config`), and the `~` expansion of the
 * SSH key path. The `HOME` variable and the existence of the key file are
 * parameters.
 */
module SyncAuth {
  import opened Wrappers
  import opened Strings
  import opened Config

  datatype AuthMode = Password | Ssh

  /** `looks_like_github_repo`: the trimmed, lower-cased URL mentions `github.com`. */
  predicate LooksLikeGithubRepo(repoUrl: string) {
    Contains(ToAsciiLower(Trim(repoUrl)), "github.com")
  }

  const AuthMethodError: string := "sync.auth_method must be one of: auto, password, ssh"

  /**
   * `resolve_auth_mode`. An explicit method names the mode; `auto` (or an
   * empty method) picks SSH for GitHub, then password when both
   * credentials are present, then SSH when a key is configured, and
   * password otherwise.
   */
  function ResolveAuthMode(cfg: SyncConfig): (r: Result<AuthMode, string>)
    ensures var m := ToAsciiLower(Trim(cfg.authMethod));
      (m == "password" || m == "userpass" || m == "https" ==> r == Ok(Password))
      && (m == "ssh" ==> r == Ok(Ssh))
      && (r.Err? <==> m !in {"password", "userpass", "https", "ssh", "auto", ""})
      && (r.Err? ==> r.error == AuthMethodError)
  {
    var m := ToAsciiLower(Trim(cfg.authMethod));
    if m == "password" || m == "userpass" || m == "https" then Ok(Password)
    else if m == "ssh" then Ok(Ssh)
    else if m == "auto" || m == "" then Ok(AutoMode(cfg))
    else Err(AuthMethodError)
  }

  /** The `auto` branch of `resolve_auth_mode`. */
  function AutoMode(cfg: SyncConfig): (r: AuthMode)
    ensures LooksLikeGithubRepo(cfg.repoUrl) ==> r == Ssh
    ensures !LooksLikeGithubRepo(cfg.repoUrl) ==>
      (r == Password <==> (!IsBlank(cfg.username) && !IsBlank(cfg.password)) || IsBlank(cfg.sshPrivateKeyPath))
  {
    if LooksLikeGithubRepo(cfg.repoUrl) then Ssh
    else if !IsBlank(cfg.username) && !IsBlank(cfg.password) then Password
    else if !IsBlank(cfg.sshPrivateKeyPath) then Ssh
    else Password
  }

  /** `Path::join` on Unix: an absolute right side replaces, otherwise a separator is added when needed. */
  function PathJoin(base: string, rest: string): (r: string)
    ensures |rest| > 0 && rest[0] == '/' ==> r == rest
    ensures !(|rest| > 0 && rest[0] == '/') ==> EndsWith(r, rest) && StartsWith(r, base)
  {
    if |rest| > 0 && rest[0] == '/' then rest
    else if |base| > 0 && base[|base| - 1] != '/' then
      assert (base + "/" + rest)[..|base|] == base;
      base + "/" + rest
    else
      assert (base + rest)[..|base|] == base;
      base + rest
  }

  const HomeRequired: string := "HOME env is required when using ~ in ssh key path"
  const TildeFormError: string := "unsupported ~ path form, use ~/xxx for ssh key path"

  /** `expand_tilde_path`, with the value of `HOME` (or its absence) as a parameter. */
  function ExpandTildePath(input: string, home: Option<string>): (r: Result<string, string>)
    ensures |input| == 0 || input[0] != '~' ==> r == Ok(input)
    ensures |input| > 0 && input[0] == '~' && home.None? ==> r == Err(HomeRequired)
    ensures input == "~" && home.Some? ==> r == Ok(home.value)
    ensures StartsWith(input, "~/") && home.Some? ==> r == Ok(PathJoin(home.value, input[2..]))
    ensures r.Err? <==> |input| > 0 && input[0] == '~' && (home.None? || (input != "~" && !StartsWith(input, "~/")))
    ensures r.Err? && home.Some? ==> r.error == TildeFormError
  {
    if |input| == 0 || input[0] != '~' then Ok(input)
    else if home.None? then Err(HomeRequired)
    else if input == "~" then Ok(home.value)
    else if StartsWith(input, "~/") then Ok(PathJoin(home.value, input[2..]))
    else Err(TildeFormError)
  }

  const GithubNeedsSsh: string :=
    "GitHub repo should use ssh auth. set sync.auth_method='ssh' and sync.ssh_private_key_path"
  const PasswordRequired: string := "sync.username and sync.password are required for password auth"
  const KeyRequired: string := "sync.ssh_private_key_path is required for ssh auth"

  /**
   * `validate_auth_config`, with `HOME` and the set of existing paths as
   * parameters.
   */
  function ValidateAuthConfig(cfg: SyncConfig, mode: AuthMode, home: Option<string>, existing: set<string>)
    : (r: Result<(), string>)
    ensures mode == Password ==>
      (r.Ok? <==> !IsBlank(cfg.username) && !IsBlank(cfg.password))
      && (r.Err? ==> r.error == (if LooksLikeGithubRepo(cfg.repoUrl) then GithubNeedsSsh else PasswordRequired))
    ensures mode == Ssh ==>
      (r.Ok? <==> !IsBlank(cfg.sshPrivateKeyPath)
                  && ExpandTildePath(Trim(cfg.sshPrivateKeyPath), home).Ok?
                  && ExpandTildePath(Trim(cfg.sshPrivateKeyPath), home).value in existing)
      && (IsBlank(cfg.sshPrivateKeyPath) ==> r == Err(KeyRequired))
  {
    match mode
    case Password =>
      if IsBlank(cfg.username) || IsBlank(cfg.password) then
        if LooksLikeGithubRepo(cfg.repoUrl) then Err(GithubNeedsSsh) else Err(PasswordRequired)
      else Ok(())
    case Ssh =>
      if IsBlank(cfg.sshPrivateKeyPath) then Err(KeyRequired)
      else
        match ExpandTildePath(Trim(cfg.sshPrivateKeyPath), home)
        case Err(e) => Err(e)
        case Ok(keyPath) =>
          if keyPath !in existing then Err("ssh private key not found: " + keyPath) else Ok(())
  }

  /** Resolution followed by validation: the two steps `execute_sync` runs before touching the repository. */
  function CheckAuth(cfg: SyncConfig, home: Option<string>, existing: set<string>): Result<AuthMode, string> {
    match ResolveAuthMode(cfg)
    case Err(e) => Err(e)
    case Ok(mode) =>
      match ValidateAuthConfig(cfg, mode, home, existing)
      case Err(e) => Err(e)
      case Ok(_) => Ok(mode)
  }

  /** Under `auto`, a GitHub URL resolves to SSH whatever username and password say. */
  lemma GithubAutoIsSsh(cfg: SyncConfig)
    requires ToAsciiLower(Trim(cfg.authMethod)) in {"auto", ""} && LooksLikeGithubRepo(cfg.repoUrl)
    ensures ResolveAuthMode(cfg) == Ok(Ssh)
  {
  }

  /** Under `auto`, a GitHub configuration passes both steps exactly when its key path is set, expands and exists. */
  lemma GithubAutoNeedsKey(cfg: SyncConfig, home: Option<string>, existing: set<string>)
    requires ToAsciiLower(Trim(cfg.authMethod)) in {"auto", ""} && LooksLikeGithubRepo(cfg.repoUrl)
    ensures CheckAuth(cfg, home, existing).Ok? <==>
      !IsBlank(cfg.sshPrivateKeyPath)
      && ExpandTildePath(Trim(cfg.sshPrivateKeyPath), home).Ok?
      && ExpandTildePath(Trim(cfg.sshPrivateKeyPath), home).value in existing
  {
  }

  /** A configuration that passes both steps holds the credentials its mode needs. */
  lemma CheckedConfigHasCredentials(cfg: SyncConfig, home: Option<string>, existing: set<string>)
    requires CheckAuth(cfg, home, existing).Ok?
    ensures CheckAuth(cfg, home, existing).value == Password ==> !IsBlank(cfg.username) && !IsBlank(cfg.password)
    ensures CheckAuth(cfg, home, existing).value == Ssh ==>
      !IsBlank(cfg.sshPrivateKeyPath) && ExpandTildePath(Trim(cfg.sshPrivateKeyPath), home).value in existing
  {
    var mode := ResolveAuthMode(cfg).value;
    assert ValidateAuthConfig(cfg, mode, home, existing).Ok?;
  }

  /** The default configuration resolves to password auth, which it cannot satisfy. */
  lemma DefaultSyncAuth(home: Option<string>, existing: set<string>)
    ensures ResolveAuthMode(DefaultSync()) == Ok(Password)
    ensures CheckAuth(DefaultSync(), home, existing) == Err(PasswordRequired)
  {
    var c := DefaultSync();
    TrimNoWs("auto");
    assert ToAsciiLower("auto") == "auto";
    assert Trim("") == [];
    assert ToAsciiLower("") == "";
    assert !Contains("", "github.com");
  }

  /** An expanded `~/x` path lies under the home directory (unless `x` is itself absolute). */
  lemma TildeExpandsUnderHome(rest: string, home: string)
    requires !(|rest| > 0 && rest[0] == '/')
    ensures var r := ExpandTildePath("~/" + rest, Some(home));
      r.Ok? && StartsWith(r.value, home) && EndsWith(r.value, rest)
  {
    var input := "~/" + rest;
    assert input[..2] == "~/" && input[0] == '~';
    assert input[2..] == rest;
  }
}
