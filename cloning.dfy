/**
 * `cloneRepos`: one clone URL per selected repository, in selection order,
 * handed to `git clone`. With an SSH account configured the URL is built
 * from the account, the host, the lower-cased project key and the
 * repository name; otherwise it is the server's clone URL.
 */
module Cloning {
  import opened Settings
  import opened Catalog

  /** `toLowerCase` on one character, for the ASCII letters. */
  function LowerChar(c: char): char {
    if 'A' <= c <= 'Z' then (c as int + 32) as char else c
  }

  /** `toLowerCase` on a string: same length, no upper-case ASCII letter left. */
  function Lower(s: string): (r: string)
    ensures |r| == |s|
    ensures forall i :: 0 <= i < |r| ==> !('A' <= r[i] <= 'Z')
    ensures forall i :: 0 <= i < |r| && !('A' <= s[i] <= 'Z') ==> r[i] == s[i]
    ensures forall i :: 0 <= i < |r| && 'A' <= s[i] <= 'Z' ==> r[i] as int == s[i] as int + 32
  {
    if s == [] then [] else [LowerChar(s[0])] + Lower(s[1..])
  }

  /** Lower-casing twice is lower-casing once. */
  lemma {:induction false} LowerIdempotent(s: string)
    ensures Lower(Lower(s)) == Lower(s)
  {
    if s != [] {
      LowerIdempotent(s[1..]);
      assert Lower(s)[1..] == Lower(s[1..]);
    }
  }

  /** `Array.prototype.join`: the parts with `sep` between neighbours. */
  function Join(parts: seq<string>, sep: string): string {
    if |parts| == 0 then ""
    else if |parts| == 1 then parts[0]
    else parts[0] + sep + Join(parts[1..], sep)
  }

  /**
   * The URL cloned for `repo`: `ssh://account@host/key/name.git` when an SSH
   * account is configured, else the clone URL the server gave.
   */
  function CloneUrl(cfg: Config, projectKey: string, repo: Repo): (url: string)
    ensures UsesSsh(cfg) ==>
      url == "ssh://" + cfg.ssh.value + "@" + cfg.host + "/" + projectKey + "/" + repo.name + ".git"
    ensures !UsesSsh(cfg) ==> url == repo.clone
  {
    if UsesSsh(cfg) then
      var parts := ["ssh:/", cfg.ssh.value + "@" + cfg.host, projectKey, repo.name + ".git"];
      assert parts[1..][1..] == parts[2..] && parts[2..][1..] == parts[3..];
      assert Join(parts[2..], "/") == parts[2] + "/" + parts[3];
      assert Join(parts[1..], "/") == parts[1] + "/" + Join(parts[2..], "/");
      assert "ssh:/" + "/" == "ssh://";
      Join(parts, "/")
    else repo.clone
  }

  /** The `forEach` of `cloneRepos`: the URLs handed to `git clone`, one per repository, in order. */
  method CloneRepos(cfg: Config, repos: seq<Repo>, projectKey: string) returns (urls: seq<string>)
    ensures |urls| == |repos|
    ensures forall i :: 0 <= i < |repos| ==> urls[i] == CloneUrl(cfg, projectKey, repos[i])
  {
    urls := [];
    for i := 0 to |repos|
      invariant |urls| == i
      invariant forall j :: 0 <= j < i ==> urls[j] == CloneUrl(cfg, projectKey, repos[j])
    {
      urls := urls + [CloneUrl(cfg, projectKey, repos[i])];
    }
  }

  /** The key `TEAM` lower-cases to `team`, one character at a time. */
  lemma LowerTeam()
    ensures Lower("TEAM") == "team"
  {
    assert Lower("M") == [LowerChar('M')] + Lower("");
    assert Lower("AM") == [LowerChar('A')] + Lower("M");
    assert Lower("EAM") == [LowerChar('E')] + Lower("AM");
    assert Lower("TEAM") == [LowerChar('T')] + Lower("EAM");
  }

  /**
   * With an SSH account `git`, host `example.com`, project key `TEAM` and
   * repository `widgets`, the key is lower-cased before it enters the URL.
   */
  lemma SshScenario(clone: string)
    ensures CloneUrl(Config("example.com", true, Options.Some("git")), Lower("TEAM"), Repo("widgets", clone))
            == "ssh://git@example.com/team/widgets.git"
  {
    LowerTeam();
    var cfg := Config("example.com", true, Options.Some("git"));
    assert UsesSsh(cfg);
    assert "ssh://" + "git" + "@" + "example.com" + "/" + "team" + "/" + "widgets" + ".git"
        == "ssh://git@example.com/team/widgets.git";
  }
}
