/**
 * The REST endpoints the two fetches call: `<root>projects` and
 * `<root>projects/<key>/repos`, where the root is the API base on the
 * configured host.
 */
module Endpoints {
  import opened Settings

  const API_PATH: string := "/rest/api/1.0/"

  function Scheme(cfg: Config): string {
    if cfg.https then "https" else "http"
  }

  /** `url` is `scheme://host` followed by the API path, for the configured scheme and host. */
  predicate IsApiBase(url: string, cfg: Config) {
    var n := |Scheme(cfg)| + 3 + |cfg.host|;
    && |url| == n + |API_PATH|
    && url[..|Scheme(cfg)|] == Scheme(cfg)
    && url[|Scheme(cfg)|..|Scheme(cfg)| + 3] == "://"
    && url[|Scheme(cfg)| + 3..n] == cfg.host
    && url[n..] == API_PATH
  }

  /**
   * The root URL as written: the conditional operator binds more loosely than
   * `+`, so the concatenation belongs to the `http` branch alone.
   */
  function RootUrlAsWritten(cfg: Config): string {
    if cfg.https then "https" else "http" + "://" + cfg.host + API_PATH
  }

  /** With `https` set the root is the bare word `https`: no host, no API path. */
  lemma RootUrlAsWrittenLosesHost(cfg: Config)
    ensures cfg.https ==> RootUrlAsWritten(cfg) == "https" && !IsApiBase(RootUrlAsWritten(cfg), cfg)
    ensures !cfg.https ==> IsApiBase(RootUrlAsWritten(cfg), cfg)
  {
    if !cfg.https {
      var url := RootUrlAsWritten(cfg);
      assert url == "http" + "://" + cfg.host + API_PATH;
    }
  }

  /** The root URL with the conditional around the scheme only: the API base for either scheme. */
  function RootUrl(cfg: Config): (url: string)
    ensures IsApiBase(url, cfg)
    ensures !cfg.https ==> url == RootUrlAsWritten(cfg)
  {
    Scheme(cfg) + "://" + cfg.host + API_PATH
  }

  function ProjectsEndpoint(cfg: Config): string {
    RootUrl(cfg) + "projects"
  }

  /** The repositories endpoint of the project `key` (the key as the server gave it). */
  function ReposEndpoint(cfg: Config, key: string): string {
    ProjectsEndpoint(cfg) + "/" + key + "/repos"
  }

  /** Different projects are listed at different endpoints. */
  lemma ReposEndpointInjective(cfg: Config, key1: string, key2: string)
    requires ReposEndpoint(cfg, key1) == ReposEndpoint(cfg, key2)
    ensures key1 == key2
  {
    var base := |ProjectsEndpoint(cfg)| + 1;
    var url := ReposEndpoint(cfg, key1);
    assert url[base..|url| - 6] == key1;
    assert url[base..|url| - 6] == key2;
  }
}
