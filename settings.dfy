/** The read-only settings the tool loads from `config.json`. */
module Settings {
  import opened Options

  /**
   * `host` is the server's host name, `https` the protocol flag and `ssh` the
   * optional SSH account used to build clone URLs. The user name only feeds
   * HTTP authentication, which is not part of this model.
   */
  datatype Config = Config(host: string, https: bool, ssh: Option<string>)

  /** `config.ssh` is truthy: present and not the empty string. */
  predicate UsesSsh(cfg: Config) {
    cfg.ssh.Some? && cfg.ssh.value != ""
  }
}
