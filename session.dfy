/**
 * The wizard of `index.js` with the human's answers as parameters: fetch the
 * projects, find the chosen one by its label, fetch its repositories, keep
 * the ticked ones, expand the destination path and list the clone URLs.
 * Every fatal condition ends the session with a reason instead of
 * `process.exit()`.
 */
module Session {
  import opened Options
  import opened Settings
  import opened Paging
  import opened Catalog
  import opened Selection
  import opened Cloning
  import opened Paths
  import opened Endpoints

  datatype Outcome =
    | Clone(directory: string, urls: seq<string>)  // `prepFs` on `directory`, then `git clone` of each URL
    | Halted(failure: Failure)                        // a fetch failed
    | NoProject                                       // "No projects to process"

  /**
   * `projectsApi` and `reposApi` give the server's response for an endpoint
   * URL and a start offset; `home` is the user's home directory.
   */
  method CloneSession(
    cfg: Config,
    projectsApi: string -> int -> Response<RawProject>,
    reposApi: string -> int -> Response<RawRepo>,
    projectAnswer: string, ticked: seq<string>, location: string, home: string,
    fuel: nat)
    returns (outcome: Outcome, repoRequests: seq<int>)
    ensures var projects := Fetch(projectsApi(ProjectsEndpoint(cfg)), ToProject, true, fuel).outcome;
      projects.Failed? ==> outcome == Halted(projects.failure) && repoRequests == []
    ensures var projects := Fetch(projectsApi(ProjectsEndpoint(cfg)), ToProject, true, fuel).outcome;
      projects.Done? && (forall p :: p in projects.items ==> p.display != projectAnswer) ==>
        outcome == NoProject && repoRequests == []
    ensures var projects := Fetch(projectsApi(ProjectsEndpoint(cfg)), ToProject, true, fuel).outcome;
      projects.Done? && FindProject(projects.items, projectAnswer).Some? ==>
        var p := FindProject(projects.items, projectAnswer).value;
        var repos := Fetch(reposApi(ReposEndpoint(cfg, p.key)), ToRepo, false, fuel);
        && repoRequests == repos.requests
        && (repos.outcome.Failed? ==> outcome == Halted(repos.outcome.failure))
        && (repos.outcome.Done? ==>
              var selected := SelectRepos(repos.outcome.items, ticked);
              && outcome.Clone?
              && outcome.directory == ExpandHome(location, home)
              && |outcome.urls| == |selected|
              && forall i :: 0 <= i < |selected| ==> outcome.urls[i] == CloneUrl(cfg, Lower(p.key), selected[i]))
  {
    repoRequests := [];
    var projects, _ := GetProjects(projectsApi(ProjectsEndpoint(cfg)), fuel);
    if projects.Failed? {
      return Halted(projects.failure), repoRequests;
    }
    var target := FindProject(projects.items, projectAnswer);
    if target.None? {
      assert forall p :: p in projects.items ==> p.display != projectAnswer;
      return NoProject, repoRequests;
    }
    var project := target.value;
    var repos;
    repos, repoRequests := GetRepos(reposApi(ReposEndpoint(cfg, project.key)), fuel);
    if repos.Failed? {
      return Halted(repos.failure), repoRequests;
    }
    var selected := SelectRepos(repos.items, ticked);
    var directory := ExpandHome(location, home);
    var urls := CloneRepos(cfg, selected, Lower(project.key));
    outcome := Clone(directory, urls);
  }
}
