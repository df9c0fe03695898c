/**
 * The two collections the tool fetches: the projects of the account and the
 * repositories of one project, each built from the server's records by the
 * shared paged fetch.
 */
module Catalog {
  import opened Paging

  /** A project record as the server lists it. */
  datatype RawProject = RawProject(id: int, key: string, name: string)

  /** A project as the tool keeps it, with the label the project prompt shows. */
  datatype Project = Project(id: int, key: string, name: string, display: string)

  /** A repository record as the server lists it. */
  datatype RawRepo = RawRepo(name: string, cloneUrl: string)

  /** A repository as the tool keeps it. */
  datatype Repo = Repo(name: string, clone: string)

  /** The label of a project: its key, then its name in parentheses. */
  function Display(key: string, name: string): string {
    key + " (" + name + ")"
  }

  /** The record `getProjects` pushes for each listed project. */
  function ToProject(raw: RawProject): Project {
    Project(raw.id, raw.key, raw.name, Display(raw.key, raw.name))
  }

  /** The record `getRepos` pushes for each listed repository. */
  function ToRepo(raw: RawRepo): Repo {
    Repo(raw.name, raw.cloneUrl)
  }

  /** A project whose label is the one its key and name give. */
  predicate Labelled(p: Project) {
    p.display == Display(p.key, p.name)
  }

  /** What precedes the first space of a label. */
  function KeyOf(shown: string): (key: string)
    ensures |key| <= |shown| && key == shown[..|key|] && ' ' !in key
  {
    if shown == [] || shown[0] == ' ' then [] else [shown[0]] + KeyOf(shown[1..])
  }

  /** Reads a label back: the key runs up to the first space, the name sits between " (" and the last character. */
  function ParseDisplay(shown: string): (string, string) {
    var key := KeyOf(shown);
    (key, if |key| + 3 <= |shown| then shown[|key| + 2..|shown| - 1] else "")
  }

  lemma {:induction false} KeyOfDisplay(key: string, name: string)
    requires ' ' !in key
    ensures KeyOf(Display(key, name)) == key
  {
    if key != [] {
      assert Display(key, name)[1..] == Display(key[1..], name);
      KeyOfDisplay(key[1..], name);
    }
  }

  /** A label made from a key without spaces gives that key and name back. */
  lemma DisplayRoundTrip(key: string, name: string)
    requires ' ' !in key
    ensures ParseDisplay(Display(key, name)) == (key, name)
  {
    KeyOfDisplay(key, name);
    var shown := Display(key, name);
    assert shown[|key| + 2..|shown| - 1] == name;
  }

  /** So labels tell projects apart as long as keys hold no space. */
  lemma DisplayInjective(key1: string, name1: string, key2: string, name2: string)
    requires ' ' !in key1 && ' ' !in key2
    requires Display(key1, name1) == Display(key2, name2)
    ensures key1 == key2 && name1 == name2
  {
    DisplayRoundTrip(key1, name1);
    DisplayRoundTrip(key2, name2);
  }

  /** `getProjects`: every page through the "No results" check, every value made a labelled project. */
  method GetProjects(server: int -> Response<RawProject>, fuel: nat) returns (outcome: Fetched<Project>, requests: seq<int>)
    ensures Run(outcome, requests) == Fetch(server, ToProject, true, fuel)
    ensures outcome.Done? ==> forall p :: p in outcome.items ==> Labelled(p)
  {
    outcome, requests := PagedFetch(server, ToProject, true, fuel);
    FetchAccumulates(server, ToProject, true, fuel);
    GatherKeeps(server, ToProject, true, requests, Labelled);
  }

  /** `getRepos`: no emptiness check, every value made a repository with its server clone URL. */
  method GetRepos(server: int -> Response<RawRepo>, fuel: nat) returns (outcome: Fetched<Repo>, requests: seq<int>)
    ensures Run(outcome, requests) == Fetch(server, ToRepo, false, fuel)
  {
    outcome, requests := PagedFetch(server, ToRepo, false, fuel);
  }
}
