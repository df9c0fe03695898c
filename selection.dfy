/**
 * What the prompt callbacks do with the answers: find the chosen project by
 * its label and keep the repositories whose names were ticked. Both are
 * `Array.prototype.filter` calls.
 */
module Selection {
  import opened Options
  import opened Catalog

  /** `a` is `b` with some elements left out, the rest in their order. */
  predicate IsSubsequence<T(==)>(a: seq<T>, b: seq<T>)
    decreases |b|
  {
    if a == [] then true
    else if b == [] then false
    else (a[0] == b[0] && IsSubsequence(a[1..], b[1..])) || IsSubsequence(a, b[1..])
  }

  /** The elements of `s` that `keep` accepts, in order. */
  function Filter<T>(s: seq<T>, keep: T -> bool): seq<T> {
    if s == [] then [] else (if keep(s[0]) then [s[0]] else []) + Filter(s[1..], keep)
  }

  /** Each accepted element is kept as often as it occurs in `s`, no other. */
  lemma {:induction false} FilterCounts<T>(s: seq<T>, keep: T -> bool)
    ensures forall x :: multiset(Filter(s, keep))[x] == if keep(x) then multiset(s)[x] else 0
  {
    if s != [] {
      FilterCounts(s[1..], keep);
      assert s == [s[0]] + s[1..];
      var head := if keep(s[0]) then [s[0]] else [];
      assert multiset(Filter(s, keep)) == multiset(head) + multiset(Filter(s[1..], keep));
      assert multiset(s) == multiset{s[0]} + multiset(s[1..]);
    }
  }

  /** What is kept stays in its order. */
  lemma {:induction false} FilterOrdered<T>(s: seq<T>, keep: T -> bool)
    ensures IsSubsequence(Filter(s, keep), s)
  {
    if s != [] {
      FilterOrdered(s[1..], keep);
      var rest := Filter(s[1..], keep);
      if keep(s[0]) {
        assert Filter(s, keep) == [s[0]] + rest;
        assert Filter(s, keep)[1..] == rest;
      } else {
        assert Filter(s, keep) == rest;
      }
    }
  }

  /** The index of the first project labelled `answer`, or `|projects|` when none is. */
  function FirstLabelled(projects: seq<Project>, answer: string): (i: nat)
    ensures i <= |projects|
    ensures forall j :: 0 <= j < i ==> projects[j].display != answer
    ensures i < |projects| ==> projects[i].display == answer
  {
    if projects == [] || projects[0].display == answer then 0
    else 1 + FirstLabelled(projects[1..], answer)
  }

  lemma {:induction false} FilterStartsAtFirst(projects: seq<Project>, answer: string)
    ensures var r := Filter(projects, (p: Project) => p.display == answer);
      var i := FirstLabelled(projects, answer);
      (r == []) == (i == |projects|) && (r != [] ==> r[0] == projects[i])
  {
    if projects != [] && projects[0].display != answer {
      FilterStartsAtFirst(projects[1..], answer);
      assert Filter(projects, (p: Project) => p.display == answer)
          == Filter(projects[1..], (p: Project) => p.display == answer);
    }
  }

  /**
   * `projects.filter(el => el.display == answer)[0]`: the first project whose
   * label is the answer; none when no label matches, which stops the program.
   */
  function FindProject(projects: seq<Project>, answer: string): (r: Option<Project>)
    ensures r.None? <==> forall j :: 0 <= j < |projects| ==> projects[j].display != answer
    ensures r.Some? ==> exists i :: 0 <= i < |projects| && projects[i] == r.value && r.value.display == answer
                                    && forall j :: 0 <= j < i ==> projects[j].display != answer
  {
    var matching := Filter(projects, (p: Project) => p.display == answer);
    FilterStartsAtFirst(projects, answer);
    if |matching| == 0 then None else Some(matching[0])
  }

  /**
   * `repos.filter(el => answers.indexOf(el.name) >= 0)`: exactly the
   * repositories whose name was ticked, in their listed order, duplicates kept.
   */
  function SelectRepos(repos: seq<Repo>, ticked: seq<string>): (r: seq<Repo>)
    ensures forall x :: multiset(r)[x] == if x.name in ticked then multiset(repos)[x] else 0
    ensures forall x :: x in r <==> x in repos && x.name in ticked
    ensures IsSubsequence(r, repos)
  {
    var selected := Filter(repos, (el: Repo) => el.name in ticked);
    FilterCounts(repos, (el: Repo) => el.name in ticked);
    FilterOrdered(repos, (el: Repo) => el.name in ticked);
    selected
  }
}
