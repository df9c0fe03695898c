/**
 * The paged collection fetch shared by `getProjects` and `getRepos`.
 *
 * The server is a function from the `start` offset of a request to the
 * response it sends. The loop keeps `lastData` (a "more" flag and the next
 * start offset), requests `start || 0`, and after each page decides from
 * `lastData.more` whether to request again. The number of requests is bounded
 * by `fuel`, since a server may announce further pages forever.
 */
module Paging {
  import opened Options

  /** One decoded response body. `errors` holds the messages of the `errors` array when the field is there. */
  datatype Page<R> = Page(
    errors: Option<seq<string>>,
    values: Option<seq<R>>,
    isLastPage: Option<bool>,
    nextPageStart: Option<int>)

  /** What the HTTP client reports: a completed request, or a transport error (restler's `error` event). */
  datatype Response<R> = Complete(page: Page<R>) | Unreachable(reason: string)

  /**
   * Why a fetch ends without a list: the `err` string handed to the finish
   * callback, a transport error, a TypeError thrown while reading a malformed
   * page, or the request bound of the model.
   */
  datatype Failure = Aborted(message: string) | TransportError(reason: string) | Crash | OutOfFuel

  datatype Fetched<T> = Done(items: seq<T>) | Failed(failure: Failure)

  /** The `err` string `getProjects` passes on for a page without values. */
  const NO_RESULTS: string := "No results"

  /**
   * What the `complete` handler makes of one response: stop the fetch, go to
   * the loop test without touching `lastData` (an error whose first message is
   * empty is falsy for the finish callback), or accept the page's values and
   * the new `lastData`.
   */
  datatype Verdict<R> = Halt(failure: Failure) | Skip | Accept(values: seq<R>, more: bool, next: Option<int>)

  /** The offset a request carries: `lastData.start || 0`. */
  function StartOf(next: Option<int>): int {
    next.GetOr(0)
  }

  /** The handler of one response; `checkEmpty` is the "No results" test that only `getProjects` has. */
  function Judge<R>(response: Response<R>, checkEmpty: bool): (v: Verdict<R>)
    ensures v.Halt? ==> v.failure != OutOfFuel
    ensures v.Accept? ==> response.Complete? && response.page.errors.None? && response.page.values == Some(v.values)
    ensures v.Accept? ==> (v.more <==> response.page.isLastPage == Some(false)) && v.next == response.page.nextPageStart
    ensures v.Accept? && checkEmpty ==> |v.values| > 0
    ensures response.Complete? && response.page.errors.Some? ==> !v.Accept?
  {
    match response
    case Unreachable(reason) => Halt(TransportError(reason))
    case Complete(p) =>
      if p.errors.Some? then
        if |p.errors.value| == 0 then Halt(Crash)
        else if p.errors.value[0] != "" then Halt(Aborted(p.errors.value[0]))
        else Skip
      else if checkEmpty && (p.values.None? || |p.values.value| == 0) then Halt(Aborted(NO_RESULTS))
      else if p.values.None? then Halt(Crash)
      else Accept(p.values.value, p.isLastPage == Some(false), p.nextPageStart)
  }

  /**
   * The verdict of each kind of response, both ways: a transport error stops
   * the fetch, an `errors` array stops it with its first message or is skipped
   * when that message is empty (and crashes when it has no entry), a page
   * without values stops it, and every other page is accepted as it is.
   */
  lemma JudgeCases<R>(response: Response<R>, checkEmpty: bool)
    ensures response.Unreachable? ==> Judge(response, checkEmpty) == Halt(TransportError(response.reason))
    ensures response.Complete? ==> var p := response.page;
      p.errors == Some([]) ==> Judge(response, checkEmpty) == Halt(Crash)
    ensures response.Complete? ==> var p := response.page;
      p.errors.Some? && |p.errors.value| > 0 && p.errors.value[0] != "" ==>
        Judge(response, checkEmpty) == Halt(Aborted(p.errors.value[0]))
    ensures response.Complete? ==> var p := response.page;
      p.errors.Some? && |p.errors.value| > 0 && p.errors.value[0] == "" ==> Judge(response, checkEmpty) == Skip
    ensures response.Complete? ==> var p := response.page;
      p.errors.None? && checkEmpty && (p.values.None? || |p.values.value| == 0) ==>
        Judge(response, checkEmpty) == Halt(Aborted(NO_RESULTS))
    ensures response.Complete? ==> var p := response.page;
      p.errors.None? && !checkEmpty && p.values.None? ==> Judge(response, checkEmpty) == Halt(Crash)
    ensures response.Complete? ==> var p := response.page;
      p.errors.None? && p.values.Some? && !(checkEmpty && |p.values.value| == 0) ==>
        Judge(response, checkEmpty) == Accept(p.values.value, p.isLastPage == Some(false), p.nextPageStart)
  {
  }

  /** The per-item transform applied to every value of a page, in order. */
  function MapSeq<R, T>(f: R -> T, s: seq<R>): (r: seq<T>)
    ensures |r| == |s| && forall i :: 0 <= i < |s| ==> r[i] == f(s[i])
  {
    seq(|s|, i requires 0 <= i < |s| => f(s[i]))
  }

  /** The outcome of a fetch together with the offsets it requested, in order. */
  datatype Run<T> = Run(outcome: Fetched<T>, requests: seq<int>)

  /** Items fetched before `run`'s first request are kept only if `run` ends with a list. */
  function Prepend<T>(items: seq<T>, run: Run<T>): Run<T> {
    match run.outcome
    case Done(rest) => Run(Done(items + rest), run.requests)
    case Failed(_) => run
  }

  /** The loop from the state `lastData == {more, start}` with at most `fuel` requests left. */
  function Loop<R, T>(server: int -> Response<R>, f: R -> T, checkEmpty: bool, more: bool, start: Option<int>, fuel: nat): Run<T>
    decreases fuel
  {
    if fuel == 0 then Run(Failed(OutOfFuel), [])
    else
      var offset := StartOf(start);
      var rest :=
        match Judge(server(offset), checkEmpty)
        case Halt(failure) => Run(Failed(failure), [])
        case Skip =>
          if more then Loop(server, f, checkEmpty, more, start, fuel - 1) else Run(Done([]), [])
        case Accept(values, more', next) =>
          if more' then Prepend(MapSeq(f, values), Loop(server, f, checkEmpty, true, next, fuel - 1))
          else Run(Done(MapSeq(f, values)), []);
      Run(rest.outcome, [offset] + rest.requests)
  }

  /** A whole fetch: the loop starts from `lastData = {}`. */
  function Fetch<R, T>(server: int -> Response<R>, f: R -> T, checkEmpty: bool, fuel: nat): Run<T> {
    Loop(server, f, checkEmpty, false, None, fuel)
  }

  // ---------------------------------------------------------------------------
  // Vocabulary for the trace of requests

  function VerdictAt<R>(server: int -> Response<R>, checkEmpty: bool, offset: int): Verdict<R> {
    Judge(server(offset), checkEmpty)
  }

  /** The loop test after a page: `lastData.more`, which a skipped page leaves as it was. */
  predicate Continues<R>(v: Verdict<R>, more: bool) {
    (v.Accept? && v.more) || (v.Skip? && more)
  }

  /** The offset of the request that follows a page requested at `offset`. */
  function After<R>(v: Verdict<R>, offset: int): int {
    if v.Accept? then StartOf(v.next) else offset
  }

  /** The transformed values of every accepted page among `offsets`, concatenated in request order. */
  function Gather<R, T>(server: int -> Response<R>, f: R -> T, checkEmpty: bool, offsets: seq<int>): seq<T> {
    if offsets == [] then []
    else
      ItemsOf(f, VerdictAt(server, checkEmpty, offsets[0])) + Gather(server, f, checkEmpty, offsets[1..])
  }

  /** The response carries `errors` whose first message is `message`, and it is not empty. */
  predicate Reports<R>(response: Response<R>, message: string) {
    && response.Complete? && response.page.errors.Some? && |response.page.errors.value| > 0
    && response.page.errors.value[0] == message && message != ""
  }

  /** How a run that stopped after the page judged `v` ends. */
  function Settle<R, T>(v: Verdict<R>, items: seq<T>): Fetched<T> {
    if v.Halt? then Failed(v.failure) else Done(items)
  }

  // ---------------------------------------------------------------------------
  // The loop, as the source runs it

  /** The run so far (`items`, `requests`) followed by `run`. */
  function Resume<T>(items: seq<T>, requests: seq<int>, run: Run<T>): Run<T> {
    match run.outcome
    case Done(rest) => Run(Done(items + rest), requests + run.requests)
    case Failed(failure) => Run(Failed(failure), requests + run.requests)
  }

  /** The `for` loop of the handler: push the transform of each value, in order. */
  method PushAll<R, T>(items: seq<T>, values: seq<R>, transform: R -> T) returns (pushed: seq<T>)
    ensures pushed == items + MapSeq(transform, values)
  {
    pushed := items;
    for i := 0 to |values|
      invariant pushed == items + MapSeq(transform, values[..i])
    {
      assert values[..i + 1] == values[..i] + [values[i]];
      pushed := pushed + [transform(values[i])];
    }
    assert values[..|values|] == values;
  }

  /** `getProjects`/`getRepos` with the transform as a parameter: the do-while over `lastData`. */
  method PagedFetch<R, T>(server: int -> Response<R>, transform: R -> T, checkEmpty: bool, fuel: nat)
    returns (outcome: Fetched<T>, requests: seq<int>)
    ensures Run(outcome, requests) == Fetch(server, transform, checkEmpty, fuel)
  {
    var items: seq<T> := [];
    var more: bool, start: Option<int> := false, None;
    var left := fuel;
    var running := true;
    outcome, requests := Failed(OutOfFuel), [];
    while running
      invariant running ==> Fetch(server, transform, checkEmpty, fuel)
                            == Resume(items, requests, Loop(server, transform, checkEmpty, more, start, left))
      invariant !running ==> Run(outcome, requests) == Fetch(server, transform, checkEmpty, fuel)
      decreases if running then left + 1 else 0
    {
      if left == 0 {
        outcome, running := Failed(OutOfFuel), false;
      } else {
        var offset := StartOf(start);
        var verdict := Judge(server(offset), checkEmpty);
        LoopStep(server, transform, checkEmpty, more, start, left);
        ResumeStep(items, requests, offset, ItemsOf(transform, verdict),
                   Loop(server, transform, checkEmpty, true, NextStart(verdict, start), left - 1));
        requests := requests + [offset];
        left := left - 1;
        match verdict {
          case Halt(failure) =>
            outcome, running := Failed(failure), false;
          case Skip =>
            if !more {
              outcome, running := Done(items), false;
            }
          case Accept(values, isMore, next) =>
            items := PushAll(items, values, transform);
            more, start := isMore, next;
            if !more {
              outcome, running := Done(items), false;
            }
        }
      }
    }
  }

  /** Resuming after one more page is resuming with that page's items and offset added. */
  lemma ResumeStep<T>(items: seq<T>, requests: seq<int>, offset: int, page: seq<T>, rest: Run<T>)
    ensures Resume(items, requests, Run(Prepend(page, rest).outcome, [offset] + rest.requests))
            == Resume(items + page, requests + [offset], rest)
  {
    assert requests + ([offset] + rest.requests) == requests + [offset] + rest.requests;
    if rest.outcome.Done? {
      assert items + (page + rest.outcome.items) == items + page + rest.outcome.items;
    }
  }

  // ---------------------------------------------------------------------------
  // Properties of the loop from any state

  /** The items a page judged `v` adds to the list. */
  function ItemsOf<R, T>(f: R -> T, v: Verdict<R>): seq<T> {
    if v.Accept? then MapSeq(f, v.values) else []
  }

  /** `lastData.start` after a page judged `v`. */
  function NextStart<R>(v: Verdict<R>, start: Option<int>): Option<int> {
    if v.Accept? then v.next else start
  }

  /** One turn of the loop: either it continues from the new `lastData`, or it settles on this page. */
  lemma LoopStep<R, T>(server: int -> Response<R>, f: R -> T, checkEmpty: bool, more: bool, start: Option<int>, fuel: nat)
    requires fuel > 0
    ensures var offset := StartOf(start); var v := VerdictAt(server, checkEmpty, offset);
      var run := Loop(server, f, checkEmpty, more, start, fuel);
      var rest := Loop(server, f, checkEmpty, true, NextStart(v, start), fuel - 1);
      run == if Continues(v, more) then Run(Prepend(ItemsOf(f, v), rest).outcome, [offset] + rest.requests)
             else Run(Settle(v, ItemsOf(f, v)), [offset])
  {
    var v := VerdictAt(server, checkEmpty, StartOf(start));
    if v.Skip? && more {
      assert Prepend(ItemsOf(f, v), Loop(server, f, checkEmpty, true, start, fuel - 1))
          == Loop(server, f, checkEmpty, true, start, fuel - 1);
    }
  }

  lemma {:induction false} LoopRequests<R, T>(server: int -> Response<R>, f: R -> T, checkEmpty: bool, more: bool, start: Option<int>, fuel: nat)
    ensures |Loop(server, f, checkEmpty, more, start, fuel).requests| <= fuel
    ensures fuel > 0 ==> |Loop(server, f, checkEmpty, more, start, fuel).requests| > 0
                         && Loop(server, f, checkEmpty, more, start, fuel).requests[0] == StartOf(start)
    decreases fuel
  {
    if fuel > 0 {
      var v := VerdictAt(server, checkEmpty, StartOf(start));
      LoopStep(server, f, checkEmpty, more, start, fuel);
      LoopRequests(server, f, checkEmpty, true, NextStart(v, start), fuel - 1);
    }
  }

  lemma {:induction false} LoopChain<R, T>(server: int -> Response<R>, f: R -> T, checkEmpty: bool, more: bool, start: Option<int>, fuel: nat)
    ensures var rs := Loop(server, f, checkEmpty, more, start, fuel).requests;
      forall i :: 0 <= i < |rs| - 1 ==>
        Continues(VerdictAt(server, checkEmpty, rs[i]), more || i > 0) && rs[i + 1] == After(VerdictAt(server, checkEmpty, rs[i]), rs[i])
    decreases fuel
  {
    if fuel > 0 {
      var offset := StartOf(start);
      var v := VerdictAt(server, checkEmpty, offset);
      var rs := Loop(server, f, checkEmpty, more, start, fuel).requests;
      LoopStep(server, f, checkEmpty, more, start, fuel);
      if Continues(v, more) {
        var rest := Loop(server, f, checkEmpty, true, NextStart(v, start), fuel - 1);
        assert rs == [offset] + rest.requests;
        LoopChain(server, f, checkEmpty, true, NextStart(v, start), fuel - 1);
        LoopRequests(server, f, checkEmpty, true, NextStart(v, start), fuel - 1);
        forall i | 0 <= i < |rs| - 1
          ensures Continues(VerdictAt(server, checkEmpty, rs[i]), more || i > 0)
          ensures rs[i + 1] == After(VerdictAt(server, checkEmpty, rs[i]), rs[i])
        {
          if i > 0 {
            assert rs[i] == rest.requests[i - 1] && rs[i + 1] == rest.requests[i];
          }
        }
      }
    }
  }

  /** The loop runs out of requests exactly when the last page it was allowed still asked for more. */
  lemma {:induction false} LoopExhausts<R, T>(server: int -> Response<R>, f: R -> T, checkEmpty: bool, more: bool, start: Option<int>, fuel: nat)
    ensures var run := Loop(server, f, checkEmpty, more, start, fuel); var rs := run.requests;
      run.outcome == Failed(OutOfFuel) <==>
        |rs| == fuel && (fuel == 0 || Continues(VerdictAt(server, checkEmpty, rs[|rs| - 1]), more || |rs| > 1))
    decreases fuel
  {
    LoopRequests(server, f, checkEmpty, more, start, fuel);
    if fuel > 0 {
      var offset := StartOf(start);
      var v := VerdictAt(server, checkEmpty, offset);
      var run := Loop(server, f, checkEmpty, more, start, fuel);
      LoopStep(server, f, checkEmpty, more, start, fuel);
      if Continues(v, more) {
        var rest := Loop(server, f, checkEmpty, true, NextStart(v, start), fuel - 1);
        assert run.outcome == Failed(OutOfFuel) <==> rest.outcome == Failed(OutOfFuel);
        LoopExhausts(server, f, checkEmpty, true, NextStart(v, start), fuel - 1);
        LoopRequests(server, f, checkEmpty, true, NextStart(v, start), fuel - 1);
        if rest.requests != [] {
          assert run.requests[|run.requests| - 1] == rest.requests[|rest.requests| - 1];
        }
      }
    }
  }

  /** A loop that stops on its own ends as its last page says, with the items of all its pages. */
  lemma {:induction false} LoopSettles<R, T>(server: int -> Response<R>, f: R -> T, checkEmpty: bool, more: bool, start: Option<int>, fuel: nat)
    ensures var run := Loop(server, f, checkEmpty, more, start, fuel); var rs := run.requests;
      run.outcome != Failed(OutOfFuel) ==>
        && |rs| > 0
        && !Continues(VerdictAt(server, checkEmpty, rs[|rs| - 1]), more || |rs| > 1)
        && run.outcome == Settle(VerdictAt(server, checkEmpty, rs[|rs| - 1]), Gather(server, f, checkEmpty, rs))
    decreases fuel
  {
    if fuel > 0 {
      var offset := StartOf(start);
      var v := VerdictAt(server, checkEmpty, offset);
      var run := Loop(server, f, checkEmpty, more, start, fuel);
      LoopStep(server, f, checkEmpty, more, start, fuel);
      if Continues(v, more) {
        var rest := Loop(server, f, checkEmpty, true, NextStart(v, start), fuel - 1);
        if rest.outcome != Failed(OutOfFuel) {
          LoopSettles(server, f, checkEmpty, true, NextStart(v, start), fuel - 1);
          assert run.requests[1..] == rest.requests;
          assert Gather(server, f, checkEmpty, run.requests) == ItemsOf(f, v) + Gather(server, f, checkEmpty, rest.requests);
          assert run.requests[|run.requests| - 1] == rest.requests[|rest.requests| - 1];
        }
      } else {
        assert run.requests[1..] == [];
        assert Gather(server, f, checkEmpty, run.requests) == ItemsOf(f, v) + Gather(server, f, checkEmpty, []);
      }
    }
  }

  lemma {:induction false} LoopFuel<R, T>(server: int -> Response<R>, f: R -> T, checkEmpty: bool, more: bool, start: Option<int>, fuel: nat, fuel': nat)
    requires fuel <= fuel'
    requires Loop(server, f, checkEmpty, more, start, fuel).outcome != Failed(OutOfFuel)
    ensures Loop(server, f, checkEmpty, more, start, fuel') == Loop(server, f, checkEmpty, more, start, fuel)
    decreases fuel
  {
    var v := VerdictAt(server, checkEmpty, StartOf(start));
    LoopStep(server, f, checkEmpty, more, start, fuel);
    LoopStep(server, f, checkEmpty, more, start, fuel');
    if Continues(v, more) {
      LoopFuel(server, f, checkEmpty, true, NextStart(v, start), fuel - 1, fuel' - 1);
    }
  }

  lemma {:induction false} GatherKeeps<R, T>(server: int -> Response<R>, f: R -> T, checkEmpty: bool, offsets: seq<int>, keeps: T -> bool)
    requires forall x :: keeps(f(x))
    ensures forall y :: y in Gather(server, f, checkEmpty, offsets) ==> keeps(y)
    decreases |offsets|
  {
    if offsets != [] {
      GatherKeeps(server, f, checkEmpty, offsets[1..], keeps);
      var items := ItemsOf(f, VerdictAt(server, checkEmpty, offsets[0]));
      forall y | y in items ensures keeps(y) {
        var i :| 0 <= i < |items| && items[i] == y;
      }
    }
  }

  // ---------------------------------------------------------------------------
  // Properties of a whole fetch

  /**
   * The first request asks for offset 0, every later one for the offset the
   * page before it announced (`nextPageStart || 0`), or for the same offset
   * again after a page whose error message was empty; no request follows a
   * page unless its `isLastPage` was exactly `false` (or it was such a
   * skipped page after the first).
   */
  lemma FetchOffsets<R, T>(server: int -> Response<R>, f: R -> T, checkEmpty: bool, fuel: nat)
    ensures var rs := Fetch(server, f, checkEmpty, fuel).requests;
      |rs| <= fuel && (fuel > 0 ==> |rs| > 0 && rs[0] == 0)
      && forall i :: 0 <= i < |rs| - 1 ==>
           var v := VerdictAt(server, checkEmpty, rs[i]);
           ((v.Accept? && v.more && rs[i + 1] == StartOf(v.next)) || (v.Skip? && i > 0 && rs[i + 1] == rs[i]))
  {
    LoopRequests(server, f, checkEmpty, false, None, fuel);
    LoopChain(server, f, checkEmpty, false, None, fuel);
  }

  /**
   * Another request follows the page at index `i` exactly when that page
   * continues the loop and the request bound is not yet reached.
   */
  lemma FetchContinuation<R, T>(server: int -> Response<R>, f: R -> T, checkEmpty: bool, fuel: nat)
    ensures var rs := Fetch(server, f, checkEmpty, fuel).requests;
      forall i :: 0 <= i < |rs| ==>
        (i + 1 < |rs| <==> i + 1 < fuel && Continues(VerdictAt(server, checkEmpty, rs[i]), i > 0))
  {
    var run := Fetch(server, f, checkEmpty, fuel);
    var rs := run.requests;
    LoopRequests(server, f, checkEmpty, false, None, fuel);
    LoopChain(server, f, checkEmpty, false, None, fuel);
    LoopExhausts(server, f, checkEmpty, false, None, fuel);
    LoopSettles(server, f, checkEmpty, false, None, fuel);
    forall i | 0 <= i < |rs|
      ensures i + 1 < |rs| <==> i + 1 < fuel && Continues(VerdictAt(server, checkEmpty, rs[i]), i > 0)
    {
      if i + 1 == |rs| && run.outcome != Failed(OutOfFuel) {
        assert !Continues(VerdictAt(server, checkEmpty, rs[|rs| - 1]), |rs| > 1);
      }
    }
  }

  /**
   * A fetch that ends with a list delivers the transformed values of every
   * requested page, each once, in request order; it ended on a page that
   * neither failed nor asked for more.
   */
  lemma FetchAccumulates<R, T>(server: int -> Response<R>, f: R -> T, checkEmpty: bool, fuel: nat)
    ensures var run := Fetch(server, f, checkEmpty, fuel); var rs := run.requests;
      run.outcome.Done? ==>
        |rs| > 0 && run.outcome.items == Gather(server, f, checkEmpty, rs)
        && !VerdictAt(server, checkEmpty, rs[|rs| - 1]).Halt?
        && !Continues(VerdictAt(server, checkEmpty, rs[|rs| - 1]), |rs| > 1)
  {
    LoopExhausts(server, f, checkEmpty, false, None, fuel);
    LoopSettles(server, f, checkEmpty, false, None, fuel);
  }

  /** A fetch that fails (other than by the request bound) fails for the reason of its last page. */
  lemma {:induction false} FetchFailure<R, T>(server: int -> Response<R>, f: R -> T, checkEmpty: bool, fuel: nat)
    ensures var run := Fetch(server, f, checkEmpty, fuel); var rs := run.requests;
      run.outcome.Failed? && run.outcome.failure != OutOfFuel ==>
        |rs| > 0 && VerdictAt(server, checkEmpty, rs[|rs| - 1]) == Halt(run.outcome.failure)
  {
    LoopSettles(server, f, checkEmpty, false, None, fuel);
  }

  /** Only the last requested page can stop the fetch. */
  lemma {:induction false} FetchHaltsLast<R, T>(server: int -> Response<R>, f: R -> T, checkEmpty: bool, fuel: nat)
    ensures var rs := Fetch(server, f, checkEmpty, fuel).requests;
      forall i :: 0 <= i < |rs| - 1 ==> !VerdictAt(server, checkEmpty, rs[i]).Halt?
  {
    LoopRequests(server, f, checkEmpty, false, None, fuel);
    LoopChain(server, f, checkEmpty, false, None, fuel);
  }

  /**
   * A requested page whose `errors` start with a non-empty message is the
   * last one, and the fetch aborts with that message: nothing gathered so far
   * is handed on.
   */
  lemma FetchServerError<R, T>(server: int -> Response<R>, f: R -> T, checkEmpty: bool, fuel: nat, i: nat, message: string)
    requires i < |Fetch(server, f, checkEmpty, fuel).requests|
    requires Reports(server(Fetch(server, f, checkEmpty, fuel).requests[i]), message)
    ensures i == |Fetch(server, f, checkEmpty, fuel).requests| - 1
    ensures Fetch(server, f, checkEmpty, fuel).outcome == Failed(Aborted(message))
  {
    var rs := Fetch(server, f, checkEmpty, fuel).requests;
    LoopChain(server, f, checkEmpty, false, None, fuel);
    LoopExhausts(server, f, checkEmpty, false, None, fuel);
    LoopSettles(server, f, checkEmpty, false, None, fuel);
    assert VerdictAt(server, checkEmpty, rs[i]) == Halt(Aborted(message));
  }

  /**
   * A page without values: with the "No results" check it ends the fetch with
   * that message whichever page it is; without it, an empty `values` array
   * adds nothing and a missing one throws.
   */
  lemma FetchEmptyPage<R, T>(server: int -> Response<R>, f: R -> T, checkEmpty: bool, fuel: nat, i: nat)
    requires i < |Fetch(server, f, checkEmpty, fuel).requests|
    requires var r := server(Fetch(server, f, checkEmpty, fuel).requests[i]);
      r.Complete? && r.page.errors.None? && (r.page.values.None? || r.page.values == Some([]))
    ensures var run := Fetch(server, f, checkEmpty, fuel); var page := server(run.requests[i]).page;
      && (checkEmpty ==> i == |run.requests| - 1 && run.outcome == Failed(Aborted(NO_RESULTS)))
      && (!checkEmpty && page.values.None? ==> i == |run.requests| - 1 && run.outcome == Failed(Crash))
      && (!checkEmpty && page.values == Some([]) ==>
            VerdictAt(server, checkEmpty, run.requests[i]).Accept? && VerdictAt(server, checkEmpty, run.requests[i]).values == [])
  {
    var run := Fetch(server, f, checkEmpty, fuel);
    LoopChain(server, f, checkEmpty, false, None, fuel);
    LoopExhausts(server, f, checkEmpty, false, None, fuel);
    LoopSettles(server, f, checkEmpty, false, None, fuel);
    if checkEmpty || server(run.requests[i]).page.values.None? {
      assert VerdictAt(server, checkEmpty, run.requests[i]).Halt?;
    }
  }

  /** A fetch that ends within its request bound ends the same way with any larger bound. */
  lemma FetchFuelIndependent<R, T>(server: int -> Response<R>, f: R -> T, checkEmpty: bool, fuel: nat, fuel': nat)
    requires fuel <= fuel'
    requires Fetch(server, f, checkEmpty, fuel).outcome != Failed(OutOfFuel)
    ensures Fetch(server, f, checkEmpty, fuel') == Fetch(server, f, checkEmpty, fuel)
  {
    LoopFuel(server, f, checkEmpty, false, None, fuel, fuel');
  }

  /**
   * A server with two pages: two values with `isLastPage: false,
   * nextPageStart: 2`, then one value with `isLastPage: true`.
   */
  function TwoPageServer(offset: int): Response<int> {
    if offset == 0 then Complete(Page(None, Some([10, 20]), Some(false), Some(2)))
    else if offset == 2 then Complete(Page(None, Some([30]), Some(true), None))
    else Unreachable("no such page")
  }

  function Same(x: int): int { x }

  /** The two pages give three items from exactly two requests, at offsets 0 and 2. */
  lemma TwoPageScenario(fuel: nat)
    requires fuel >= 2
    ensures Fetch(TwoPageServer, Same, true, fuel) == Run(Done([10, 20, 30]), [0, 2])
  {
    assert VerdictAt(TwoPageServer, true, 0) == Accept([10, 20], true, Some(2));
    assert VerdictAt(TwoPageServer, true, 2) == Accept([30], false, None);
    assert MapSeq(Same, [10, 20]) == [10, 20];
    assert MapSeq(Same, [30]) == [30];
    LoopStep(TwoPageServer, Same, true, false, None, fuel);
    LoopStep(TwoPageServer, Same, true, true, Some(2), fuel - 1);
    var rest := Loop(TwoPageServer, Same, true, true, Some(2), fuel - 1);
    assert StartOf(Some(2)) == 2;
    assert rest == Run(Done([30]), [2]);
    assert Fetch(TwoPageServer, Same, true, fuel) == Run(Prepend([10, 20], rest).outcome, [0] + rest.requests);
    assert Prepend([10, 20], rest).outcome == Done([10, 20] + [30]);
    assert [10, 20] + [30] == [10, 20, 30] && [0] + [2] == [0, 2];
  }

  /**
   * An error page whose first message is empty is falsy for the finish
   * callback: as the first page it ends the fetch with an empty list.
   */
  lemma EmptyMessageFirstPage<R, T>(server: int -> Response<R>, f: R -> T, checkEmpty: bool, fuel: nat, rest: seq<string>)
    requires fuel > 0
    requires server(0).Complete? && server(0).page.errors == Some([""] + rest)
    ensures Fetch(server, f, checkEmpty, fuel) == Run(Done([]), [0])
  {
    assert VerdictAt(server, checkEmpty, 0) == Skip;
  }

  /**
   * After an accepted page that asked for more, an error page whose first
   * message is empty leaves `lastData` as it was: the same offset is requested
   * again, and while the server answers it the same way the loop only stops
   * at the request bound.
   */
  lemma {:induction false} SkipForever<R, T>(server: int -> Response<R>, f: R -> T, checkEmpty: bool, start: Option<int>, fuel: nat)
    requires VerdictAt(server, checkEmpty, StartOf(start)).Skip?
    ensures Loop(server, f, checkEmpty, true, start, fuel).outcome == Failed(OutOfFuel)
    ensures forall i :: 0 <= i < |Loop(server, f, checkEmpty, true, start, fuel).requests| ==>
      Loop(server, f, checkEmpty, true, start, fuel).requests[i] == StartOf(start)
    decreases fuel
  {
    if fuel > 0 {
      SkipForever(server, f, checkEmpty, start, fuel - 1);
    }
  }
}
