/** `xs.map(f)` where `f` may throw: the first element on which `f` fails ends the map with its
    error. Written over any `f`, so that facts about the map stay apart from facts about `f`. */
module MapResults {
  import opened Wrappers

  function MapAll<T, E>(xs: seq<string>, ids: seq<string>, f: (string, string) --> Result<T, E>)
    : (r: Result<seq<T>, E>)
    requires |ids| == |xs| && forall k :: 0 <= k < |xs| ==> f.requires(xs[k], ids[k])
    ensures r.Success? <==> forall k :: 0 <= k < |xs| ==> f(xs[k], ids[k]).Success?
    ensures r.Success? ==> |r.value| == |xs| && forall k :: 0 <= k < |xs| ==> f(xs[k], ids[k]) == Success(r.value[k])
    ensures r.Failure? ==> FirstFailure(xs, ids, f, r.error)
    decreases |xs|
  {
    if xs == [] then Success([])
    else
      match f(xs[0], ids[0])
      case Failure(e) =>
        assert f(xs[0], ids[0]) == Failure(e);
        Failure(e)
      case Success(v) =>
        var rest := MapAll(xs[1..], ids[1..], f);
        assert forall k :: 1 <= k < |xs| ==> xs[k] == xs[1..][k - 1] && ids[k] == ids[1..][k - 1];
        if rest.Failure? then
          FirstFailureShift(xs, ids, f, rest.error);
          Failure(rest.error)
        else
          Success([v] + rest.value)
  }

  /** `e` is the error of the first element on which `f` fails. */
  ghost predicate FirstFailure<T, E>(xs: seq<string>, ids: seq<string>, f: (string, string) --> Result<T, E>, e: E)
    requires |ids| == |xs| && forall k :: 0 <= k < |xs| ==> f.requires(xs[k], ids[k])
  {
    exists k :: 0 <= k < |xs| && f(xs[k], ids[k]) == Failure(e) && forall j :: 0 <= j < k ==> f(xs[j], ids[j]).Success?
  }

  lemma {:induction false} FirstFailureShift<T, E>(xs: seq<string>, ids: seq<string>, f: (string, string) --> Result<T, E>, e: E)
    requires |ids| == |xs| >= 1 && forall k :: 0 <= k < |xs| ==> f.requires(xs[k], ids[k])
    requires f(xs[0], ids[0]).Success?
    requires FirstFailure(xs[1..], ids[1..], f, e)
    ensures FirstFailure(xs, ids, f, e)
  {
    var k :| 0 <= k < |xs| - 1 && f(xs[1..][k], ids[1..][k]) == Failure(e)
             && forall j :: 0 <= j < k ==> f(xs[1..][j], ids[1..][j]).Success?;
    assert f(xs[k + 1], ids[k + 1]) == Failure(e);
    forall j | 0 <= j < k + 1 ensures f(xs[j], ids[j]).Success? {
      if j > 0 {
        assert xs[j] == xs[1..][j - 1] && ids[j] == ids[1..][j - 1];
      }
    }
  }
}
