/**
 * The floating-window detector of DialogUtils.kt: does the activity's
 * window group hold more than one window right now?
 *
 * The window manager's two parallel lists (attached root views and their
 * layout params), which the source reaches by reflection, are inputs here.
 * Views are compared by identity, so any type with equality stands for them;
 * a window token (an `IBinder`, also compared by identity) may be null.
 */
module DialogUtils {
  import opened Wrappers

  /** The layout params of one attached window; only its token matters here. */
  datatype LayoutParams<T> = LayoutParams(token: Option<T>)

  /**
   * What the context supplies: the decor view of the activity's window and
   * that view's own window token (`windowToken`, null when not attached).
   */
  datatype Target<V, T> = Target(decorView: V, subToken: Option<T>)

  /** `indexOfFirst { it == v }`: the first position of `v`, or -1 when absent. */
  function IndexOfFirst<V(==)>(views: seq<V>, v: V): (i: int)
    ensures -1 <= i < |views|
    ensures i == -1 <==> v !in views
    ensures 0 <= i ==> views[i] == v && v !in views[..i]
  {
    if views == [] then -1
    else if views[0] == v then 0
    else
      var j := IndexOfFirst(views[1..], v);
      assert views == [views[0]] + views[1..];
      if j == -1 then -1
      else
        assert views[..j + 1] == [views[0]] + views[1..][..j];
        j + 1
  }

  /** The filter of the source: a token equal to the sub-token, null, or equal to the target token. */
  predicate Matches<T(==)>(token: Option<T>, subToken: Option<T>, targetToken: Option<T>)
  {
    token == subToken || token == None || token == targetToken
  }

  /** How many entries of `params` pass the filter. */
  function CountMatches<T(==)>(params: seq<LayoutParams<T>>, subToken: Option<T>, targetToken: Option<T>): (n: nat)
    ensures n <= |params|
  {
    if params == [] then 0
    else
      (if Matches(params[0].token, subToken, targetToken) then 1 else 0)
      + CountMatches(params[1..], subToken, targetToken)
  }

  /** Some entry other than the one at `k` passes the filter. */
  predicate OtherMatch<T(==)>(params: seq<LayoutParams<T>>, k: nat, subToken: Option<T>, targetToken: Option<T>)
  {
    exists j :: 0 <= j < |params| && j != k && Matches(params[j].token, subToken, targetToken)
  }

  /**
   * When the entry at `k` passes the filter, more than one entry passes
   * exactly when some other entry does.
   */
  lemma {:induction false} CountAboveOne<T>(params: seq<LayoutParams<T>>, k: nat, subToken: Option<T>, targetToken: Option<T>)
    requires k < |params| && Matches(params[k].token, subToken, targetToken)
    ensures CountMatches(params, subToken, targetToken) > 1 <==> OtherMatch(params, k, subToken, targetToken)
  {
    var tail := params[1..];
    if k == 0 {
      CountPositive(tail, subToken, targetToken);
      if OtherMatch(params, 0, subToken, targetToken) {
        var j :| 0 <= j < |params| && j != 0 && Matches(params[j].token, subToken, targetToken);
        assert tail[j - 1] == params[j];
      }
    } else {
      CountAboveOne(tail, k - 1, subToken, targetToken);
      if Matches(params[0].token, subToken, targetToken) {
        assert tail[k - 1] == params[k];
        CountPositive(tail, subToken, targetToken);
      } else if OtherMatch(params, k, subToken, targetToken) {
        var j :| 0 <= j < |params| && j != k && Matches(params[j].token, subToken, targetToken);
        assert tail[j - 1] == params[j];
      }
    }
  }

  /** The count is positive exactly when some entry passes the filter. */
  lemma {:induction false} CountPositive<T>(params: seq<LayoutParams<T>>, subToken: Option<T>, targetToken: Option<T>)
    ensures CountMatches(params, subToken, targetToken) > 0 <==>
      exists j :: 0 <= j < |params| && Matches(params[j].token, subToken, targetToken)
  {
    if params != [] {
      var tail := params[1..];
      CountPositive(tail, subToken, targetToken);
      if exists j :: 0 <= j < |params| && Matches(params[j].token, subToken, targetToken) {
        var j :| 0 <= j < |params| && Matches(params[j].token, subToken, targetToken);
        if j > 0 {
          assert tail[j - 1] == params[j];
        }
      }
      if exists j :: 0 <= j < |tail| && Matches(tail[j].token, subToken, targetToken) {
        var j :| 0 <= j < |tail| && Matches(tail[j].token, subToken, targetToken);
        assert params[j + 1] == tail[j];
      }
    }
  }

  /**
   * `hasFloatWindowByToken(context)`. `target` is `None` when the context is
   * not an activity or has no window or decor view; `views` and `params` are
   * what `getViews()` and `getParams()` return (both empty when reflection
   * fails). The result is true exactly when the decor view is attached at an
   * index that also has params, and besides that entry another entry's token
   * is the decor view's own token, null, or the target entry's token.
   */
  function HasFloatWindowByToken<V(==), T(==)>(target: Option<Target<V, T>>, views: seq<V>, params: seq<LayoutParams<T>>): (r: bool)
    ensures target.None? ==> !r
    ensures target.Some? && target.value.decorView !in views ==> !r
    ensures target.Some? && IndexOfFirst(views, target.value.decorView) >= |params| ==> !r
    ensures r <==>
      target.Some? &&
      var k := IndexOfFirst(views, target.value.decorView);
      0 <= k < |params| && OtherMatch(params, k, target.value.subToken, params[k].token)
  {
    match target
    case None => false
    case Some(Target(decorView, subToken)) =>
      var targetIndex := IndexOfFirst(views, decorView);
      if targetIndex < 0 || targetIndex >= |params| then false
      else
        var targetToken := params[targetIndex].token;
        CountAboveOne(params, targetIndex, subToken, targetToken);
        CountMatches(params, subToken, targetToken) > 1
  }

  /** When reflection fails both lists are empty, and no floating window is reported. */
  lemma NoWindowsWithoutRegistry<V, T>(target: Option<Target<V, T>>)
    ensures !HasFloatWindowByToken(target, [], [])
  {
  }

  /** Two windows sharing the activity's group token: a floating window is shown. */
  lemma SharedTokenExample()
    ensures HasFloatWindowByToken(Some(Target(1, Some(9))), [1, 2, 3],
      [LayoutParams(Some(10)), LayoutParams(Some(10)), LayoutParams(Some(11))])
  {
  }

  /** The activity's window alone: nothing is reported. */
  lemma LoneWindowExample()
    ensures !HasFloatWindowByToken(Some(Target(1, Some(9))), [1], [LayoutParams(Some(10))])
  {
  }
}
