/** Values shared by every part of the model. */
module Common {

  /** Python's `None` or a present value. */
  datatype Option<T> = None | Some(value: T)
  {
    /** `x if x is not None else default`. */
    function GetOr(default: T): T
    {
      match this
      case Some(v) => v
      case None => default
    }
  }

  /** A value, or the error that the source turns into a failure result. */
  datatype Result<T> = Ok(value: T) | Err(error: PyError)

  /** The reason carried by an error result: the text the source puts in its
      `message`/`error` field, or the exception whose `str()` it would be. */
  datatype PyError =
    | Message(text: string)                                     // a message the source spells out
    | InvalidLiteral(literal: string)                           // ValueError raised by int(literal)
    | CalledProcessError(command: seq<string>, returnCode: int) // subprocess.run(check=True) on a non-zero exit
    | Raised(text: string)                                      // any other exception, by its str()

  /** A JSON value a command-line tool prints for a field: an integer or a
      string. */
  datatype JsonScalar = JInt(n: int) | JText(s: string)

  /** The positions of `keep` that hold true, in increasing order. */
  function Selected(keep: seq<bool>): (idx: seq<nat>)
    ensures forall k :: 0 <= k < |idx| ==> idx[k] < |keep| && keep[idx[k]]
    ensures forall k, l :: 0 <= k < l < |idx| ==> idx[k] < idx[l]
    ensures forall i :: 0 <= i < |keep| && keep[i] ==> i in idx
  {
    if keep == [] then []
    else Selected(keep[..|keep| - 1]) + (if keep[|keep| - 1] then [|keep| - 1] else [])
  }

  /** What a loop that appends `items[i]` whenever `keep[i]` holds produces;
      FilterSelected says which items those are. */
  function Filter<T>(items: seq<T>, keep: seq<bool>): (r: seq<T>)
    requires |items| == |keep|
    ensures |r| <= |items|
  {
    if items == [] then []
    else
      var n := |items| - 1;
      Filter(items[..n], keep[..n]) + (if keep[n] then [items[n]] else [])
  }

  /** Nothing is kept exactly when no flag is set. */
  lemma {:induction false} FilterEmpty<T>(items: seq<T>, keep: seq<bool>)
    requires |items| == |keep|
    ensures Filter(items, keep) == [] <==> forall i :: 0 <= i < |keep| ==> !keep[i]
  {
    if items != [] {
      var n := |items| - 1;
      FilterEmpty(items[..n], keep[..n]);
      assert forall i :: 0 <= i < n ==> keep[..n][i] == keep[i];
    }
  }

  /** `[f(i, xs[i]) for i in range(len(xs))]`, built from the back the way
      a loop appends. */
  function MapIndexed<A, B>(f: (nat, A) -> B, xs: seq<A>): (ys: seq<B>)
    ensures |ys| == |xs|
  {
    if xs == [] then [] else MapIndexed(f, xs[..|xs| - 1]) + [f(|xs| - 1, xs[|xs| - 1])]
  }

  /** Element `k` of the mapped sequence is `f` at `k`. */
  lemma {:induction false} MapIndexedAt<A, B>(f: (nat, A) -> B, xs: seq<A>, k: nat)
    requires k < |xs|
    ensures MapIndexed(f, xs)[k] == f(k, xs[k])
  {
    var n := |xs| - 1;
    if k < n {
      MapIndexedAt(f, xs[..n], k);
      assert xs[..n][k] == xs[k];
    }
  }

  /** One more step of the loop that MapIndexed describes. */
  lemma MapIndexedStep<A, B>(f: (nat, A) -> B, xs: seq<A>, i: nat)
    requires i < |xs|
    ensures MapIndexed(f, xs[..i + 1]) == MapIndexed(f, xs[..i]) + [f(i, xs[i])]
  {
    assert xs[..i + 1][..i] == xs[..i];
  }

  /** Indexing into a sequence with one element appended. */
  lemma AppendIndex<T>(a: seq<T>, x: T, k: nat)
    requires k <= |a|
    ensures (a + [x])[k] == if k < |a| then a[k] else x
  {
  }

  lemma {:induction false} SelectedBound(keep: seq<bool>)
    ensures |Selected(keep)| <= |keep|
  {
    if keep != [] { SelectedBound(keep[..|keep| - 1]); }
  }

  /** The filtered items are exactly the kept ones, in their original order:
      item `k` of the result is the item at the `k`-th position whose flag
      holds. */
  lemma {:induction false} FilterSelected<T>(items: seq<T>, keep: seq<bool>)
    requires |items| == |keep|
    ensures |Filter(items, keep)| == |Selected(keep)|
    ensures forall k :: 0 <= k < |Filter(items, keep)| ==> Filter(items, keep)[k] == items[Selected(keep)[k]]
  {
    if items != [] {
      var n := |items| - 1;
      FilterSelected(items[..n], keep[..n]);
      SelectedBound(keep[..n]);
      var r0, idx0 := Filter(items[..n], keep[..n]), Selected(keep[..n]);
      assert Filter(items, keep) == r0 + (if keep[n] then [items[n]] else []);
      assert Selected(keep) == idx0 + (if keep[n] then [n] else []);
      forall k | 0 <= k < |r0|
        ensures Filter(items, keep)[k] == items[Selected(keep)[k]]
      {
        assert items[..n][idx0[k]] == items[idx0[k]];
      }
    }
  }

  /** One more step of the loop that Filter describes. */
  lemma FilterStep<T>(items: seq<T>, keep: seq<bool>, i: nat)
    requires |items| == |keep| && i < |items|
    ensures Filter(items[..i + 1], keep[..i + 1])
         == Filter(items[..i], keep[..i]) + (if keep[i] then [items[i]] else [])
  {
    assert items[..i + 1][..i] == items[..i];
    assert keep[..i + 1][..i] == keep[..i];
  }

  /** An element is kept iff it occurs at a position whose flag holds. */
  lemma FilterMembership<T>(items: seq<T>, keep: seq<bool>, x: T)
    requires |items| == |keep|
    ensures x in Filter(items, keep) <==> exists i :: 0 <= i < |items| && keep[i] && items[i] == x
  {
    var r := Filter(items, keep);
    var idx := Selected(keep);
    FilterSelected(items, keep);
    if x in r {
      var k :| 0 <= k < |r| && r[k] == x;
      assert keep[idx[k]] && items[idx[k]] == x;
    }
    if exists i :: 0 <= i < |items| && keep[i] && items[i] == x {
      var i :| 0 <= i < |items| && keep[i] && items[i] == x;
      var k :| 0 <= k < |idx| && idx[k] == i;
      assert r[k] == x;
    }
  }

  // ------------------------------------- a loop that stops at a raise

  /** Whether `f` succeeds on every element. */
  predicate AllOk<A, B>(f: A -> Result<B>, xs: seq<A>)
  {
    forall k :: 0 <= k < |xs| ==> f(xs[k]).Ok?
  }

  /** Element `k` is the first one on which `f` fails. */
  predicate FirstErr<A, B>(f: A -> Result<B>, xs: seq<A>, k: nat)
  {
    k < |xs| && f(xs[k]).Err? && forall j :: 0 <= j < k ==> f(xs[j]).Ok?
  }

  /** The results of `f` on every element, when none fails. */
  function Values<A, B>(f: A -> Result<B>, xs: seq<A>): (vs: seq<B>)
    requires AllOk(f, xs)
    ensures |vs| == |xs|
  {
    seq(|xs|, k requires 0 <= k < |xs| => f(xs[k]).value)
  }

  /** A loop that appends `f(x)` for each `x` in order, where a failure ends
      the loop and is the outcome. */
  function TryMap<A, B>(f: A -> Result<B>, xs: seq<A>): (r: Result<seq<B>>)
    ensures r.Ok? ==> |r.value| == |xs|
  {
    if xs == [] then Ok([])
    else
      match TryMap(f, xs[..|xs| - 1])
      case Err(e) => Err(e)
      case Ok(vs) =>
        match f(xs[|xs| - 1])
        case Err(e) => Err(e)
        case Ok(v) => Ok(vs + [v])
  }

  /** The loop completes exactly when `f` succeeds everywhere, with the
      results in order; otherwise it reports the error of the first failing
      element. */
  lemma {:induction false} TryMapSpec<A, B>(f: A -> Result<B>, xs: seq<A>)
    ensures TryMap(f, xs).Ok? <==> AllOk(f, xs)
    ensures TryMap(f, xs).Ok? ==> TryMap(f, xs).value == Values(f, xs)
    ensures TryMap(f, xs).Err? ==>
      exists k: nat :: FirstErr(f, xs, k) && TryMap(f, xs).error == f(xs[k]).error
  {
    if xs != [] {
      var n := |xs| - 1;
      var init := xs[..n];
      TryMapSpec(f, init);
      assert forall k :: 0 <= k < n ==> init[k] == xs[k];
      if TryMap(f, init).Err? {
        var k: nat :| FirstErr(f, init, k) && TryMap(f, init).error == f(init[k]).error;
        assert FirstErr(f, xs, k);
      } else if f(xs[n]).Err? {
        assert FirstErr(f, xs, n);
      } else {
        assert TryMap(f, xs).value == Values(f, init) + [f(xs[n]).value];
      }
    }
  }

  /** One more step of the loop, when the element succeeds. */
  lemma TryMapStep<A, B>(f: A -> Result<B>, xs: seq<A>, i: nat)
    requires i < |xs| && TryMap(f, xs[..i]).Ok? && f(xs[i]).Ok?
    ensures TryMap(f, xs[..i + 1]) == Ok(TryMap(f, xs[..i]).value + [f(xs[i]).value])
  {
    assert xs[..i + 1][..i] == xs[..i];
  }

  /** Once the loop fails on a prefix, it fails with the same error on the
      whole sequence. */
  lemma {:induction false} TryMapErrExtends<A, B>(f: A -> Result<B>, xs: seq<A>, i: nat)
    requires i <= |xs| && TryMap(f, xs[..i]).Err?
    ensures TryMap(f, xs) == TryMap(f, xs[..i])
    decreases |xs| - i
  {
    if i < |xs| {
      assert xs[..i + 1][..i] == xs[..i];
      TryMapErrExtends(f, xs, i + 1);
    } else {
      assert xs[..i] == xs;
    }
  }

  // ------------------------------------ commands run with check=True

  /** `subprocess.run(cmd, check=True)` for each command of `plan` in turn:
      the commands run are a non-empty prefix of the plan, every one but the
      last exited with 0, and the run stops early only on a non-zero exit. */
  predicate RanUntilFailure<C(==)>(plan: seq<C>, exitCode: C -> int, commands: seq<C>)
  {
    && 0 < |commands| <= |plan| && commands == plan[..|commands|]
    && (forall k :: 0 <= k < |commands| - 1 ==> exitCode(commands[k]) == 0)
    && (|commands| < |plan| ==> exitCode(commands[|commands| - 1]) != 0)
  }

  /** Running stops at the `n`-th command when it is the first to fail. */
  lemma StoppedAt<C>(plan: seq<C>, exitCode: C -> int, n: nat)
    requires 0 < n <= |plan|
    requires forall k :: 0 <= k < n - 1 ==> exitCode(plan[k]) == 0
    requires exitCode(plan[n - 1]) != 0
    ensures RanUntilFailure(plan, exitCode, plan[..n])
  {
  }

  /** Only the last command run can have failed, and a run whose last
      command succeeded is the whole plan with every command succeeding. */
  lemma RanUntilFailureLast<C>(plan: seq<C>, exitCode: C -> int, commands: seq<C>)
    requires RanUntilFailure(plan, exitCode, commands)
    ensures forall k :: 0 <= k < |commands| && exitCode(commands[k]) != 0 ==> k == |commands| - 1
    ensures exitCode(commands[|commands| - 1]) == 0 ==>
      commands == plan && forall k :: 0 <= k < |commands| ==> exitCode(commands[k]) == 0
  {
    if exitCode(commands[|commands| - 1]) == 0 {
      assert |commands| == |plan|;
      assert plan[..|plan|] == plan;
    }
  }

  /** Running goes through the whole plan when all but the last succeed. */
  lemma RanThrough<C>(plan: seq<C>, exitCode: C -> int)
    requires 0 < |plan|
    requires forall k :: 0 <= k < |plan| - 1 ==> exitCode(plan[k]) == 0
    ensures RanUntilFailure(plan, exitCode, plan)
  {
    assert plan[..|plan|] == plan;
  }
}
