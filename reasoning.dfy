/**
 * The reasoning configuration (`ReasoningPanel`): an effort level and the
 * list of selected strategies.  Both handlers build a new record with a
 * spread; a record without `strategies` counts as having none.
 */
module Reasoning {
  import opened Wrappers

  /** `{ effort, strategies }`; `strategies` may be missing. */
  datatype Config = Config(effort: string, strategies: Option<seq<string>>)

  /** `strategies.filter(s => s !== strategy)`. */
  function Without(xs: seq<string>, x: string): (r: seq<string>)
    ensures |r| <= |xs|
  {
    if xs == [] then [] else (if xs[0] == x then [] else [xs[0]]) + Without(xs[1..], x)
  }

  /**
   * `handleStrategyChange(strategy)`: a selected strategy is removed, any
   * other is appended; afterwards the strategy is selected exactly when it
   * was not before, and the effort is untouched.
   */
  function ToggleStrategy(config: Config, strategy: string): (r: Config)
    ensures r.effort == config.effort && r.strategies.Some?
    ensures strategy in r.strategies.value <==> strategy !in config.strategies.GetOr([])
  {
    var current := config.strategies.GetOr([]);
    WithoutCounts(current, strategy);
    assert strategy in current ==> multiset(Without(current, strategy))[strategy] == 0;
    var next := if strategy in current then Without(current, strategy) else current + [strategy];
    config.(strategies := Some(next))
  }

  /** `handleEffortChange(e)`: the effort is the one chosen and the strategies are kept. */
  function ChangeEffort(config: Config, effort: string): (r: Config)
    ensures r.effort == effort
    ensures r.strategies == config.strategies
  {
    config.(effort := effort)
  }

  /** Removing drops every occurrence of `x` and keeps every other element, as often as it occurred. */
  lemma {:induction false} WithoutCounts(xs: seq<string>, x: string)
    ensures multiset(Without(xs, x)) == multiset(xs)[x := 0]
  {
    if xs != [] {
      WithoutCounts(xs[1..], x);
      assert xs == [xs[0]] + xs[1..];
    }
  }

  /** Removing works piece by piece, so the elements that remain keep their order. */
  lemma {:induction false} WithoutConcat(xs: seq<string>, ys: seq<string>, x: string)
    ensures Without(xs + ys, x) == Without(xs, x) + Without(ys, x)
  {
    if xs == [] {
      assert xs + ys == ys;
    } else {
      var zs := xs + ys;
      assert zs[0] == xs[0] && zs[1..] == xs[1..] + ys;
      WithoutConcat(xs[1..], ys, x);
      calc {
        Without(zs, x);
        (if xs[0] == x then [] else [xs[0]]) + Without(xs[1..] + ys, x);
        (if xs[0] == x then [] else [xs[0]]) + (Without(xs[1..], x) + Without(ys, x));
      }
    }
  }

  /** Removing a value that does not occur changes nothing. */
  lemma {:induction false} WithoutAbsent(xs: seq<string>, x: string)
    requires x !in xs
    ensures Without(xs, x) == xs
  {
    if xs != [] {
      WithoutAbsent(xs[1..], x);
    }
  }

  /**
   * Toggling a strategy that is not selected appends it at the end;
   * toggling one that is selected filters out all its occurrences, so the
   * others stay, as often as they were and in their order; the effort is
   * untouched either way.
   */
  lemma ToggleStrategyEffect(config: Config, strategy: string)
    ensures var current := config.strategies.GetOr([]);
      var r := ToggleStrategy(config, strategy);
      r.effort == config.effort
      && r.strategies.Some?
      && (strategy !in current ==> r.strategies.value == current + [strategy])
      && (strategy in current ==>
            r.strategies.value == Without(current, strategy)
            && strategy !in r.strategies.value
            && multiset(r.strategies.value) == multiset(current)[strategy := 0])
  {
    WithoutCounts(config.strategies.GetOr([]), strategy);
  }

  /**
   * Deselecting a strategy that occurs once, between `before` and `after`,
   * leaves exactly `before + after`: the other strategies keep their order.
   */
  lemma ToggleRemovesInPlace(config: Config, before: seq<string>, strategy: string, after: seq<string>)
    requires config.strategies.GetOr([]) == before + [strategy] + after
    requires strategy !in before && strategy !in after
    ensures ToggleStrategy(config, strategy).strategies == Some(before + after)
  {
    var current := config.strategies.GetOr([]);
    var front := before + [strategy];
    assert current == front + after;
    assert current[|before|] == strategy;
    WithoutConcat(front, after, strategy);
    WithoutConcat(before, [strategy], strategy);
    WithoutAbsent(before, strategy);
    WithoutAbsent(after, strategy);
    assert [strategy][1..] == [];
    assert Without([strategy], strategy) == [];
    assert Without(front, strategy) == before;
    assert Without(current, strategy) == before + after;
  }


  /** Toggling a strategy that is not selected twice gives back the list it started from. */
  lemma ToggleTwice(config: Config, strategy: string)
    requires strategy !in config.strategies.GetOr([])
    ensures ToggleStrategy(ToggleStrategy(config, strategy), strategy).strategies == Some(config.strategies.GetOr([]))
  {
    var current := config.strategies.GetOr([]);
    WithoutConcat(current, [strategy], strategy);
    WithoutAbsent(current, strategy);
    assert [strategy][1..] == [];
    assert Without([strategy], strategy) == [];
    var once := current + [strategy];
    assert strategy in once;
    var t1 := ToggleStrategy(config, strategy);
    assert t1.strategies.GetOr([]) == once;
    assert Without(once, strategy) == current + [] == current;
  }
}
