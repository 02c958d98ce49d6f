/**
 * The calculator service: an object holding the history cache, the variable
 * bindings and the pending record, whose methods change them in place.  Each
 * method is proved against the value-level definitions of `MathHistory` and
 * `MathCommands`.  Observer notification and the fire-and-forget file write are
 * recorded in ghost fields: how many history notifications were sent, and the
 * snapshot each save was asked to write.
 */
module MathService {
  import opened Wrappers
  import opened JsString
  import opened MathHistory
  import opened MathCommands

  class Math {
    /** The mathjs entry points the service calls. */
    const lib: Delegate

    /** `#history`, most recent first. */
    var history: seq<HistoryItem>
    /** `#variables` */
    var variables: Scope
    /** `#lastExpression`: the record waiting for `commit`. */
    var lastExpression: Option<HistoryItem>

    /** Number of `notify("history")` calls so far. */
    ghost var notifications: nat
    /** The snapshot handed to each `#save()`, in order. */
    ghost var saves: seq<seq<HistoryItem>>

    /** The cache invariant `commit`, `select` and `clear` keep: bounded and free of duplicates. */
    ghost predicate Valid()
      reads this
    {
      |history| <= MaxHistory && Distinct(history)
    }

    /**
     * Loads the stored history (None when the file is absent or does not parse)
     * and replays every stored equation, in stored order, to rebuild the
     * bindings.  The loaded list is kept as it is: neither the length bound nor
     * the no-duplicates rule is enforced on it.
     */
    constructor (lib: Delegate, stored: Option<seq<HistoryItem>>)
      ensures this.lib == lib
      ensures history == if stored.Some? then stored.value else []
      ensures Session(variables, lastExpression) == Replay(lib, Session(map[], None), history)
      ensures notifications == 0 && saves == []
    {
      this.lib := lib;
      history := [];
      variables := map[];
      lastExpression := None;
      notifications := 0;
      saves := [];
      new;
      if stored.Some? {
        history := stored.value;
        var i := 0;
        while i < |history|
          invariant 0 <= i <= |history|
          invariant this.lib == lib && history == stored.value
          invariant notifications == 0 && saves == []
          invariant Session(variables, lastExpression) == Replay(lib, Session(map[], None), history[..i])
        {
          assert history[..i + 1][..i] == history[..i];
          var _ := Evaluate(history[i].equation);
          i := i + 1;
        }
        assert history[..i] == history;
      }
    }

    /**
     * `select(item)`: when an entry with the same equation and result exists, it
     * is removed and `item` is put in front, observers are notified and the
     * history is saved; otherwise nothing changes.
     */
    method Select(item: HistoryItem) returns (found: bool)
      modifies this
      ensures found == FindIndex(old(history), item).Some?
      ensures history == Selected(old(history), item)
      ensures variables == old(variables) && lastExpression == old(lastExpression)
      ensures notifications == old(notifications) + (if found then 1 else 0)
      ensures saves == old(saves) + (if found then [history] else [])
      ensures old(Valid()) ==> Valid()
    {
      var idx := FindIndex(history, item);
      if idx.Some? {
        history := [item] + (history[..idx.value] + history[idx.value + 1..]);
        notifications := notifications + 1;
        saves := saves + [history];
        found := true;
      } else {
        found := false;
      }
      if old(Valid()) {
        SelectKeepsDistinct(old(history), item);
        if found {
          SelectMovesToFront(old(history), item);
        }
      }
    }

    /**
     * `commit()`: with nothing pending, nothing happens.  Otherwise the pending
     * record is selected if it matches an entry, or inserted in front (dropping
     * the oldest entry past the maximum); observers are notified and the
     * history saved exactly once; and the pending slot is emptied.
     */
    method Commit()
      modifies this
      ensures lastExpression == None && variables == old(variables)
      ensures old(lastExpression).None? ==>
        history == old(history) && notifications == old(notifications) && saves == old(saves)
      ensures old(lastExpression).Some? ==>
        && history == Committed(old(history), old(lastExpression).value)
        && notifications == old(notifications) + 1
        && saves == old(saves) + [history]
      ensures old(Valid()) ==> Valid()
      ensures |old(history)| <= MaxHistory ==> |history| <= MaxHistory
    {
      if lastExpression.None? {
        return;
      }
      var pending := lastExpression.value;
      var found := Select(pending);
      if !found {
        history := [pending] + history;
        if |history| > MaxHistory {
          history := history[..|history| - 1];
        }
        notifications := notifications + 1;
        saves := saves + [history];
      }
      lastExpression := None;
      CommitBounded(old(history), pending);
      if old(Valid()) {
        CommitKeepsDistinct(old(history), pending);
      }
    }

    /**
     * `clear()`: empties history, bindings and the pending slot; observers are
     * notified and the empty history saved only when there was history to clear.
     */
    method Clear()
      modifies this
      ensures history == [] && variables == map[] && lastExpression == None
      ensures Valid()
      ensures notifications == old(notifications) + (if |old(history)| > 0 then 1 else 0)
      ensures saves == old(saves) + (if |old(history)| > 0 then [[]] else [])
    {
      if |history| > 0 {
        history := [];
        notifications := notifications + 1;
        saves := saves + [history];
      }
      lastExpression := None;
      variables := map[];
    }

    /**
     * `evaluate(equation)`: returns the record `Dispatch` describes and leaves
     * the bindings it describes.  The history is never touched.  A `clear` line
     * leaves the pending slot alone; any other line becomes the pending record.
     */
    method Evaluate(equation: string) returns (r: HistoryItem)
      modifies this
      ensures r == Dispatch(lib, old(variables), equation).item
      ensures variables == Dispatch(lib, old(variables), equation).variables
      ensures lastExpression == if StartsWith(equation, "clear") then old(lastExpression) else Some(r)
      ensures Session(variables, lastExpression) == Step(lib, old(Session(variables, lastExpression)), equation)
      ensures history == old(history) && notifications == old(notifications) && saves == old(saves)
    {
      if StartsWith(equation, "clear") {
        return ClearRecord;
      }
      ghost var expected := Dispatch(lib, variables, equation);
      var outcome: Result<string, string>;
      var icon: string;
      if '=' in equation {
        var parts := Split(equation, '=');
        var left, right := parts[0], parts[1];
        assert Classify(equation) == Assign(left, right);
        var simplified := lib.simplify(right, map[]);
        if simplified.Ok? {
          variables := variables[Trim(left) := simplified.value];
        } else {
          variables := variables[Trim(left) := Trim(right)];
        }
        outcome := Ok(variables[Trim(left)]);
        icon := "equal";
        assert expected == Evaluation(Finish(equation, outcome, icon), variables);
      } else if StartsWith(equation, "simplify") {
        assert Classify(equation) == Simplify(Slice(equation, 8));
        outcome := lib.simplify(Slice(equation, 8), variables);
        icon := "function";
        assert expected == Evaluation(Finish(equation, outcome, icon), variables);
      } else if StartsWith(equation, "derive") {
        var words := Split(equation, ' ');
        if |words| < 2 || words[1] == "" {
          assert Classify(equation) == MalformedDerive;
          outcome := Err(DeriveFormatError);
        } else {
          var respectTo := words[1];
          assert Classify(equation) == Derive(respectTo, Slice(equation, 7 + |respectTo|));
          outcome := lib.derivative(Slice(equation, 7 + |respectTo|), respectTo);
        }
        icon := "function";
        assert expected == Evaluation(Finish(equation, outcome, icon), variables);
      } else if StartsWith(equation, "rationalize") {
        assert Classify(equation) == Rationalize(Slice(equation, 11));
        outcome := lib.rationalize(Slice(equation, 11), variables);
        icon := "function";
        assert expected == Evaluation(Finish(equation, outcome, icon), variables);
      } else {
        assert Classify(equation) == Calculate(equation);
        outcome := lib.evaluate(equation, variables);
        icon := "calculate";
        assert expected == Evaluation(Finish(equation, outcome, icon), variables);
      }
      r := Finish(equation, outcome, icon);
      lastExpression := Some(r);
    }
  }
}
