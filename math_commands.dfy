/**
 * How the calculator turns one input line into a history record: the line is
 * sorted into a command by prefix and by `=`, the command is run against the
 * math library and the variable bindings, and anything the library throws
 * becomes an error record.  Startup replay folds this over the loaded history.
 */
module MathCommands {
  import opened Wrappers
  import opened JsString
  import opened MathHistory

  /** The variable bindings, `#variables`: identifier to value text. */
  type Scope = map<string, string>

  /**
   * The four mathjs entry points the service calls, followed by `.toString()`.
   * Each gives the formatted result, or `Err(String(e))` for what it threw.
   */
  datatype Delegate = Delegate(
    simplify: (string, Scope) -> Result<string, string>,
    derivative: (string, string) -> Result<string, string>,
    rationalize: (string, Scope) -> Result<string, string>,
    evaluate: (string, Scope) -> Result<string, string>)

  /** The fixed record an input starting with `clear` produces. */
  const ClearRecord := HistoryItem("Clear history", "Delete history and previously set variables", "delete_forever")

  /** The equation text every error record carries in place of the input. */
  const InvalidEquation := "Invalid equation"

  /** `String(e)` of the error thrown for a `derive` line without a variable. */
  const DeriveFormatError := "Error: Format: derive <respect-to> <equation>"

  /** The command an input line is sorted into, with the text each branch passes on. */
  datatype Command =
    | ClearNotice
    | Assign(left: string, right: string)
    | Simplify(expr: string)
    | Derive(respectTo: string, expr: string)
    | MalformedDerive
    | Rationalize(expr: string)
    | Calculate(expr: string)

  /**
   * The branch `evaluate` takes, first match wins: a `clear` prefix, then any
   * `=`, then the `simplify`, `derive` and `rationalize` prefixes, then plain
   * evaluation of the whole line.
   */
  function Classify(equation: string): (c: Command)
    ensures c.ClearNotice? <==> StartsWith(equation, "clear")
    ensures c.Assign? <==> IsAssignment(equation)
    ensures c.Assign? ==> '=' !in c.left && '=' !in c.right && Trim(c.left) == AssignedName(equation)
    ensures c.Simplify? ==> '=' !in equation && StartsWith(equation, "simplify")
    ensures c.Derive? ==> '=' !in equation && StartsWith(equation, "derive") && c.respectTo != "" && ' ' !in c.respectTo
    ensures c.MalformedDerive? ==> '=' !in equation && StartsWith(equation, "derive")
    ensures c.MalformedDerive? ==> var words := Split(equation, ' '); |words| < 2 || words[1] == ""
    ensures c.Rationalize? ==> '=' !in equation && StartsWith(equation, "rationalize")
    ensures c.Calculate? ==> c.expr == equation && '=' !in equation
    ensures c.Calculate? ==>
      !StartsWith(equation, "simplify") && !StartsWith(equation, "derive") && !StartsWith(equation, "rationalize")
  {
    if StartsWith(equation, "clear") then ClearNotice
    else if '=' in equation then
      var parts := Split(equation, '=');
      Assign(parts[0], parts[1])
    else if StartsWith(equation, "simplify") then Simplify(Slice(equation, 8))
    else if StartsWith(equation, "derive") then
      var words := Split(equation, ' ');
      if |words| < 2 || words[1] == "" then MalformedDerive
      else Derive(words[1], Slice(equation, 7 + |words[1]|))
    else if StartsWith(equation, "rationalize") then Rationalize(Slice(equation, 11))
    else Calculate(equation)
  }

  /** True of the lines `evaluate` treats as an assignment. */
  predicate IsAssignment(equation: string) {
    !StartsWith(equation, "clear") && '=' in equation
  }

  /** The name an assignment binds: the trimmed text before the first `=`. */
  function AssignedName(equation: string): string
    requires '=' in equation
  {
    Trim(Split(equation, '=')[0])
  }

  /**
   * The value an assignment binds: the text between the first and second `=`,
   * simplified without the bindings, or trimmed when simplification throws.
   */
  function AssignedValue(lib: Delegate, right: string): string {
    match lib.simplify(right, map[])
    case Ok(v) => v
    case Err(_) => Trim(right)
  }

  /** True of the lines that bind `name`. */
  predicate Assigns(equation: string, name: string) {
    IsAssignment(equation) && AssignedName(equation) == name
  }

  /** What `evaluate` returns together with the bindings it leaves. */
  datatype Evaluation = Evaluation(item: HistoryItem, variables: Scope)

  /** The `catch (e)` of `evaluate`: a thrown error replaces the equation text. */
  function Finish(equation: string, outcome: Result<string, string>, icon: string): HistoryItem {
    match outcome
    case Ok(v) => HistoryItem(equation, v, icon)
    case Err(e) => HistoryItem(InvalidEquation, e, "error")
  }

  /** The record `evaluate(equation)` returns and the bindings it leaves. */
  function Dispatch(lib: Delegate, vars: Scope, equation: string): (e: Evaluation)
    ensures StartsWith(equation, "clear") ==> e.item == ClearRecord
    ensures IsAssignment(equation) ==>
      && e.item.equation == equation && e.item.icon == "equal"
      && e.variables == vars[AssignedName(equation) := e.item.result]
    ensures !IsAssignment(equation) ==> e.variables == vars
  {
    match Classify(equation)
    case ClearNotice => Evaluation(ClearRecord, vars)
    case Assign(left, right) =>
      var value := AssignedValue(lib, right);
      Evaluation(HistoryItem(equation, value, "equal"), vars[Trim(left) := value])
    case Simplify(expr) => Evaluation(Finish(equation, lib.simplify(expr, vars), "function"), vars)
    case Derive(respectTo, expr) =>
      Evaluation(Finish(equation, lib.derivative(expr, respectTo), "function"), vars)
    case MalformedDerive => Evaluation(Finish(equation, Err(DeriveFormatError), "function"), vars)
    case Rationalize(expr) => Evaluation(Finish(equation, lib.rationalize(expr, vars), "function"), vars)
    case Calculate(expr) => Evaluation(Finish(equation, lib.evaluate(expr, vars), "calculate"), vars)
  }

  // ---------------------------------------------------------------- dispatch

  /** A `clear` line yields the fixed notice and changes no binding. */
  lemma ClearLineIsNotice(lib: Delegate, vars: Scope, equation: string)
    requires StartsWith(equation, "clear")
    ensures Dispatch(lib, vars, equation) == Evaluation(ClearRecord, vars)
  {
  }

  /**
   * The icon follows the branch: `equal` for an assignment (which never fails),
   * `function` or `error` for the three prefixed commands, `calculate` or
   * `error` for everything else.
   */
  lemma DispatchIcon(lib: Delegate, vars: Scope, equation: string)
    requires !StartsWith(equation, "clear")
    ensures var icon := Dispatch(lib, vars, equation).item.icon;
      && ('=' in equation ==> icon == "equal")
      && (('=' !in equation && (StartsWith(equation, "simplify") || StartsWith(equation, "derive")
           || StartsWith(equation, "rationalize"))) ==> (icon == "function" || icon == "error"))
      && (('=' !in equation && !StartsWith(equation, "simplify") && !StartsWith(equation, "derive")
           && !StartsWith(equation, "rationalize")) ==> (icon == "calculate" || icon == "error"))
  {
  }

  /**
   * A record keeps the input line as its equation unless it is an error record,
   * whose equation is always the fixed invalid marker.
   */
  lemma ErrorRecordDropsInput(lib: Delegate, vars: Scope, equation: string)
    requires !StartsWith(equation, "clear")
    ensures var item := Dispatch(lib, vars, equation).item;
      && (item.icon == "error" ==> item.equation == InvalidEquation)
      && (item.icon != "error" ==> item.equation == equation)
  {
    var c := Classify(equation);
    assert c != ClearNotice;
    if c.Assign? {
      assert Dispatch(lib, vars, equation).item.icon == "equal";
    }
  }

  /** Only an assignment touches the bindings. */
  lemma OnlyAssignmentBinds(lib: Delegate, vars: Scope, equation: string)
    requires !IsAssignment(equation)
    ensures Dispatch(lib, vars, equation).variables == vars
  {
    assert !Classify(equation).Assign?;
  }

  /**
   * An assignment binds the trimmed text before the first `=` to its value, and
   * the record's result is exactly that binding.
   */
  lemma AssignmentBinds(lib: Delegate, vars: Scope, equation: string)
    requires IsAssignment(equation)
    ensures var value := AssignedValue(lib, Split(equation, '=')[1]);
      Dispatch(lib, vars, equation) ==
        Evaluation(HistoryItem(equation, value, "equal"), vars[AssignedName(equation) := value])
  {
    var parts := Split(equation, '=');
    assert Classify(equation) == Assign(parts[0], parts[1]);
  }

  /**
   * The value an assignment binds does not depend on the bindings, because the
   * right-hand side is simplified without them; so evaluating the same
   * assignment twice leaves the same bindings as evaluating it once.
   */
  lemma AssignmentIdempotent(lib: Delegate, vars: Scope, equation: string)
    requires IsAssignment(equation)
    ensures var once := Dispatch(lib, vars, equation);
      Dispatch(lib, once.variables, equation) == once
  {
    var parts := Split(equation, '=');
    var name, value := Trim(parts[0]), AssignedValue(lib, parts[1]);
    assert Classify(equation) == Assign(parts[0], parts[1]);
    var once := Dispatch(lib, vars, equation);
    assert once == Evaluation(HistoryItem(equation, value, "equal"), vars[name := value]);
    assert once.variables[name := value] == once.variables;
  }

  /** `derive` with no second space-separated word is caught as a format error, never passed on. */
  lemma DeriveWithoutVariable(lib: Delegate, vars: Scope, equation: string)
    requires StartsWith(equation, "derive") && '=' !in equation
    requires var words := Split(equation, ' '); |words| < 2 || words[1] == ""
    ensures Dispatch(lib, vars, equation) ==
      Evaluation(HistoryItem(InvalidEquation, DeriveFormatError, "error"), vars)
  {
    assert equation[0] == 'd';
    assert !StartsWith(equation, "clear") && !StartsWith(equation, "simplify");
    assert Classify(equation) == MalformedDerive;
  }

  /** A `simplify` line simplifies the text after the prefix, with the bindings. */
  lemma SimplifyBranch(lib: Delegate, vars: Scope, equation: string)
    requires StartsWith(equation, "simplify") && '=' !in equation
    ensures Dispatch(lib, vars, equation) ==
      Evaluation(Finish(equation, lib.simplify(equation[8..], vars), "function"), vars)
  {
    assert equation[0] == 's';
    assert !StartsWith(equation, "clear");
    assert Classify(equation) == Simplify(Slice(equation, 8));
  }

  /**
   * A `derive` line with a variable differentiates the text after the variable
   * with respect to it; the bindings are not passed.
   */
  lemma DeriveBranch(lib: Delegate, vars: Scope, equation: string)
    requires StartsWith(equation, "derive") && '=' !in equation
    requires var words := Split(equation, ' '); |words| >= 2 && words[1] != ""
    ensures var respectTo := Split(equation, ' ')[1];
      Dispatch(lib, vars, equation) ==
        Evaluation(Finish(equation, lib.derivative(Slice(equation, 7 + |respectTo|), respectTo), "function"), vars)
  {
    var words := Split(equation, ' ');
    assert equation[0] == 'd';
    assert !StartsWith(equation, "clear") && !StartsWith(equation, "simplify");
    assert Classify(equation) == Derive(words[1], Slice(equation, 7 + |words[1]|));
  }

  /** A `rationalize` line rationalizes the text after the prefix, with the bindings. */
  lemma RationalizeBranch(lib: Delegate, vars: Scope, equation: string)
    requires StartsWith(equation, "rationalize") && '=' !in equation
    ensures Dispatch(lib, vars, equation) ==
      Evaluation(Finish(equation, lib.rationalize(equation[11..], vars), "function"), vars)
  {
    assert equation[0] == 'r';
    assert !StartsWith(equation, "clear") && !StartsWith(equation, "simplify") && !StartsWith(equation, "derive");
    assert Classify(equation) == Rationalize(Slice(equation, 11));
  }

  /** Any other line is evaluated whole, with the bindings. */
  lemma CalculateBranch(lib: Delegate, vars: Scope, equation: string)
    requires !StartsWith(equation, "clear") && '=' !in equation
    requires !StartsWith(equation, "simplify") && !StartsWith(equation, "derive") && !StartsWith(equation, "rationalize")
    ensures Dispatch(lib, vars, equation) ==
      Evaluation(Finish(equation, lib.evaluate(equation, vars), "calculate"), vars)
  {
  }

  /** A plain line that the library cannot evaluate becomes an error record carrying the message. */
  lemma EvaluationErrorIsCaught(lib: Delegate, vars: Scope, equation: string, message: string)
    requires Classify(equation) == Calculate(equation)
    requires lib.evaluate(equation, vars) == Err(message)
    ensures Dispatch(lib, vars, equation) == Evaluation(HistoryItem(InvalidEquation, message, "error"), vars)
  {
  }

  // ---------------------------------------------------------------- replay

  /** The state `evaluate` writes besides its return value: the bindings and the pending slot. */
  datatype Session = Session(variables: Scope, last: Option<HistoryItem>)

  /** One call of `evaluate(equation)`: a `clear` line returns early and touches neither field. */
  function Step(lib: Delegate, s: Session, equation: string): (r: Session)
    ensures StartsWith(equation, "clear") ==> r == s
    ensures !StartsWith(equation, "clear") ==> r.last.Some?
    ensures IsAssignment(equation) ==> AssignedName(equation) in r.variables
    ensures !IsAssignment(equation) ==> r.variables == s.variables
  {
    if StartsWith(equation, "clear") then s
    else
      var e := Dispatch(lib, s.variables, equation);
      Session(e.variables, Some(e.item))
  }

  /** The constructor's loop: `evaluate(item.equation)` for each loaded item, in stored order. */
  function Replay(lib: Delegate, s: Session, items: seq<HistoryItem>): (r: Session)
    ensures (forall j :: 0 <= j < |items| ==> StartsWith(items[j].equation, "clear")) ==> r == s
    ensures (exists j :: 0 <= j < |items| && !StartsWith(items[j].equation, "clear")) ==> r.last.Some?
    decreases |items|
  {
    if items == [] then s
    else
      var prefix := items[..|items| - 1];
      assert forall j :: 0 <= j < |prefix| ==> prefix[j] == items[j];
      Step(lib, Replay(lib, s, prefix), items[|items| - 1].equation)
  }

  /** What one replayed line does to the bindings: an assignment rebinds its name, anything else changes nothing. */
  function Rebind(lib: Delegate, vars: Scope, equation: string): Scope {
    if IsAssignment(equation) then vars[AssignedName(equation) := AssignedValue(lib, Split(equation, '=')[1])]
    else vars
  }

  /** The bindings after a sequence of lines, in stored order. */
  function Rebound(lib: Delegate, vars: Scope, items: seq<HistoryItem>): Scope
    decreases |items|
  {
    if items == [] then vars
    else Rebind(lib, Rebound(lib, vars, items[..|items| - 1]), items[|items| - 1].equation)
  }

  /** An assignment line binds its own name to its value. */
  lemma RebindOwn(lib: Delegate, vars: Scope, equation: string)
    requires IsAssignment(equation)
    ensures AssignedName(equation) in Rebind(lib, vars, equation)
    ensures Rebind(lib, vars, equation)[AssignedName(equation)] == AssignedValue(lib, Split(equation, '=')[1])
  {
  }

  /** A line that does not assign `name` leaves its binding (or its absence) alone. */
  lemma RebindOther(lib: Delegate, vars: Scope, equation: string, name: string)
    requires !Assigns(equation, name)
    ensures (name in Rebind(lib, vars, equation)) == (name in vars)
    ensures name in vars ==> Rebind(lib, vars, equation)[name] == vars[name]
  {
  }

  /** One replayed line changes the bindings exactly as `Rebind` says. */
  lemma StepBindings(lib: Delegate, s: Session, equation: string)
    ensures Step(lib, s, equation).variables == Rebind(lib, s.variables, equation)
  {
    if IsAssignment(equation) {
      AssignmentBinds(lib, s.variables, equation);
    } else if !StartsWith(equation, "clear") {
      OnlyAssignmentBinds(lib, s.variables, equation);
    }
  }

  /** The bindings replay leaves are those of `Rebound`: only the assignments among the lines matter. */
  lemma {:induction false} ReplayBindings(lib: Delegate, s: Session, items: seq<HistoryItem>)
    ensures Replay(lib, s, items).variables == Rebound(lib, s.variables, items)
    decreases |items|
  {
    if items != [] {
      var prefix := items[..|items| - 1];
      ReplayBindings(lib, s, prefix);
      StepBindings(lib, Replay(lib, s, prefix), items[|items| - 1].equation);
    }
  }

  /**
   * After replay, a name holds the value of the LAST assignment to it in stored
   * order.  The stored order is most-recent-first, so that is the oldest one.
   */
  lemma ReplayBinding(lib: Delegate, s: Session, items: seq<HistoryItem>, k: nat)
    requires k < |items| && IsAssignment(items[k].equation)
    requires forall j :: k < j < |items| ==> !Assigns(items[j].equation, AssignedName(items[k].equation))
    ensures var name := AssignedName(items[k].equation);
      && name in Replay(lib, s, items).variables
      && Replay(lib, s, items).variables[name] == AssignedValue(lib, Split(items[k].equation, '=')[1])
  {
    ReplayBindings(lib, s, items);
    ReboundLast(lib, s.variables, items, k);
  }

  lemma {:induction false} ReboundLast(lib: Delegate, vars: Scope, items: seq<HistoryItem>, k: nat)
    requires k < |items| && IsAssignment(items[k].equation)
    requires forall j :: k < j < |items| ==> !Assigns(items[j].equation, AssignedName(items[k].equation))
    ensures var name := AssignedName(items[k].equation);
      && name in Rebound(lib, vars, items)
      && Rebound(lib, vars, items)[name] == AssignedValue(lib, Split(items[k].equation, '=')[1])
    decreases |items|, 1
  {
    if k < |items| - 1 {
      ReboundLastStep(lib, vars, items, k);
    } else {
      ReboundOwn(lib, vars, items);
    }
  }

  /** The inductive step of `ReboundLast`: the binding comes from the lines before the last one. */
  lemma {:induction false} ReboundLastStep(lib: Delegate, vars: Scope, items: seq<HistoryItem>, k: nat)
    requires k < |items| - 1 && IsAssignment(items[k].equation)
    requires forall j :: k < j < |items| ==> !Assigns(items[j].equation, AssignedName(items[k].equation))
    ensures var name := AssignedName(items[k].equation);
      && name in Rebound(lib, vars, items)
      && Rebound(lib, vars, items)[name] == AssignedValue(lib, Split(items[k].equation, '=')[1])
    decreases |items|, 0
  {
    var prefix := items[..|items| - 1];
    var name := AssignedName(items[k].equation);
    assert prefix[k] == items[k];
    forall j | k < j < |prefix| ensures !Assigns(prefix[j].equation, name) {
      assert prefix[j] == items[j];
    }
    ReboundLast(lib, vars, prefix, k);
    ReboundKeeps(lib, vars, items, name, AssignedValue(lib, Split(items[k].equation, '=')[1]));
  }

  /** The last line binds its own name, whatever the lines before it did. */
  lemma ReboundOwn(lib: Delegate, vars: Scope, items: seq<HistoryItem>)
    requires |items| > 0 && IsAssignment(items[|items| - 1].equation)
    ensures var equation := items[|items| - 1].equation;
      && AssignedName(equation) in Rebound(lib, vars, items)
      && Rebound(lib, vars, items)[AssignedName(equation)] == AssignedValue(lib, Split(equation, '=')[1])
  {
    RebindOwn(lib, Rebound(lib, vars, items[..|items| - 1]), items[|items| - 1].equation);
  }

  /** A binding the earlier lines leave survives a last line that does not assign its name. */
  lemma ReboundKeeps(lib: Delegate, vars: Scope, items: seq<HistoryItem>, name: string, value: string)
    requires |items| > 0 && !Assigns(items[|items| - 1].equation, name)
    requires var before := Rebound(lib, vars, items[..|items| - 1]); name in before && before[name] == value
    ensures name in Rebound(lib, vars, items) && Rebound(lib, vars, items)[name] == value
  {
    RebindOther(lib, Rebound(lib, vars, items[..|items| - 1]), items[|items| - 1].equation, name);
  }

  /** A name no replayed line assigns keeps whatever binding it had before replay (or stays unbound). */
  lemma ReplayUnassigned(lib: Delegate, s: Session, items: seq<HistoryItem>, name: string)
    requires forall j :: 0 <= j < |items| ==> !Assigns(items[j].equation, name)
    ensures (name in Replay(lib, s, items).variables) == (name in s.variables)
    ensures name in s.variables ==> Replay(lib, s, items).variables[name] == s.variables[name]
  {
    ReplayBindings(lib, s, items);
    ReboundUnassigned(lib, s.variables, items, name);
  }

  lemma {:induction false} ReboundUnassigned(lib: Delegate, vars: Scope, items: seq<HistoryItem>, name: string)
    requires forall j :: 0 <= j < |items| ==> !Assigns(items[j].equation, name)
    ensures (name in Rebound(lib, vars, items)) == (name in vars)
    ensures name in vars ==> Rebound(lib, vars, items)[name] == vars[name]
  {
    if items != [] {
      var prefix := items[..|items| - 1];
      forall j | 0 <= j < |prefix| ensures !Assigns(prefix[j].equation, name) {
        assert prefix[j] == items[j];
      }
      ReboundUnassigned(lib, vars, prefix, name);
      RebindOther(lib, Rebound(lib, vars, prefix), items[|items| - 1].equation, name);
    }
  }

  /**
   * Replay leaves the pending slot holding the record of the last replayed line
   * that is not a `clear` line (the oldest such entry): its equation, or the
   * invalid marker if that line failed.
   */
  lemma {:induction false} ReplayPending(lib: Delegate, s: Session, items: seq<HistoryItem>, k: nat)
    requires k < |items| && !StartsWith(items[k].equation, "clear")
    requires forall j :: k < j < |items| ==> StartsWith(items[j].equation, "clear")
    ensures Replay(lib, s, items).last == Some(Dispatch(lib, Replay(lib, s, items[..k]).variables, items[k].equation).item)
    ensures var last := Replay(lib, s, items).last;
      && last.Some?
      && (last.value.equation == items[k].equation || (last.value.equation == InvalidEquation && last.value.icon == "error"))
  {
    var n := |items|;
    var prefix := items[..n - 1];
    if k == n - 1 {
      assert items[..k] == prefix;
      ErrorRecordDropsInput(lib, Replay(lib, s, prefix).variables, items[k].equation);
    } else {
      assert prefix[..k] == items[..k];
      assert prefix[k] == items[k];
      forall j | k < j < |prefix| ensures StartsWith(prefix[j].equation, "clear") {
        assert prefix[j] == items[j];
      }
      ReplayPending(lib, s, prefix, k);
    }
  }

  /** The two parts of a one-`=` line. */
  lemma SplitSmall(equation: string, left: string, right: string)
    requires equation == left + "=" + right && '=' !in left && '=' !in right
    ensures Split(equation, '=') == [left, right]
  {
    var i := IndexOf(equation, '=');
    assert equation[|left|] == '=';
    assert forall j :: 0 <= j < |left| ==> equation[j] == left[j];
    assert forall j :: 0 <= j < i ==> equation[..i][j] == equation[j];
    assert i == |left|;
    assert equation[..i] == left;
    assert equation[i + 1..] == right;
    assert Split(right, '=') == [right];
  }

  /** The parts of `x = v` around its `=`. */
  lemma SplitX(equation: string, value: string)
    requires equation == "x = " + value && '=' !in value
    ensures '=' in equation && !StartsWith(equation, "clear")
    ensures Split(equation, '=') == ["x ", " " + value]
  {
    SplitSmall(equation, "x ", " " + value);
    assert equation[2] == '=';
    if |equation| >= 5 {
      assert equation[..5][0] == 'x';
    }
  }

  /** `x = v` is an assignment of ` v` to `x`. */
  lemma AssignmentLineX(equation: string, value: string)
    requires equation == "x = " + value && '=' !in value
    ensures IsAssignment(equation)
    ensures AssignedName(equation) == "x"
    ensures Split(equation, '=')[1] == " " + value
  {
    SplitX(equation, value);
    assert TrimStart("x ") == "x ";
    assert TrimEnd("x ") == TrimEnd("x");
  }

  /** Replaying `x = v` binds `x` to the simplified text after `=`, whatever was bound before. */
  lemma RebindX(lib: Delegate, vars: Scope, equation: string, value: string)
    requires equation == "x = " + value && '=' !in value
    requires lib.simplify(" " + value, map[]) == Ok(value)
    ensures Rebind(lib, vars, equation) == vars["x" := value]
  {
    AssignmentLineX(equation, value);
  }

  /**
   * Replay of a history holding `x = a` (most recent, first) and then `x = b`
   * binds x to the older value b: the constructor replays in stored order.
   */
  lemma ReplayOldestAssignmentWins(lib: Delegate, newer: HistoryItem, older: HistoryItem, a: string, b: string)
    requires newer.equation == "x = " + a && older.equation == "x = " + b
    requires '=' !in a && '=' !in b
    requires lib.simplify(" " + a, map[]) == Ok(a) && lib.simplify(" " + b, map[]) == Ok(b)
    ensures Replay(lib, Session(map[], None), [newer, older]).variables == map["x" := b]
  {
    var s0 := Session(map[], None);
    calc {
      Replay(lib, s0, [newer, older]).variables;
    == { ReplayBindings(lib, s0, [newer, older]); }
      Rebound(lib, map[], [newer, older]);
    == { assert [newer, older][..1] == [newer]; }
      Rebind(lib, Rebound(lib, map[], [newer]), older.equation);
    == { assert [newer][..0] == []; }
      Rebind(lib, Rebind(lib, map[], newer.equation), older.equation);
    == { RebindX(lib, map[], newer.equation, a); }
      Rebind(lib, map["x" := a], older.equation);
    == { RebindX(lib, map["x" := a], older.equation, b); }
      map["x" := a]["x" := b];
    ==
      map["x" := b];
    }
  }
}
