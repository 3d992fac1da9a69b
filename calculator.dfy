/** The calculator page: four pieces of state (the display text, the value held
    before an operator key, the pending operator, and whether the next digit starts
    a new operand) and the key handlers that overwrite them. Numbers are reals, and
    `parseFloat` and `String(number)` stay abstract: a calculator is built over a
    `parse` and a `show` function. */
module Calculator {
  import opened Wrappers
  import opened JsText

  // ---------------------------------------------------------------------------
  // calculate
  // ---------------------------------------------------------------------------

  /** The four operator keys. */
  const Plus := "+"
  const Minus := "-"
  const Times := "×"
  const Divide := "÷"

  predicate IsArithmetic(operation: string) {
    operation == Plus || operation == Minus || operation == Times || operation == Divide
  }

  /** `calculate(first, second, operation)`: the arithmetic of an operator key.
      Each operator's result is the value the inverse operation takes back to
      `first`; multiplying by zero and dividing by zero both give 0; `=` and every other text give the
      second operand. */
  function Calculate(first: real, second: real, operation: string): (r: real)
    ensures operation == Plus ==> r - second == first
    ensures operation == Minus ==> r + second == first
    ensures operation == Times && second != 0.0 ==> r / second == first
    ensures operation == Times && second == 0.0 ==> r == 0.0
    ensures operation == Divide && second != 0.0 ==> r * second == first
    ensures operation == Divide && second == 0.0 ==> r == 0.0
    ensures !IsArithmetic(operation) ==> r == second
  {
    if operation == Plus then first + second
    else if operation == Minus then first - second
    else if operation == Times then first * second
    else if operation == Divide then (if second != 0.0 then first / second else 0.0)
    else second
  }

  /** Subtraction undoes addition and the other way round, and division by a
      non-zero operand undoes multiplication. */
  lemma CalculateInverses(a: real, b: real)
    ensures Calculate(Calculate(a, b, Plus), b, Minus) == a
    ensures Calculate(Calculate(a, b, Minus), b, Plus) == a
    ensures b != 0.0 ==> Calculate(Calculate(a, b, Times), b, Divide) == a
  {
  }

  // ---------------------------------------------------------------------------
  // What the display may hold
  // ---------------------------------------------------------------------------

  /** A digit key, as the keypad sends it. */
  predicate DigitKey(num: string) {
    |num| == 1 && IsDigit(num[0])
  }

  /** Text the display may show: non-empty, with at most one decimal point, and
      with no zero in front of anything but the decimal point. */
  predicate DisplayText(s: string) {
    && s != []
    && Occurrences(s, '.') <= 1
    && !(|s| >= 2 && s[0] == '0' && s[1] != '.')
  }

  /** What `String(number)` is relied on for: it always writes display text. */
  ghost predicate ShowsDisplayText(show: real -> string) {
    forall v: real :: DisplayText(show(v))
  }

  /** A digit typed after the display's text keeps it display text, unless the
      display is a lone `0`, which the digit replaces instead. */
  lemma {:induction false} AppendDigit(s: string, num: string)
    requires DisplayText(s) && s != "0" && DigitKey(num)
    ensures DisplayText(s + num)
    ensures Occurrences(s + num, '.') == Occurrences(s, '.')
  {
    OccurrencesConcat(s, num, '.');
    assert num == [num[0]];
    assert (s + num)[0] == s[0];
    if |s| >= 2 {
      assert (s + num)[1] == s[1];
    }
  }

  /** A decimal point typed after text that has none keeps it display text, with
      exactly one point. */
  lemma {:induction false} AppendPoint(s: string)
    requires DisplayText(s) && '.' !in s
    ensures DisplayText(s + ".")
    ensures Occurrences(s + ".", '.') == 1
  {
    OccurrencesConcat(s, ".", '.');
    assert (s + ".")[0] == s[0];
    if |s| >= 2 {
      assert (s + ".")[1] == s[1];
    } else {
      assert (s + ".")[1] == '.';
    }
  }

  /** `if (operation)`: a pending operator is a non-empty text. */
  predicate Pending(operation: Option<string>) {
    operation.Some? && operation.value != ""
  }

  // ---------------------------------------------------------------------------
  // The page's state
  // ---------------------------------------------------------------------------

  class Calculator {
    var display: string
    var previousValue: Option<real>
    var operation: Option<string>
    var waitingForOperand: bool

    /** `parseFloat` and `String(number)`. */
    const parse: string -> real
    const show: real -> string

    /** The display always holds display text, and an operator is only ever
        stored together with the value it applies to. */
    ghost predicate Valid()
      reads this
    {
      && ShowsDisplayText(show)
      && DisplayText(display)
      && (operation.Some? ==> previousValue.Some?)
    }

    /** The state the page starts in: `0`, nothing held, nothing pending. */
    constructor (parse: string -> real, show: real -> string)
      requires ShowsDisplayText(show)
      ensures this.parse == parse && this.show == show
      ensures display == "0" && previousValue == None && operation == None
      ensures !waitingForOperand
      ensures Valid()
    {
      this.parse := parse;
      this.show := show;
      display := "0";
      previousValue := None;
      operation := None;
      waitingForOperand := false;
    }

    /** `inputNumber`: a digit starts a new operand after an operator key,
        replaces a lone `0`, and is appended otherwise. A digit keeps the
        display text. */
    method InputNumber(num: string)
      modifies this
      ensures old(waitingForOperand) ==> display == num
      ensures !old(waitingForOperand) && old(display) == "0" ==> display == num
      ensures !old(waitingForOperand) && old(display) != "0" ==> display == old(display) + num
      ensures !waitingForOperand
      ensures previousValue == old(previousValue) && operation == old(operation)
      ensures old(Valid()) && DigitKey(num) ==> Valid()
    {
      if waitingForOperand {
        display := num;
        waitingForOperand := false;
      } else {
        if display != "0" && DisplayText(display) && DigitKey(num) {
          AppendDigit(display, num);
        }
        display := if display == "0" then num else display + num;
      }
    }

    /** `inputDecimal`: after an operator key the display becomes `0.`; otherwise
        a point is appended only when the display has none, so the display
        never gets a second point. */
    method InputDecimal()
      modifies this
      ensures old(waitingForOperand) ==> display == "0."
      ensures !old(waitingForOperand) && '.' !in old(display) ==> display == old(display) + "."
      ensures !old(waitingForOperand) && '.' in old(display) ==> display == old(display)
      ensures '.' in display
      ensures !waitingForOperand
      ensures previousValue == old(previousValue) && operation == old(operation)
      ensures old(Valid()) ==> Valid() && Occurrences(display, '.') == 1
    {
      if waitingForOperand {
        display := "0.";
        waitingForOperand := false;
        assert display == ['0', '.'];
      } else if '.' !in display {
        if DisplayText(display) {
          AppendPoint(display);
        }
        display := display + ".";
        assert display[|display| - 1] == '.';
      } else {
        if DisplayText(display) {
          assert Occurrences(display, '.') != 0;
        }
      }
    }

    /** `clear`: back to the starting state. */
    method Clear()
      modifies this
      ensures display == "0" && previousValue == None && operation == None
      ensures !waitingForOperand
      ensures ShowsDisplayText(show) ==> Valid()
    {
      display := "0";
      previousValue := None;
      operation := None;
      waitingForOperand := false;
    }

    /** `performOperation`: the display's value is held when nothing is; when a
        value and an operator are pending, their result is shown and held instead.
        Either way the key becomes the pending operator and the next digit starts
        a new operand. */
    method PerformOperation(nextOperation: string)
      modifies this
      ensures old(previousValue) == None ==>
        previousValue == Some(parse(old(display))) && display == old(display)
      ensures old(previousValue).Some? && Pending(old(operation)) ==>
        var result := Calculate(old(previousValue).value, parse(old(display)), old(operation).value);
        previousValue == Some(result) && display == show(result)
      ensures old(previousValue).Some? && !Pending(old(operation)) ==>
        previousValue == old(previousValue) && display == old(display)
      ensures operation == Some(nextOperation) && waitingForOperand
      ensures old(Valid()) ==> Valid()
    {
      var inputValue := parse(display);
      if previousValue == None {
        previousValue := Some(inputValue);
      } else if Pending(operation) {
        // `previousValue || 0`: the held value itself, since a real is never NaN
        // and a held 0 stays 0.
        var currentValue := previousValue.value;
        var newValue := Calculate(currentValue, inputValue, operation.value);
        display := show(newValue);
        previousValue := Some(newValue);
      }
      waitingForOperand := true;
      operation := Some(nextOperation);
    }

    /** `handleEquals`: with a value and an operator pending, shows their result
        and drops both; otherwise changes nothing. */
    method HandleEquals()
      modifies this
      ensures old(previousValue).Some? && Pending(old(operation)) ==>
        && display == show(Calculate(old(previousValue).value, parse(old(display)), old(operation).value))
        && previousValue == None && operation == None && waitingForOperand
      ensures !(old(previousValue).Some? && Pending(old(operation))) ==>
        && display == old(display) && previousValue == old(previousValue)
        && operation == old(operation) && waitingForOperand == old(waitingForOperand)
      ensures old(Valid()) ==> Valid()
    {
      var inputValue := parse(display);
      if previousValue != None && Pending(operation) {
        var newValue := Calculate(previousValue.value, inputValue, operation.value);
        display := show(newValue);
        previousValue := None;
        operation := None;
        waitingForOperand := true;
      }
    }
  }

  /** Keying `1 + 2 =` on a fresh calculator shows the text of 3, given a
      `parseFloat` that reads the two digits. */
  method OnePlusTwo(parse: string -> real, show: real -> string) returns (shown: string)
    requires ShowsDisplayText(show)
    requires parse("1") == 1.0 && parse("2") == 2.0
    ensures shown == show(3.0)
  {
    var c := new Calculator(parse, show);
    c.InputNumber("1");
    c.PerformOperation(Plus);
    c.InputNumber("2");
    c.HandleEquals();
    shown := c.display;
  }
}
